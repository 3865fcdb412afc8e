/** The bounded LRU cache with per-entry expiry. */
module LruCache {
  import opened OrderedDicts

  /** expires == 0.0 means never. */
  datatype Cell<V> = Cell(value: V, expires: real)

  datatype Config = Config(maxSize: int, ttl: real)

  predicate Expired<V>(e: Cell<V>, now: real) { e.expires != 0.0 && e.expires <= now }

  function EnforceCap<K(!new), V>(cfg: Config, s: Dict<K, V>): Dict<K, V> {
    if cfg.maxSize <= 0 then s else s.Trim(cfg.maxSize)
  }

  function Found<K(!new), V>(s: Dict<K, Cell<V>>, k: K, now: real): Option<V> {
    if k in s.at && !Expired(s.at[k], now) then Some(s.at[k].value) else None
  }

  function AfterGet<K(!new), V>(s: Dict<K, Cell<V>>, k: K, now: real): Dict<K, Cell<V>> {
    if k !in s.at then s else if Expired(s.at[k], now) then s.Remove(k) else s.MoveToEnd(k)
  }

  function NewCell<V>(cfg: Config, v: V, ttl: Option<real>, now: real): Cell<V> {
    var t := if ttl.Some? then ttl.value else cfg.ttl;
    Cell(v, if t > 0.0 then now + t else 0.0)
  }

  function AfterSet<K(!new), V>(cfg: Config, s: Dict<K, Cell<V>>, k: K, c: Cell<V>): Dict<K, Cell<V>> {
    if k in s.at then s.MoveToEnd(k).Put(k, c) else EnforceCap(cfg, s.Put(k, c))
  }

  class Cache<K(==, !new), V> {
    const cfg: Config
    var store: Dict<K, Cell<V>>

    constructor (maxSize: int, ttl: real)
      ensures cfg == Config(maxSize, ttl) && store == Empty()
    {
      cfg, store := Config(maxSize, ttl), Empty();
    }

    method Get(k: K, now: real) returns (hit: Option<V>)
      modifies this
      ensures hit == Found(old(store), k, now) && store == AfterGet(old(store), k, now)
    {
      if k !in store.at { return None; }
      var entry := store.at[k];
      if entry.expires != 0.0 && entry.expires <= now {
        store := store.Remove(k);
        return None;
      }
      store := store.MoveToEnd(k);
      hit := Some(entry.value);
    }

    method Set(k: K, v: V, ttl: Option<real>, now: real)
      modifies this
      ensures store == AfterSet(cfg, old(store), k, NewCell(cfg, v, ttl, now))
    {
      hide OrderedDict.Valid, OrderedDict.Put, OrderedDict.MoveToEnd, OrderedDict.Trim;
      var t := if ttl.Some? then ttl.value else cfg.ttl;
      var expires := if t > 0.0 then now + t else 0.0;
      if k in store.at {
        store := store.MoveToEnd(k);
        store := store.Put(k, Cell(v, expires));
        return;
      }
      store := store.Put(k, Cell(v, expires));
      EnforceCapLocked();
    }

    method EnforceCapLocked()
      modifies this
      ensures store == EnforceCap(cfg, old(store))
    {
      hide OrderedDict.Valid, OrderedDict.PopFirst;
      if cfg.maxSize <= 0 { return; }
      while |store.order| > cfg.maxSize
        invariant store.Trim(cfg.maxSize) == old(store).Trim(cfg.maxSize)
        decreases |store.order|
      {
        store := store.PopFirst();
      }
    }

    method Pop(k: K) returns (popped: Option<V>)
      modifies this
      ensures popped == if k in old(store).at then Some(old(store).at[k].value) else None
      ensures store == old(store).Remove(k)
    {
      popped := if k in store.at then Some(store.at[k].value) else None;
      store := store.Remove(k);
    }

    method Clear()
      modifies this
      ensures store == Empty()
    {
      store := Empty();
    }
  }

  // ----- runs against a map that never evicts ------------------------------

  datatype Op<K, V> =
    | GetOp(k: K, now: real)
    | SetOp(k: K, v: V, ttl: Option<real>, now: real)
    | PopOp(k: K)
    | ClearOp

  function Step<K(!new), V>(cfg: Config, s: Dict<K, Cell<V>>, op: Op<K, V>): Dict<K, Cell<V>> {
    match op
    case GetOp(k, now) => AfterGet(s, k, now)
    case SetOp(k, v, ttl, now) => AfterSet(cfg, s, k, NewCell(cfg, v, ttl, now))
    case PopOp(k) => s.Remove(k)
    case ClearOp => Empty()
  }

  /** A value is there for the time given with it, else the cache's own, and for good if that is not
      positive. */
  lemma CellLives<V>(cfg: Config, v: V, ttl: Option<real>, at: real, now: real)
    requires at >= 0.0
    ensures var cell, life := NewCell(cfg, v, ttl, at), if ttl.Some? then ttl.value else cfg.ttl;
            cell.value == v && (Expired(cell, now) <==> life > 0.0 && at + life <= now)
  {
  }

  /** A lookup leaves other keys alone, keeps its own exactly if it is a hit, and makes that newest. */
  lemma GetKeepsHits<K(!new), V>(s: Dict<K, Cell<V>>, k: K, now: real)
    ensures var s' := AfterGet(s, k, now);
            && (forall m :: m != k ==> (m in s'.at <==> m in s.at) && (m in s.at ==> s'.at[m] == s.at[m]))
            && (k in s'.at <==> Found(s, k, now).Some?)
            && (k in s'.at ==> s'.at[k] == s.at[k] && s'.order != [] && s'.order[|s'.order| - 1] == k)
  {
    hide OrderedDict.Valid;
  }

  /** The latest set of each key, with no cap and no expiry. */
  function RefStep<K(!new), V>(cfg: Config, r: map<K, Cell<V>>, op: Op<K, V>): map<K, Cell<V>> {
    match op
    case GetOp(_, _) => r
    case SetOp(k, v, ttl, now) => r[k := NewCell(cfg, v, ttl, now)]
    case PopOp(k) => r - {k}
    case ClearOp => map[]
  }

  function Run<K(!new), V>(cfg: Config, s: Dict<K, Cell<V>>, ops: seq<Op<K, V>>): Dict<K, Cell<V>>
    decreases |ops|
  {
    if ops == [] then s else Run(cfg, Step(cfg, s, ops[0]), ops[1..])
  }

  function RefRun<K(!new), V>(cfg: Config, r: map<K, Cell<V>>, ops: seq<Op<K, V>>): map<K, Cell<V>>
    decreases |ops|
  {
    if ops == [] then r else RefRun(cfg, RefStep(cfg, r, ops[0]), ops[1..])
  }

  /** The cache holds nothing but latest values, and respects its cap. */
  ghost predicate Sound<K(!new), V>(cfg: Config, s: Dict<K, Cell<V>>, r: map<K, Cell<V>>) {
    && (forall k :: k in s.at ==> k in r && r[k] == s.at[k])
    && (cfg.maxSize > 0 ==> |s.order| <= cfg.maxSize)
  }

  lemma SoundStep<K(!new), V>(cfg: Config, s: Dict<K, Cell<V>>, r: map<K, Cell<V>>, op: Op<K, V>)
    requires Sound(cfg, s, r)
    ensures Sound(cfg, Step(cfg, s, op), RefStep(cfg, r, op))
  {
    hide OrderedDict.Valid, OrderedDict.Trim;
    if op.SetOp? && op.k !in s.at && cfg.maxSize > 0 {
      TrimKeeps(s.Put(op.k, NewCell(cfg, op.v, op.ttl, op.now)), cfg.maxSize);
    }
    if op.PopOp? || op.GetOp? {
      DictKeys(s);
      WithoutElems(s.order, op.k);
    }
  }

  /** In every run a lookup returns nothing but the latest set value, unexpired, and the size never
      passes the cap. */
  lemma {:induction false} NeverStale<K(!new), V>(
      cfg: Config, s: Dict<K, Cell<V>>, r: map<K, Cell<V>>, ops: seq<Op<K, V>>, k: K, now: real)
    requires Sound(cfg, s, r)
    ensures Sound(cfg, Run(cfg, s, ops), RefRun(cfg, r, ops))
    ensures var hit, ref := Found(Run(cfg, s, ops), k, now), RefRun(cfg, r, ops);
            hit.Some? ==> k in ref && hit.value == ref[k].value && !Expired(ref[k], now)
    decreases |ops|
  {
    hide OrderedDict.Valid, Step, RefStep;
    if ops != [] {
      SoundStep(cfg, s, r, ops[0]);
      NeverStale(cfg, Step(cfg, s, ops[0]), RefStep(cfg, r, ops[0]), ops[1..], k, now);
    }
  }

  // ----- the working-set guarantee -----------------------------------------

  /** The operation leaves k in place, happens no later than `now`, and touches only k and `busy`. */
  predicate Gentle<K(!new), V>(op: Op<K, V>, k: K, busy: set<K>, now: real) {
    match op
    case GetOp(m, t) => t <= now && m in busy + {k}
    case SetOp(m, _, _, t) => t <= now && m in busy + {k}
    case PopOp(m) => m != k
    case ClearOp => false
  }

  /** k is cached as the reference has it, with only `busy` keys behind it; or it has expired. */
  ghost predicate Kept<K(!new), V>(s: Dict<K, Cell<V>>, r: map<K, Cell<V>>, k: K, busy: set<K>, now: real) {
    && k in r
    && (Expired(r[k], now) || (k in s.at && s.at[k] == r[k] && AfterOnly(s.order, k, busy)))
    && (k in s.at ==> s.at[k] == r[k])
  }

  lemma AfterOnlyNew<K(!new)>(order: seq<K>, k: K, busy: set<K>)
    requires k !in order
    ensures AfterOnly(order + [k], k, busy)
  {
  }

  lemma SetKeeps<K(!new), V>(cfg: Config, s: Dict<K, Cell<V>>, m: K, c: Cell<V>, k: K, e: Cell<V>, busy: set<K>)
    requires m == k || (m in busy && k in s.at && s.at[k] == e && AfterOnly(s.order, k, busy))
    requires m == k ==> e == c
    requires cfg.maxSize <= 0 || |busy| < cfg.maxSize
    ensures var s' := AfterSet(cfg, s, m, c);
            k in s'.at && s'.at[k] == e && AfterOnly(s'.order, k, busy)
  {
    hide OrderedDict.Valid, OrderedDict.MoveToEnd, OrderedDict.Trim;
    DictKeys(s);
    if m in s.at {
      if m == k {
        WithoutElems(s.order, k);
        AfterOnlyNew(Without(s.order, k), k, busy);
      } else {
        AfterOnlyTouched(s.order, m, k, busy);
      }
    } else {
      if m == k { AfterOnlyNew(s.order, k, busy); } else { AfterOnlyTouched(s.order, m, k, busy); }
      if cfg.maxSize > 0 { WorkingSetSurvives(s.Put(m, c), k, busy, cfg.maxSize); }
    }
  }

  lemma KeptStep<K(!new), V>(
      cfg: Config, s: Dict<K, Cell<V>>, r: map<K, Cell<V>>, op: Op<K, V>, k: K, busy: set<K>, now: real)
    requires Kept(s, r, k, busy, now) && Gentle(op, k, busy, now)
    requires cfg.maxSize <= 0 || |busy| < cfg.maxSize
    ensures Kept(Step(cfg, s, op), RefStep(cfg, r, op), k, busy, now)
  {
    hide OrderedDict.Valid, AfterOnly, OrderedDict.MoveToEnd, OrderedDict.Remove, OrderedDict.Put, OrderedDict.Trim;
    DictKeys(s);
    match op
    case GetOp(m, t) =>
      if k in s.at && AfterOnly(s.order, k, busy) {
        AfterOnlyTouched(s.order, m, k, busy);
        AfterOnlyWithout(s.order, m, k, busy);
      }
    case SetOp(m, v, ttl, t) =>
      var c := NewCell(cfg, v, ttl, t);
      if m == k {
        SetKeeps(cfg, s, m, c, k, c, busy);
      } else if k in s.at && AfterOnly(s.order, k, busy) {
        SetKeeps(cfg, s, m, c, k, s.at[k], busy);
      } else {
        if m !in s.at && cfg.maxSize > 0 { TrimKeeps(s.Put(m, c), cfg.maxSize); }
      }
    case PopOp(m) =>
      if k in s.at && AfterOnly(s.order, k, busy) { AfterOnlyWithout(s.order, m, k, busy); }
    case ClearOp =>
  }

  lemma {:induction false} KeptRun<K(!new), V>(
      cfg: Config, s: Dict<K, Cell<V>>, r: map<K, Cell<V>>, ops: seq<Op<K, V>>, k: K, busy: set<K>, now: real)
    requires Kept(s, r, k, busy, now)
    requires forall i :: 0 <= i < |ops| ==> Gentle(ops[i], k, busy, now)
    requires cfg.maxSize <= 0 || |busy| < cfg.maxSize
    ensures Kept(Run(cfg, s, ops), RefRun(cfg, r, ops), k, busy, now)
    decreases |ops|
  {
    hide OrderedDict.Valid, Step, RefStep, Kept, Gentle;
    if ops != [] {
      KeptStep(cfg, s, r, ops[0], k, busy, now);
      KeptRun(cfg, Step(cfg, s, ops[0]), RefStep(cfg, r, ops[0]), ops[1..], k, busy, now);
    }
  }

  /** Set k, then run operations that neither pop nor clear it, at times up to `now`, touching fewer
      than maxSize other keys: a lookup at `now` answers exactly as the unbounded reference does. */
  lemma WorkingSetHits<K(!new), V>(
      cfg: Config, s: Dict<K, Cell<V>>, r: map<K, Cell<V>>, k: K, c: Cell<V>,
      ops: seq<Op<K, V>>, busy: set<K>, now: real)
    requires forall i :: 0 <= i < |ops| ==> Gentle(ops[i], k, busy, now)
    requires cfg.maxSize <= 0 || |busy| < cfg.maxSize
    ensures var ref := RefRun(cfg, r[k := c], ops);
            && k in ref
            && Found(Run(cfg, AfterSet(cfg, s, k, c), ops), k, now)
               == if Expired(ref[k], now) then None else Some(ref[k].value)
  {
    hide OrderedDict.Valid, AfterSet;
    SetKeeps(cfg, s, k, c, k, c, busy);
    KeptRun(cfg, AfterSet(cfg, s, k, c), r[k := c], ops, k, busy, now);
  }

  /** Look k up with a hit, then run such operations: the same. A lookup is a use as good as a set. */
  lemma HitsKeepWorking<K(!new), V>(
      cfg: Config, s: Dict<K, Cell<V>>, r: map<K, Cell<V>>, k: K, at: real,
      ops: seq<Op<K, V>>, busy: set<K>, now: real)
    requires Sound(cfg, s, r) && Found(s, k, at).Some?
    requires forall i :: 0 <= i < |ops| ==> Gentle(ops[i], k, busy, now)
    requires cfg.maxSize <= 0 || |busy| < cfg.maxSize
    ensures var ref := RefRun(cfg, r, ops);
            && k in ref
            && Found(Run(cfg, AfterGet(s, k, at), ops), k, now)
               == if Expired(ref[k], now) then None else Some(ref[k].value)
  {
    hide OrderedDict.Valid, Run, RefRun, Gentle;
    DictKeys(s);
    WithoutElems(s.order, k);
    assert k !in Without(s.order, k) by { assert k in Without(s.order, k) ==> k in Elems(Without(s.order, k)); }
    AfterOnlyNew(Without(s.order, k), k, busy);
    KeptRun(cfg, AfterGet(s, k, at), r, ops, k, busy, now);
  }
}

/** Lazily made per-key locks, bounded by an idle-first sweep. */
module KeyedLocks {
  import opened OrderedDicts

  /** A lock is known by its allocation number. */
  datatype Handle = Handle(lock: nat, touched: real)
  datatype Config = Config(maxSize: int, idle: real)
  datatype Locks<K(==, !new)> = Locks(store: Dict<K, Handle>, made: nat)

  /** The idle-first pass over a snapshot of the keys. */
  function DropIdle<K(!new)>(d: Dict<K, Handle>, keys: seq<K>, cap: nat, cutoff: real): Dict<K, Handle>
    decreases |keys|
  {
    if keys == [] || |d.order| <= cap then d
    else
      DropIdle(if keys[0] in d.at && d.at[keys[0]].touched <= cutoff then d.Remove(keys[0]) else d,
               keys[1..], cap, cutoff)
  }

  function EnforceCap<K(!new)>(cfg: Config, d: Dict<K, Handle>, now: real): Dict<K, Handle> {
    if cfg.maxSize <= 0 || |d.order| <= cfg.maxSize then d
    else DropIdle(d, d.order, cfg.maxSize, now - cfg.idle).Trim(cfg.maxSize)
  }

  function AfterGet<K(!new)>(cfg: Config, l: Locks<K>, k: K, now: real): Locks<K> {
    if k in l.store.at then
      l.(store := l.store.Put(k, l.store.at[k].(touched := now)).MoveToEnd(k))
    else
      Locks(EnforceCap(cfg, l.store.Put(k, Handle(l.made, now)), now), l.made + 1)
  }

  class KeyedLockMap<K(==, !new)> {
    const cfg: Config
    var store: Dict<K, Handle>
    var made: nat

    ghost function State(): Locks<K> reads this { Locks(store, made) }

    constructor (maxSize: int, idle: real)
      ensures cfg == Config(maxSize, idle) && State() == Locks(Empty(), 0)
    {
      cfg, store, made := Config(maxSize, idle), Empty(), 0;
    }

    method Get(k: K, now: real) returns (lock: nat)
      modifies this
      ensures State() == AfterGet(cfg, old(State()), k, now)
      ensures lock == if k in old(store).at then old(store).at[k].lock else old(made)
    {
      hide OrderedDict.Valid, OrderedDict.Put, OrderedDict.MoveToEnd, EnforceCap;
      if k !in store.at {
        lock := made;
        store, made := store.Put(k, Handle(made, now)), made + 1;
        EnforceCapLocked(now);
      } else {
        lock := store.at[k].lock;
        store := store.Put(k, store.at[k].(touched := now));
        store := store.MoveToEnd(k);
      }
    }

    method EnforceCapLocked(now: real)
      modifies this`store
      ensures store == EnforceCap(cfg, old(store), now)
    {
      hide OrderedDict.Valid, OrderedDict.PopFirst, OrderedDict.Remove;
      if cfg.maxSize <= 0 || |store.order| <= cfg.maxSize { return; }
      var cutoff, keys, i := now - cfg.idle, store.order, 0;
      while i < |keys| && |store.order| > cfg.maxSize
        invariant 0 <= i <= |keys|
        invariant DropIdle(store, keys[i..], cfg.maxSize, cutoff) == DropIdle(old(store), keys, cfg.maxSize, cutoff)
      {
        assert keys[i..][1..] == keys[i + 1..];
        if keys[i] in store.at && store.at[keys[i]].touched <= cutoff { store := store.Remove(keys[i]); }
        i := i + 1;
      }
      assert store == DropIdle(old(store), keys, cfg.maxSize, cutoff);
      while |store.order| > cfg.maxSize
        invariant store.Trim(cfg.maxSize) == DropIdle(old(store), keys, cfg.maxSize, cutoff).Trim(cfg.maxSize)
        decreases |store.order|
      {
        store := store.PopFirst();
      }
    }

    method Discard(k: K)
      modifies this`store
      ensures store == old(store).Remove(k)
    {
      store := store.Remove(k);
    }
  }

  // ----- the sweep is plain LRU --------------------------------------------

  /** Touch times follow the order. */
  ghost predicate Ordered<K(!new)>(order: seq<K>, at: map<K, Handle>) {
    && (forall i :: 0 <= i < |order| ==> order[i] in at)
    && (forall i, j :: 0 <= i < j < |order| ==> at[order[i]].touched <= at[order[j]].touched)
  }

  ghost predicate Past<K(!new)>(at: map<K, Handle>, clock: real, made: nat) {
    forall k :: k in at ==> at[k].touched <= clock && at[k].lock < made
  }

  /** Touch times follow the order and lie in the past; the cap holds. */
  ghost predicate Inv<K(!new)>(cfg: Config, l: Locks<K>, clock: real) {
    && Ordered(l.store.order, l.store.at)
    && Past(l.store.at, clock, l.made)
    && (cfg.maxSize > 0 ==> |l.store.order| <= cfg.maxSize)
  }

  /** A dictionary one over its cap, its touch times following the order. */
  ghost predicate OneOver<K(!new)>(d: Dict<K, Handle>, cap: nat) {
    && |d.order| == cap + 1
    && (forall i :: 0 <= i < |d.order| ==> d.order[i] in d.at)
    && (forall i :: 0 <= i < |d.order| ==> d.at[d.order[0]].touched <= d.at[d.order[i]].touched)
  }

  lemma {:induction false} NoneIdle<K(!new)>(d: Dict<K, Handle>, keys: seq<K>, cap: nat, cutoff: real)
    requires forall i :: 0 <= i < |keys| ==> keys[i] in d.at && d.at[keys[i]].touched > cutoff
    ensures DropIdle(d, keys, cap, cutoff) == d
    decreases |keys|
  {
    hide OrderedDict.Valid;
    if keys != [] && |d.order| > cap { NoneIdle(d, keys[1..], cap, cutoff); }
  }

  /** Whatever the touch times, the idle key that comes first in order is the one to go. */
  lemma {:induction false} IdleGoesFirst<K(!new)>(d: Dict<K, Handle>, keys: seq<K>, cap: nat, cutoff: real, i: nat)
    requires |d.order| == cap + 1 && i < |keys| && keys[i] in d.at && d.at[keys[i]].touched <= cutoff
    requires forall j :: 0 <= j < i ==> keys[j] in d.at && d.at[keys[j]].touched > cutoff
    ensures DropIdle(d, keys, cap, cutoff) == d.Remove(keys[i])
    decreases |keys|
  {
    hide OrderedDict.Valid;
    if i == 0 {
      RemoveShrinks(d, keys[0]);
      assert |d.Remove(keys[0]).order| <= cap;
    } else {
      IdleGoesFirst(d, keys[1..], cap, cutoff, i - 1);
    }
  }

  /** Whatever the cutoff, the two-phase sweep drops exactly the least recently used key. */
  lemma SweepDropsOldest<K(!new)>(d: Dict<K, Handle>, cap: nat, cutoff: real)
    requires OneOver(d, cap)
    ensures DropIdle(d, d.order, cap, cutoff).Trim(cap) == d.PopFirst()
  {
    hide OrderedDict.Valid;
    if d.at[d.order[0]].touched <= cutoff {
      var r := d.Remove(d.order[0]);
      assert IndexOf(d.order, d.order[0]) == 0;
      assert r == d.PopFirst();
      assert DropIdle(r, d.order[1..], cap, cutoff) == r;
    } else {
      NoneIdle(d, d.order, cap, cutoff);
    }
  }

  lemma NewKeyOneOver<K(!new)>(cfg: Config, l: Locks<K>, k: K, clock: real, now: real)
    requires Inv(cfg, l, clock) && clock <= now && k !in l.store.at
    requires cfg.maxSize > 0 && |l.store.order| == cfg.maxSize
    ensures OneOver(l.store.Put(k, Handle(l.made, now)), cfg.maxSize)
  {
    hide OrderedDict.Valid;
    var d := l.store.Put(k, Handle(l.made, now));
    DictKeys(l.store);
    DictKeys(d);
    assert d.order == l.store.order + [k];
  }

  /** A request makes k the newest key and, when the map is full, drops exactly the least recently
      used key, never the one just requested; every other handle keeps its lock and touch time. */
  lemma RequestIsLru<K(!new)>(cfg: Config, l: Locks<K>, k: K, clock: real, now: real)
    requires Inv(cfg, l, clock) && clock <= now
    ensures var l' := AfterGet(cfg, l, k, now);
            && l'.store.order == LruOrder(l.store.order, k, cfg.maxSize)
            && k in l'.store.at
            && l'.store.at[k] == Handle(if k in l.store.at then l.store.at[k].lock else l.made, now)
            && (forall m :: m in l'.store.at && m != k ==> m in l.store.at && l'.store.at[m] == l.store.at[m])
  {
    hide OrderedDict.Valid, OrderedDict.PopFirst, OrderedDict.MoveToEnd, OrderedDict.Trim, DropIdle, Inv;
    DictKeys(l.store);
    InvCap(cfg, l, clock);
    TouchedLength(l.store.order, k);
    if k !in l.store.at {
      var d := l.store.Put(k, Handle(l.made, now));
      if cfg.maxSize > 0 && |l.store.order| == cfg.maxSize {
        NewKeyOneOver(cfg, l, k, clock, now);
        SweepDropsOldest(d, cfg.maxSize, now - cfg.idle);
        assert EnforceCap(cfg, d, now) == d.PopFirst();
        assert d.order[0] == l.store.order[0] && l.store.order[0] in l.store.at;
      }
    }
  }

  lemma InvCap<K(!new)>(cfg: Config, l: Locks<K>, clock: real)
    requires Inv(cfg, l, clock)
    ensures cfg.maxSize > 0 ==> |l.store.order| <= cfg.maxSize
  {
  }

  // ----- runs --------------------------------------------------------------

  datatype Op<K> = GetOp(k: K, now: real) | DiscardOp(k: K)

  function Step<K(!new)>(cfg: Config, l: Locks<K>, op: Op<K>): Locks<K> {
    match op
    case GetOp(k, now) => AfterGet(cfg, l, k, now)
    case DiscardOp(k) => l.(store := l.store.Remove(k))
  }

  function Clock<K>(clock: real, op: Op<K>): real { if op.GetOp? then op.now else clock }

  function Run<K(!new)>(cfg: Config, l: Locks<K>, ops: seq<Op<K>>): Locks<K>
    decreases |ops|
  {
    if ops == [] then l else Run(cfg, Step(cfg, l, ops[0]), ops[1..])
  }

  predicate Monotone<K>(clock: real, ops: seq<Op<K>>)
    decreases |ops|
  {
    ops != [] ==> clock <= Clock(clock, ops[0]) && Monotone(Clock(clock, ops[0]), ops[1..])
  }

  lemma OrderedTouch<K(!new)>(order: seq<K>, at: map<K, Handle>, k: K, h: Handle)
    requires NoDup(order) && Ordered(order, at)
    requires forall m :: m in at ==> at[m].touched <= h.touched
    ensures Ordered(Touched(order, k), at[k := h])
  {
  }

  lemma OrderedWithout<K(!new)>(order: seq<K>, at: map<K, Handle>, k: K)
    requires NoDup(order) && Ordered(order, at)
    ensures Ordered(Without(order, k), at - {k})
  {
    WithoutElems(order, k);
    var w := Without(order, k);
    assert forall i :: 0 <= i < |w| ==> w[i] in Elems(w);
  }

  lemma OrderedIn<K(!new)>(order: seq<K>, at: map<K, Handle>, at': map<K, Handle>)
    requires Ordered(order, at)
    requires forall i :: 0 <= i < |order| ==> order[i] in at' && at'[order[i]] == at[order[i]]
    ensures Ordered(order, at')
  {
  }

  lemma InvGet<K(!new)>(cfg: Config, l: Locks<K>, k: K, clock: real, now: real)
    requires Inv(cfg, l, clock) && clock <= now
    ensures Inv(cfg, AfterGet(cfg, l, k, now), now)
  {
    hide OrderedDict.Valid, AfterGet, Touched, Ordered;
    RequestIsLru(cfg, l, k, clock, now);
    var l' := AfterGet(cfg, l, k, now);
    var at' := l.store.at[k := l'.store.at[k]];
    DictKeys(l.store);
    DictKeys(l'.store);
    OrderedTouch(l.store.order, l.store.at, k, l'.store.at[k]);
    TouchedLength(l.store.order, k);
    OrderedTail(Touched(l.store.order, k), at');
    OrderedIn(l'.store.order, at', l'.store.at);
    MadeGrows(cfg, l, k, now);
  }

  lemma OrderedTail<K(!new)>(order: seq<K>, at: map<K, Handle>)
    requires Ordered(order, at)
    ensures order != [] ==> Ordered(order[1..], at)
  {
  }

  lemma MadeGrows<K(!new)>(cfg: Config, l: Locks<K>, k: K, now: real)
    ensures AfterGet(cfg, l, k, now).made == if k in l.store.at then l.made else l.made + 1
  {
  }

  lemma InvDiscard<K(!new)>(cfg: Config, l: Locks<K>, k: K, clock: real)
    requires Inv(cfg, l, clock)
    ensures Inv(cfg, l.(store := l.store.Remove(k)), clock)
  {
    hide OrderedDict.Valid;
    DictKeys(l.store);
    WithoutElems(l.store.order, k);
    assert Ordered(l.store.order, l.store.at);
    OrderedWithout(l.store.order, l.store.at, k);
  }

  /** k keeps lock `lock`, with only `busy` keys requested since. */
  ghost predicate Holds<K(!new)>(l: Locks<K>, k: K, lock: nat, busy: set<K>) {
    k in l.store.at && l.store.at[k].lock == lock && AfterOnly(l.store.order, k, busy)
  }

  lemma AfterOnlyLru<K(!new)>(cfg: Config, order: seq<K>, m: K, k: K, busy: set<K>)
    requires NoDup(order) && k in order && AfterOnly(order, k, busy) && (m == k || m in busy)
    requires cfg.maxSize > 0 ==> |busy| < cfg.maxSize && |order| <= cfg.maxSize
    ensures k in LruOrder(order, m, cfg.maxSize) && AfterOnly(LruOrder(order, m, cfg.maxSize), k, busy)
  {
    var o := Touched(order, m);
    WithoutElems(order, m);
    assert k in o by {
      assert k == m || k in Elems(Without(order, m)) || m !in order;
      if m == k { assert o[|o| - 1] == k; }
    }
    assert NoDup(o);
    assert AfterOnly(o, k, busy);
    if |o| > cfg.maxSize && cfg.maxSize > 0 {
      if o[0] == k {
        NoDupCard(o[1..]);
        SubsetCard(Elems(o[1..]), busy);
        assert false;
      }
      assert o[1..][IndexOf(o, k) - 1] == k;
    }
  }

  lemma HoldsStep<K(!new)>(cfg: Config, l: Locks<K>, op: Op<K>, k: K, lock: nat, busy: set<K>, clock: real)
    requires Inv(cfg, l, clock) && clock <= Clock(clock, op) && Holds(l, k, lock, busy)
    requires if op.GetOp? then op.k == k || op.k in busy else op.k != k
    requires cfg.maxSize > 0 ==> |busy| < cfg.maxSize
    ensures Inv(cfg, Step(cfg, l, op), Clock(clock, op)) && Holds(Step(cfg, l, op), k, lock, busy)
  {
    hide OrderedDict.Valid, AfterGet, AfterOnly, Inv, LruOrder;
    DictKeys(l.store);
    match op
    case GetOp(m, now) =>
      InvCap(cfg, l, clock);
      RequestIsLru(cfg, l, m, clock, now);
      InvGet(cfg, l, m, clock, now);
      AfterOnlyLru(cfg, l.store.order, m, k, busy);
      DictKeys(AfterGet(cfg, l, m, now).store);
    case DiscardOp(m) =>
      InvDiscard(cfg, l, m, clock);
      AfterOnlyWithout(l.store.order, m, k, busy);
  }

  /** Two requests for k get the same lock whenever, between them, the clock did not run backwards,
      k was not discarded, and fewer than maxSize other keys were requested. */
  lemma {:induction false} SameLock<K(!new)>(
      cfg: Config, l: Locks<K>, ops: seq<Op<K>>, k: K, lock: nat, busy: set<K>, clock: real)
    requires Inv(cfg, l, clock) && Monotone(clock, ops) && Holds(l, k, lock, busy)
    requires forall i :: 0 <= i < |ops| ==> if ops[i].GetOp? then ops[i].k == k || ops[i].k in busy else ops[i].k != k
    requires cfg.maxSize > 0 ==> |busy| < cfg.maxSize
    ensures Holds(Run(cfg, l, ops), k, lock, busy)
    decreases |ops|
  {
    hide OrderedDict.Valid, Step, Inv, Holds;
    if ops != [] {
      HoldsStep(cfg, l, ops[0], k, lock, busy, clock);
      SameLock(cfg, Step(cfg, l, ops[0]), ops[1..], k, lock, busy, Clock(clock, ops[0]));
    }
  }

  // ----- exactly when the lock is lost --------------------------------------

  /** The lock the next request for k returns. */
  function LockOf<K(!new)>(l: Locks<K>, k: K): nat { if k in l.store.at then l.store.at[k].lock else l.made }

  /** What is behind k, after some operations on top of `behind`, never reaches maxSize, and nobody
      discards k: requests of other keys join, their discards leave, and a request of k starts anew. */
  ghost predicate NeverLost<K(!new)>(cfg: Config, ops: seq<Op<K>>, k: K, behind: set<K>)
    decreases |ops|
  {
    ops != [] ==>
      match ops[0]
      case GetOp(m, _) =>
        var next := if m == k then {} else behind + {m};
        (m == k || cfg.maxSize <= 0 || |next| < cfg.maxSize) && NeverLost(cfg, ops[1..], k, next)
      case DiscardOp(m) => m != k && NeverLost(cfg, ops[1..], k, behind - {m})
  }

  /** k has another lock than `lock`, or none, and will never have it again. */
  ghost predicate Lost<K(!new)>(l: Locks<K>, k: K, lock: nat) { lock < l.made && LockOf(l, k) != lock }

  ghost predicate Has<K(!new)>(l: Locks<K>, k: K, lock: nat, behind: set<K>) {
    k in l.store.at && l.store.at[k].lock == lock && lock < l.made && Behind(l.store.order, k, behind)
  }

  lemma GetBehind<K(!new)>(cfg: Config, l: Locks<K>, m: K, now: real, k: K, lock: nat, behind: set<K>, clock: real)
    requires Inv(cfg, l, clock) && clock <= now && Has(l, k, lock, behind)
    ensures var l' := AfterGet(cfg, l, m, now);
            var next := if m == k then {} else behind + {m};
            if m == k || cfg.maxSize <= 0 || |next| < cfg.maxSize then Has(l', k, lock, next) else Lost(l', k, lock)
  {
    hide OrderedDict.Valid, AfterGet, Behind, NoDup, Inv, Touched;
    var l' := AfterGet(cfg, l, m, now);
    DictKeys(l.store);
    DictKeys(l'.store);
    InvCap(cfg, l, clock);
    RequestIsLru(cfg, l, m, clock, now);
    MadeGrows(cfg, l, m, now);
    if m == k {
      BehindTouched(l.store.order, k, k, behind);
      TouchedLength(l.store.order, k);
    } else {
      BehindLru(l.store.order, m, k, behind, cfg.maxSize);
    }
  }

  lemma DiscardBehind<K(!new)>(l: Locks<K>, m: K, k: K, lock: nat, behind: set<K>)
    requires Has(l, k, lock, behind)
    ensures var l' := l.(store := l.store.Remove(m));
            if m == k then Lost(l', k, lock) else Has(l', k, lock, behind - {m})
  {
    hide OrderedDict.Valid, Behind, NoDup, Without;
    DictKeys(l.store);
    if m != k { BehindWithout(l.store.order, m, k, behind); }
  }

  /** A lost lock is not given out for k again. */
  lemma LostForGood<K(!new)>(cfg: Config, l: Locks<K>, op: Op<K>, k: K, lock: nat, clock: real)
    requires Inv(cfg, l, clock) && clock <= Clock(clock, op) && Lost(l, k, lock)
    ensures Lost(Step(cfg, l, op), k, lock)
  {
    hide OrderedDict.Valid, AfterGet, Inv, LruOrder;
    match op
    case GetOp(m, now) =>
      RequestIsLru(cfg, l, m, clock, now);
      MadeGrows(cfg, l, m, now);
    case DiscardOp(m) =>
  }

  lemma {:induction false} LostRun<K(!new)>(cfg: Config, l: Locks<K>, ops: seq<Op<K>>, k: K, lock: nat, clock: real)
    requires Inv(cfg, l, clock) && Monotone(clock, ops) && Lost(l, k, lock)
    ensures Lost(Run(cfg, l, ops), k, lock)
    decreases |ops|
  {
    hide OrderedDict.Valid, Step, Inv, Lost;
    if ops != [] {
      LostForGood(cfg, l, ops[0], k, lock, clock);
      InvStep(cfg, l, ops[0], clock);
      LostRun(cfg, Step(cfg, l, ops[0]), ops[1..], k, lock, Clock(clock, ops[0]));
    }
  }

  lemma InvStep<K(!new)>(cfg: Config, l: Locks<K>, op: Op<K>, clock: real)
    requires Inv(cfg, l, clock) && clock <= Clock(clock, op)
    ensures Inv(cfg, Step(cfg, l, op), Clock(clock, op))
  {
    hide OrderedDict.Valid, AfterGet, Inv;
    match op
    case GetOp(m, now) => InvGet(cfg, l, m, clock, now);
    case DiscardOp(m) => InvDiscard(cfg, l, m, clock);
  }

  /** The exact condition: a later request for k gets the lock of an earlier one if and only if at no
      point between them k was discarded, or maxSize other keys had been requested since k was and not
      been discarded since. */
  lemma {:induction false} SameLockIff<K(!new)>(
      cfg: Config, l: Locks<K>, ops: seq<Op<K>>, k: K, lock: nat, behind: set<K>, clock: real)
    requires Inv(cfg, l, clock) && Monotone(clock, ops) && Has(l, k, lock, behind)
    ensures LockOf(Run(cfg, l, ops), k) == lock <==> NeverLost(cfg, ops, k, behind)
    decreases |ops|
  {
    hide OrderedDict.Valid, AfterGet, Inv, Behind, OrderedDict.Remove;
    if ops != [] {
      var next := Step(cfg, l, ops[0]);
      InvStep(cfg, l, ops[0], clock);
      match ops[0] {
        case GetOp(m, now) =>
          GetBehind(cfg, l, m, now, k, lock, behind, clock);
          var more := if m == k then {} else behind + {m};
          if Lost(next, k, lock) {
            LostRun(cfg, next, ops[1..], k, lock, now);
          } else {
            SameLockIff(cfg, next, ops[1..], k, lock, more, now);
          }
        case DiscardOp(m) =>
          DiscardBehind(l, m, k, lock, behind);
          if m == k {
            LostRun(cfg, next, ops[1..], k, lock, clock);
          } else {
            SameLockIff(cfg, next, ops[1..], k, lock, behind - {m}, clock);
          }
      }
    }
  }

  /** Right after a request nothing is behind its key. */
  lemma RequestedHas<K(!new)>(cfg: Config, l: Locks<K>, k: K, clock: real, now: real)
    requires Inv(cfg, l, clock) && clock <= now
    ensures Has(AfterGet(cfg, l, k, now), k, LockOf(l, k), {})
  {
    hide OrderedDict.Valid, AfterGet, NoDup, Inv, Touched, LruOrder, Without;
    var l' := AfterGet(cfg, l, k, now);
    RequestIsLru(cfg, l, k, clock, now);
    InvGet(cfg, l, k, clock, now);
    InvMade(cfg, l', now);
    DictKeys(l'.store);
    DictKeys(l.store);
    NewestLast(l.store.order, k, cfg.maxSize);
    LastBehind(l'.store.order, k);
  }

  lemma InvMade<K(!new)>(cfg: Config, l: Locks<K>, clock: real)
    requires Inv(cfg, l, clock)
    ensures forall k :: k in l.store.at ==> l.store.at[k].lock < l.made
  {
  }
}
