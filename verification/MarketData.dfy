/** The TTL cache of market reads: LRU-bounded, one lock per key. */
module MarketData {
  import opened OrderedDicts

  datatype Key = Mid(pair: string) | Candles(pair: string, timeframe: string, limit: int) | Funding(pair: string)
  type Value = string

  /** When a value was stored, and the value. */
  datatype Stamped = Stamped(at: real, value: Value)

  datatype Config = Config(ttl: real, maxEntries: nat)

  type Cache = Dict<Key, Stamped>
  /** The lock object of each key; a lock is known by its allocation number. */
  datatype Locks = Locks(of: map<Key, nat>, made: nat)

  /** The hit a lookup at `now` may serve. */
  function Probe(cfg: Config, cache: Cache, k: Key, now: real): Option<Value> {
    if k in cache.at && now - cache.at[k].at < cfg.ttl then Some(cache.at[k].value) else None
  }

  function Promote(cache: Cache, k: Key): Cache { if k in cache.at then cache.MoveToEnd(k) else cache }

  function LockFor(l: Locks, k: Key): Locks {
    if k in l.of then l else Locks(l.of[k := l.made], l.made + 1)
  }

  function Store(cfg: Config, cache: Cache, k: Key, now: real, v: Value): Cache {
    Touch(cache, k, Stamped(now, v)).Trim(cfg.maxEntries)
  }

  /** The service object; each method is the code between two awaits of `_cached`. */
  class MarketDataService {
    const cfg: Config
    var cache: Cache
    var locks: Locks

    constructor (ttl: real, maxEntries: int)
      ensures cfg == Config(ttl, if maxEntries < 1 then 1 else maxEntries)
      ensures cache == Empty() && locks == Locks(map[], 0)
    {
      cfg := Config(ttl, if maxEntries < 1 then 1 else maxEntries);
      cache, locks := Empty(), Locks(map[], 0);
    }

    /** The lookup made on entry, and again once the lock is held. */
    method TryHit(k: Key, now: real) returns (hit: Option<Value>)
      modifies this`cache
      ensures hit == Probe(cfg, old(cache), k, now)
      ensures cache == if hit.Some? then Promote(old(cache), k) else old(cache)
    {
      hit := None;
      if k in cache.at && now - cache.at[k].at < cfg.ttl {
        hit := Some(cache.at[k].value);
        cache := cache.MoveToEnd(k);
      }
    }

    method GetLock(k: Key) returns (lock: nat)
      modifies this`locks
      ensures locks == LockFor(old(locks), k)
      ensures k in locks.of && lock == locks.of[k]
    {
      if k !in locks.of {
        locks := Locks(locks.of[k := locks.made], locks.made + 1);
      }
      lock := locks.of[k];
    }

    method EvictIfNeeded()
      modifies this`cache
      ensures cache == old(cache).Trim(cfg.maxEntries)
    {
      hide OrderedDict.Valid, OrderedDict.PopFirst;
      while |cache.order| > cfg.maxEntries
        invariant cache.Trim(cfg.maxEntries) == old(cache).Trim(cfg.maxEntries)
        decreases |cache.order|
      {
        cache := cache.PopFirst();
      }
    }

    method StoreFetched(k: Key, now: real, v: Value)
      modifies this`cache
      ensures cache == Store(cfg, old(cache), k, now, v)
    {
      hide OrderedDict.Valid, OrderedDict.Put, OrderedDict.MoveToEnd, OrderedDict.Trim;
      cache := cache.Put(k, Stamped(now, v));
      cache := cache.MoveToEnd(k);
      EvictIfNeeded();
    }

    method Invalidate()
      modifies this
      ensures cache == Empty() && locks == Locks(map[], old(locks).made)
    {
      cache := Empty();
      locks := Locks(map[], locks.made);
    }
  }
}

/** The single-flight protocol: any number of callers, interleaved at their awaits. */
module SingleFlight {
  import opened OrderedDicts
  import opened MarketData

  /** A completed fetch, with the caller that made it. */
  datatype Fetch = Fetch(key: Key, at: real, value: Value, caller: nat)

  /** Where a caller stands. `Done.fetch` is the index in the log of the fetch it was served. */
  datatype Caller =
    | Waiting(key: Key, lock: nat)
    | Fetching(key: Key, lock: nat, since: real)
    | Done(key: Key, value: Value, at: real, fetch: nat)
    | Raised(key: Key)

  datatype State = State(cache: Cache, locks: Locks, locked: set<nat>, callers: map<nat, Caller>,
                         clock: real, log: seq<Fetch>)

  const START := State(Empty(), Locks(map[], 0), {}, map[], 0.0, [])

  /** `Enter` is the fast path up to the lock; `Acquire` the lock, the second lookup and the start
      of the fetch; `Complete` and `Raise` what follows the awaited fetch. */
  datatype Event =
    | Enter(c: nat, key: Key)
    | Acquire(c: nat)
    | Complete(c: nat, value: Value)
    | Raise(c: nat)
    | Invalidate

  predicate Enabled(s: State, e: Event, now: real) {
    && s.clock <= now
    && match e
       case Enter(c, _) => c !in s.callers
       case Acquire(c) => c in s.callers && s.callers[c].Waiting? && s.callers[c].lock !in s.locked
       case Complete(c, _) => c in s.callers && s.callers[c].Fetching?
       case Raise(c) => c in s.callers && s.callers[c].Fetching?
       case Invalidate => true
  }

  /** The newest fetch of a key in the log. */
  function Latest(log: seq<Fetch>, k: Key): (i: nat)
    ensures i < |log| ==> log[i].key == k && forall j :: i < j < |log| ==> log[j].key != k
    ensures i >= |log| ==> i == |log| && forall j :: 0 <= j < |log| ==> log[j].key != k
  {
    if log == [] then 0
    else
      var n := |log| - 1;
      if log[n].key == k then n
      else
        var i := Latest(log[..n], k);
        if i < n then i else |log|
  }

  /** A lookup by c at `now`: Done on a hit, otherwise `miss`. */
  function Lookup(cfg: Config, s: State, c: nat, k: Key, now: real, miss: State): State {
    match Probe(cfg, s.cache, k, now)
    case Some(v) =>
      s.(cache := Promote(s.cache, k), clock := now,
         callers := s.callers[c := Done(k, v, now, Latest(s.log, k))])
    case None => miss
  }

  function Apply(cfg: Config, s: State, e: Event, now: real): State
    requires Enabled(s, e, now)
  {
    match e
    case Enter(c, k) =>
      var l := LockFor(s.locks, k);
      Lookup(cfg, s, c, k, now,
             s.(locks := l, clock := now, callers := s.callers[c := Waiting(k, l.of[k])]))
    case Acquire(c) =>
      var w := s.callers[c];
      Lookup(cfg, s, c, w.key, now,
             s.(locked := s.locked + {w.lock}, clock := now,
                callers := s.callers[c := Fetching(w.key, w.lock, now)]))
    case Complete(c, v) =>
      var f := s.callers[c];
      s.(cache := Store(cfg, s.cache, f.key, now, v), locked := s.locked - {f.lock}, clock := now,
         callers := s.callers[c := Done(f.key, v, now, |s.log|)],
         log := s.log + [Fetch(f.key, now, v, c)])
    case Raise(c) =>
      var f := s.callers[c];
      s.(locked := s.locked - {f.lock}, clock := now, callers := s.callers[c := Raised(f.key)])
    case Invalidate =>
      s.(cache := Empty(), locks := Locks(map[], s.locks.made), clock := now)
  }

  datatype Timed = Timed(event: Event, now: real)

  ghost predicate RunOf(cfg: Config, s: State, es: seq<Timed>)
    decreases |es|
  {
    es != [] ==> Enabled(s, es[0].event, es[0].now) && RunOf(cfg, Apply(cfg, s, es[0].event, es[0].now), es[1..])
  }

  ghost function Run(cfg: Config, s: State, es: seq<Timed>): State
    requires RunOf(cfg, s, es)
    decreases |es|
  {
    if es == [] then s else Run(cfg, Apply(cfg, s, es[0].event, es[0].now), es[1..])
  }

  // ----- what every run keeps ----------------------------------------------

  ghost predicate Inside(s: State, c: nat) { c in s.callers && (s.callers[c].Waiting? || s.callers[c].Fetching?) }

  ghost predicate FetchingOn(s: State, c: nat, lock: nat) {
    c in s.callers && s.callers[c].Fetching? && s.callers[c].lock == lock
  }

  ghost predicate FetchingKey(s: State, c: nat, k: Key) {
    c in s.callers && s.callers[c].Fetching? && s.callers[c].key == k
  }

  /** A lock is held by exactly one fetching caller. */
  ghost predicate LocksHeld(s: State) {
    && (forall l :: l in s.locked ==> exists c :: FetchingOn(s, c, l))
    && (forall c, l :: FetchingOn(s, c, l) ==> l in s.locked)
    && (forall c, d, l :: FetchingOn(s, c, l) && FetchingOn(s, d, l) ==> c == d)
  }

  ghost predicate LocksDistinct(s: State) {
    && (forall k :: k in s.locks.of ==> s.locks.of[k] < s.locks.made)
    && (forall k, m :: k in s.locks.of && m in s.locks.of && s.locks.of[k] == s.locks.of[m] ==> k == m)
    && (forall c :: Inside(s, c) ==> s.callers[c].lock < s.locks.made)
  }

  /** Callers inside a key hold or wait for the key's current lock. */
  ghost predicate LocksCurrent(s: State) {
    forall c :: Inside(s, c) ==> s.callers[c].key in s.locks.of && s.locks.of[s.callers[c].key] == s.callers[c].lock
  }

  ghost predicate FlightInv(s: State) { LocksHeld(s) && KeyLocks(s) }

  /** At most one fetch per key is in flight. */
  ghost predicate SingleFlight(s: State) {
    forall c, d, k :: FetchingKey(s, c, k) && FetchingKey(s, d, k) ==> c == d
  }

  /** Invalidation is used only when nobody is inside. */
  ghost predicate Quiet(s: State, e: Event) { e.Invalidate? ==> forall c :: !Inside(s, c) }

  ghost predicate QuietRun(cfg: Config, s: State, es: seq<Timed>)
    requires RunOf(cfg, s, es)
    decreases |es|
  {
    es != [] ==> Quiet(s, es[0].event) && QuietRun(cfg, Apply(cfg, s, es[0].event, es[0].now), es[1..])
  }

  lemma HeldStep(cfg: Config, s: State, e: Event, now: real)
    requires LocksHeld(s) && Enabled(s, e, now)
    ensures LocksHeld(Apply(cfg, s, e, now))
  {
    hide OrderedDict.Valid, Store, Promote, Latest, LockFor;
    var s' := Apply(cfg, s, e, now);
    forall l | l in s'.locked
      ensures exists c :: FetchingOn(s', c, l)
    {
      if l in s.locked {
        var c :| FetchingOn(s, c, l);
        assert FetchingOn(s', c, l);
      } else {
        assert FetchingOn(s', e.c, l);
      }
    }
    forall c, l | FetchingOn(s', c, l)
      ensures l in s'.locked
    {
      assert FetchingOn(s, c, l) || (e.Acquire? && c == e.c);
      if e.Complete? || e.Raise? { assert FetchingOn(s, e.c, s.callers[e.c].lock); }
    }
    forall c, d, l | FetchingOn(s', c, l) && FetchingOn(s', d, l)
      ensures c == d
    {
      assert FetchingOn(s, c, l) || (e.Acquire? && c == e.c);
      assert FetchingOn(s, d, l) || (e.Acquire? && d == e.c);
    }
  }

  ghost predicate KeyLocks(s: State) { LocksDistinct(s) && LocksCurrent(s) }

  /** Leaving callers and unchanged locks keep the lock table right. */
  lemma KeyLocksLeave(s: State, s': State)
    requires KeyLocks(s) && s'.locks == s.locks
    requires forall c :: Inside(s', c) ==>
      Inside(s, c) && s'.callers[c].lock == s.callers[c].lock && s'.callers[c].key == s.callers[c].key
    ensures KeyLocks(s')
  {
  }

  lemma KeyLocksEnter(s: State, s': State, c: nat, k: Key)
    requires KeyLocks(s) && c !in s.callers && s'.locks == LockFor(s.locks, k)
    requires s'.callers == s.callers[c := Waiting(k, s'.locks.of[k])]
    ensures KeyLocks(s')
  {
    forall d | Inside(s', d) ensures d == c || Inside(s, d) {}
  }

  lemma KeyLocksStep(cfg: Config, s: State, e: Event, now: real)
    requires KeyLocks(s) && Enabled(s, e, now) && Quiet(s, e)
    ensures KeyLocks(Apply(cfg, s, e, now))
  {
    hide OrderedDict.Valid, Store, Promote, Latest, LockFor, KeyLocks, Probe;
    var s' := Apply(cfg, s, e, now);
    match e
    case Enter(c, k) =>
      if Probe(cfg, s.cache, k, now).None? { KeyLocksEnter(s, s', c, k); } else { KeyLocksLeave(s, s'); }
    case Acquire(c) => assert Inside(s, c); KeyLocksLeave(s, s');
    case Complete(c, v) => KeyLocksLeave(s, s');
    case Raise(c) => KeyLocksLeave(s, s');
    case Invalidate => KeyLocksCleared(s, s');
  }

  lemma KeyLocksCleared(s: State, s': State)
    requires s'.locks.of == map[] && s'.callers == s.callers && forall c :: !Inside(s, c)
    ensures KeyLocks(s')
  {
    assert forall c :: Inside(s', c) ==> Inside(s, c);
  }

  lemma FlightStep(cfg: Config, s: State, e: Event, now: real)
    requires FlightInv(s) && Enabled(s, e, now) && Quiet(s, e)
    ensures FlightInv(Apply(cfg, s, e, now))
  {
    HeldStep(cfg, s, e, now);
    KeyLocksStep(cfg, s, e, now);
  }

  /** In every run whose invalidations are quiet, at most one fetch per key is in flight. */
  lemma {:induction false} AtMostOneFetchPerKey(cfg: Config, s: State, es: seq<Timed>)
    requires FlightInv(s) && RunOf(cfg, s, es) && QuietRun(cfg, s, es)
    ensures FlightInv(Run(cfg, s, es)) && SingleFlight(Run(cfg, s, es))
    decreases |es|
  {
    hide Apply, LocksHeld, KeyLocks;
    if es == [] {
      FlightIsSingle(s);
    } else {
      FlightStep(cfg, s, es[0].event, es[0].now);
      AtMostOneFetchPerKey(cfg, Apply(cfg, s, es[0].event, es[0].now), es[1..]);
    }
  }

  lemma FlightIsSingle(s: State)
    requires FlightInv(s)
    ensures SingleFlight(s)
  {
    forall c, d, k | FetchingKey(s, c, k) && FetchingKey(s, d, k)
      ensures c == d
    {
      assert Inside(s, c) && Inside(s, d);
      assert FetchingOn(s, c, s.locks.of[k]) && FetchingOn(s, d, s.locks.of[k]);
    }
  }

  /** Without any discipline, two fetches never share one lock object. */
  lemma {:induction false} OneFetchPerLock(cfg: Config, s: State, es: seq<Timed>)
    requires LocksHeld(s) && RunOf(cfg, s, es)
    ensures LocksHeld(Run(cfg, s, es))
    decreases |es|
  {
    hide Apply, LocksHeld;
    if es != [] {
      HeldStep(cfg, s, es[0].event, es[0].now);
      OneFetchPerLock(cfg, Apply(cfg, s, es[0].event, es[0].now), es[1..]);
    }
  }

  // ----- what callers are served -------------------------------------------

  /** Every cache entry is the newest fetch of its key. */
  ghost predicate CacheIsNewest(s: State) {
    forall k :: k in s.cache.at ==>
      && Latest(s.log, k) < |s.log|
      && s.log[Latest(s.log, k)].at == s.cache.at[k].at
      && s.log[Latest(s.log, k)].value == s.cache.at[k].value
  }

  /** A served caller got its own fetch or one stored less than ttl before; no fetch of the key
      completed between that one and the moment it was served. */
  ghost predicate ServedWell(cfg: Config, s: State, c: nat) {
    c in s.callers && s.callers[c].Done? ==>
      var d := s.callers[c];
      && d.fetch < |s.log|
      && s.log[d.fetch].key == d.key && s.log[d.fetch].value == d.value
      && (s.log[d.fetch].caller == c || d.at - s.log[d.fetch].at < cfg.ttl)
      && (forall j :: d.fetch < j < |s.log| && s.log[j].key == d.key ==> s.log[j].at >= d.at)
      && d.at <= s.clock
  }

  ghost predicate ServeInv(cfg: Config, s: State) {
    CacheIsNewest(s) && forall c :: ServedWell(cfg, s, c)
  }

  lemma LatestAppend(log: seq<Fetch>, f: Fetch, k: Key)
    ensures Latest(log + [f], k)
            == if k == f.key then |log| else if Latest(log, k) < |log| then Latest(log, k) else |log| + 1
  {
    assert (log + [f])[..|log|] == log;
  }

  lemma StoreKeeps(cfg: Config, cache: Cache, k: Key, now: real, v: Value)
    ensures forall m :: m in Store(cfg, cache, k, now, v).at ==>
              && m in cache.at[k := Stamped(now, v)]
              && Store(cfg, cache, k, now, v).at[m] == cache.at[k := Stamped(now, v)][m]
  {
    TrimKeeps(Touch(cache, k, Stamped(now, v)), cfg.maxEntries);
  }

  lemma CompleteServes(cfg: Config, s: State, c: nat, v: Value, now: real)
    requires ServeInv(cfg, s) && Enabled(s, Complete(c, v), now)
    ensures ServeInv(cfg, Apply(cfg, s, Complete(c, v), now))
  {
    hide OrderedDict.Valid, Store, Latest;
    var s' := Apply(cfg, s, Complete(c, v), now);
    var k := s.callers[c].key;
    StoreKeeps(cfg, s.cache, k, now, v);
    forall m | m in s'.cache.at
      ensures && Latest(s'.log, m) < |s'.log|
              && s'.log[Latest(s'.log, m)].at == s'.cache.at[m].at
              && s'.log[Latest(s'.log, m)].value == s'.cache.at[m].value
    {
      LatestAppend(s.log, Fetch(k, now, v, c), m);
    }
    forall d ensures ServedWell(cfg, s', d) {
      if d != c { assert ServedWell(cfg, s, d); }
    }
  }

  lemma LookupServes(cfg: Config, s: State, c: nat, k: Key, now: real, miss: State)
    requires ServeInv(cfg, s) && ServeInv(cfg, miss) && s.clock <= now
    ensures ServeInv(cfg, Lookup(cfg, s, c, k, now, miss))
  {
    hide OrderedDict.Valid;
    var s' := Lookup(cfg, s, c, k, now, miss);
    if Probe(cfg, s.cache, k, now).Some? {
      forall d ensures ServedWell(cfg, s', d) {
        if d != c { assert ServedWell(cfg, s, d); }
      }
    }
  }

  lemma ServeStep(cfg: Config, s: State, e: Event, now: real)
    requires ServeInv(cfg, s) && Enabled(s, e, now)
    ensures ServeInv(cfg, Apply(cfg, s, e, now))
  {
    hide OrderedDict.Valid, Store, Latest, Lookup;
    match e
    case Enter(c, k) =>
      var l := LockFor(s.locks, k);
      Waits(cfg, s, s.(locks := l, clock := now, callers := s.callers[c := Waiting(k, l.of[k])]), c);
      LookupServes(cfg, s, c, k, now,
                   s.(locks := l, clock := now, callers := s.callers[c := Waiting(k, l.of[k])]));
    case Acquire(c) =>
      var w := s.callers[c];
      var miss := s.(locked := s.locked + {w.lock}, clock := now,
                     callers := s.callers[c := Fetching(w.key, w.lock, now)]);
      Waits(cfg, s, miss, c);
      LookupServes(cfg, s, c, w.key, now, miss);
    case Complete(c, v) => CompleteServes(cfg, s, c, v, now);
    case Raise(c) => Waits(cfg, s, Apply(cfg, s, e, now), c);
    case Invalidate =>
      forall d ensures ServedWell(cfg, Apply(cfg, s, e, now), d) { assert ServedWell(cfg, s, d); }
  }

  /** A step that serves nobody and fetches nothing keeps what was served. */
  lemma Waits(cfg: Config, s: State, s': State, c: nat)
    requires ServeInv(cfg, s) && s'.cache == s.cache && s'.log == s.log && s.clock <= s'.clock
    requires c in s'.callers && s'.callers == s.callers[c := s'.callers[c]] && !s'.callers[c].Done?
    ensures ServeInv(cfg, s')
  {
    hide OrderedDict.Valid, Latest;
    forall d ensures ServedWell(cfg, s', d) {
      if d != c { assert ServedWell(cfg, s, d); }
    }
  }

  /** In every run, invalidations included, every caller is served well. */
  lemma {:induction false} CallersServedWell(cfg: Config, s: State, es: seq<Timed>)
    requires ServeInv(cfg, s) && RunOf(cfg, s, es)
    ensures ServeInv(cfg, Run(cfg, s, es))
    decreases |es|
  {
    hide Apply, ServedWell, CacheIsNewest;
    if es != [] {
      ServeStep(cfg, s, es[0].event, es[0].now);
      CallersServedWell(cfg, Apply(cfg, s, es[0].event, es[0].now), es[1..]);
    }
  }

  // ----- how often the venue is asked --------------------------------------

  /** Any two fetches of one key completed at least ttl apart. */
  ghost predicate TtlApart(cfg: Config, log: seq<Fetch>) {
    forall i, j :: 0 <= i < j < |log| && log[i].key == log[j].key ==> log[i].at + cfg.ttl <= log[j].at
  }

  /** With at most maxEntries keys in use: nothing is evicted, and fetches of a key are ttl apart. */
  ghost predicate Spaced(cfg: Config, s: State, keys: set<Key>) {
    && s.cache.at.Keys <= keys
    && (forall c :: Inside(s, c) ==> s.callers[c].key in keys)
    && (forall i :: 0 <= i < |s.log| ==>
          s.log[i].at <= s.clock && s.log[i].key in s.cache.at && s.log[i].at <= s.cache.at[s.log[i].key].at)
    && (forall c, i :: 0 <= i < |s.log| && FetchingKey(s, c, s.log[i].key) ==>
          s.log[i].at + cfg.ttl <= s.callers[c].since)
    && (forall c :: c in s.callers && s.callers[c].Fetching? ==> s.callers[c].since <= s.clock)
    && TtlApart(cfg, s.log)
  }

  /** Callers use the given keys and nobody invalidates. */
  ghost predicate Within(e: Event, keys: set<Key>) { !e.Invalidate? && (e.Enter? ==> e.key in keys) }

  ghost predicate AllWithin(es: seq<Timed>, keys: set<Key>) {
    forall i :: 0 <= i < |es| ==> Within(es[i].event, keys)
  }

  lemma StoreInRoom(cfg: Config, cache: Cache, k: Key, now: real, v: Value, keys: set<Key>)
    requires cache.at.Keys <= keys && k in keys && |keys| <= cfg.maxEntries
    ensures Store(cfg, cache, k, now, v).at == cache.at[k := Stamped(now, v)]
  {
    var t := Touch(cache, k, Stamped(now, v));
    assert t.at.Keys <= keys;
    SubsetCard(t.at.Keys, keys);
  }

  lemma CompleteSpaced(cfg: Config, s: State, c: nat, v: Value, now: real, keys: set<Key>)
    requires FlightInv(s) && Spaced(cfg, s, keys) && |keys| <= cfg.maxEntries
    requires Enabled(s, Complete(c, v), now)
    ensures Spaced(cfg, Apply(cfg, s, Complete(c, v), now), keys)
  {
    hide OrderedDict.Valid, Store, Latest, FlightInv;
    var s' := Apply(cfg, s, Complete(c, v), now);
    var k := s.callers[c].key;
    assert Inside(s, c) && FetchingKey(s, c, k);
    StoreInRoom(cfg, s.cache, k, now, v, keys);
    FlightIsSingle(s);
    forall d | Inside(s', d) ensures s'.callers[d].key in keys { assert Inside(s, d); }
    forall d, i | 0 <= i < |s'.log| && FetchingKey(s', d, s'.log[i].key)
      ensures s'.log[i].at + cfg.ttl <= s'.callers[d].since
    {
      assert FetchingKey(s, d, s'.log[i].key);
    }
  }

  lemma SpacedStep(cfg: Config, s: State, e: Event, now: real, keys: set<Key>)
    requires FlightInv(s) && Spaced(cfg, s, keys) && |keys| <= cfg.maxEntries
    requires Enabled(s, e, now) && Within(e, keys)
    ensures Spaced(cfg, Apply(cfg, s, e, now), keys)
  {
    hide OrderedDict.Valid, Store, Latest, FlightInv, LockFor, TtlApart;
    if e.Complete? {
      CompleteSpaced(cfg, s, e.c, e.value, now, keys);
    } else {
      var s' := Apply(cfg, s, e, now);
      forall d | Inside(s', d) ensures s'.callers[d].key in keys {
        assert Inside(s, d) || e.Enter?;
      }
      forall d, i | 0 <= i < |s'.log| && FetchingKey(s', d, s'.log[i].key)
        ensures s'.log[i].at + cfg.ttl <= s'.callers[d].since
      {
        assert FetchingKey(s, d, s'.log[i].key) || (e.Acquire? && d == e.c);
      }
    }
  }

  /** In a run without invalidation over at most maxEntries keys, any two successful fetches of one
      key complete at least ttl apart. */
  lemma {:induction false} FetchesSpaced(cfg: Config, s: State, es: seq<Timed>, keys: set<Key>)
    requires FlightInv(s) && Spaced(cfg, s, keys) && |keys| <= cfg.maxEntries
    requires RunOf(cfg, s, es) && AllWithin(es, keys)
    ensures TtlApart(cfg, Run(cfg, s, es).log)
    decreases |es|
  {
    hide Apply, LocksHeld, KeyLocks, OrderedDict.Valid;
    if es != [] {
      assert Within(es[0].event, keys);
      FlightStep(cfg, s, es[0].event, es[0].now);
      SpacedStep(cfg, s, es[0].event, es[0].now, keys);
      FetchesSpaced(cfg, Apply(cfg, s, es[0].event, es[0].now), es[1..], keys);
    }
  }

  lemma StartKeepsAll(cfg: Config, keys: set<Key>)
    ensures FlightInv(START) && ServeInv(cfg, START) && Spaced(cfg, START, keys)
  {
  }

  // ----- what the bound evicts ---------------------------------------------

  /** What callers do to the cache: serve a hit, or store a fetch. */
  datatype Use = Served(key: Key) | Stored(key: Key, at: real, value: Value)

  function UseCache(cfg: Config, cache: Cache, u: Use): Cache {
    match u
    case Served(k) => Promote(cache, k)
    case Stored(k, now, v) => Store(cfg, cache, k, now, v)
  }

  function UseAll(cfg: Config, cache: Cache, us: seq<Use>): Cache
    decreases |us|
  {
    if us == [] then cache else UseAll(cfg, UseCache(cfg, cache, us[0]), us[1..])
  }

  /** The entry of k after some uses: the latest one stored. */
  function LatestStored(e: Stamped, us: seq<Use>, k: Key): Stamped
    decreases |us|
  {
    if us == [] then e
    else LatestStored(if us[0].Stored? && us[0].key == k then Stamped(us[0].at, us[0].value) else e, us[1..], k)
  }

  lemma UseKeeps(cfg: Config, cache: Cache, u: Use, k: Key, busy: set<Key>)
    requires k in cache.at && AfterOnly(cache.order, k, busy) && |busy| < cfg.maxEntries
    requires u.key in busy + {k}
    ensures var c := UseCache(cfg, cache, u);
            k in c.at && AfterOnly(c.order, k, busy) && c.at[k] == LatestStored(cache.at[k], [u], k)
  {
    hide OrderedDict.Valid, AfterOnly, OrderedDict.Trim, OrderedDict.Put, Touched;
    DictKeys(cache);
    assert [u][1..] == [];
    AfterOnlyTouched(cache.order, u.key, k, busy);
    match u {
      case Served(m) => if m in cache.at { MovedOrder(cache, m); }
      case Stored(m, now, v) =>
        TouchOrder(cache, m, Stamped(now, v));
        WorkingSetSurvives(Touch(cache, m, Stamped(now, v)), k, busy, cfg.maxEntries);
    }
  }

  lemma MovedOrder(cache: Cache, m: Key)
    requires m in cache.at
    ensures cache.MoveToEnd(m).order == Touched(cache.order, m)
  {
    DictKeys(cache);
  }

  /** Least recently used first: an entry survives, with its latest value, as long as fewer than
      maxEntries other keys were served or stored since it was. */
  lemma {:induction false} RecentlyUsedStays(cfg: Config, cache: Cache, us: seq<Use>, k: Key, busy: set<Key>)
    requires k in cache.at && AfterOnly(cache.order, k, busy) && |busy| < cfg.maxEntries
    requires forall i :: 0 <= i < |us| ==> us[i].key in busy + {k}
    ensures var c := UseAll(cfg, cache, us);
            k in c.at && AfterOnly(c.order, k, busy) && c.at[k] == LatestStored(cache.at[k], us, k)
    decreases |us|
  {
    hide OrderedDict.Valid, AfterOnly, UseCache;
    if us != [] {
      UseKeeps(cfg, cache, us[0], k, busy);
      assert [us[0]][1..] == [];
      RecentlyUsedStays(cfg, UseCache(cfg, cache, us[0]), us[1..], k, busy);
    }
  }

  // What a run of callers does to the cache is a sequence of uses.

  function UseOf(cfg: Config, s: State, e: Event, now: real): seq<Use>
    requires Enabled(s, e, now)
  {
    match e
    case Enter(_, k) => if Probe(cfg, s.cache, k, now).Some? then [Served(k)] else []
    case Acquire(c) => if Probe(cfg, s.cache, s.callers[c].key, now).Some? then [Served(s.callers[c].key)] else []
    case Complete(c, v) => [Stored(s.callers[c].key, now, v)]
    case _ => []
  }

  ghost function Uses(cfg: Config, s: State, es: seq<Timed>): seq<Use>
    requires RunOf(cfg, s, es)
    decreases |es|
  {
    if es == [] then []
    else UseOf(cfg, s, es[0].event, es[0].now) + Uses(cfg, Apply(cfg, s, es[0].event, es[0].now), es[1..])
  }

  /** Only keys that are there are served. */
  predicate Hits(cfg: Config, cache: Cache, us: seq<Use>)
    decreases |us|
  {
    us != [] ==> (us[0].Served? ==> us[0].key in cache.at) && Hits(cfg, UseCache(cfg, cache, us[0]), us[1..])
  }

  lemma UseOfStep(cfg: Config, s: State, e: Event, now: real)
    requires Enabled(s, e, now) && !e.Invalidate?
    ensures var us := UseOf(cfg, s, e, now);
            && |us| <= 1
            && (us == [] ==> Apply(cfg, s, e, now).cache == s.cache)
            && (us != [] ==> Apply(cfg, s, e, now).cache == UseCache(cfg, s.cache, us[0])
                             && (us[0].Served? ==> us[0].key in s.cache.at))
  {
    hide OrderedDict.Valid, Promote, Store;
  }

  ghost predicate Undisturbed(es: seq<Timed>) { forall i :: 0 <= i < |es| ==> !es[i].event.Invalidate? }

  lemma {:induction false} RunUses(cfg: Config, s: State, es: seq<Timed>)
    requires RunOf(cfg, s, es) && Undisturbed(es)
    ensures Run(cfg, s, es).cache == UseAll(cfg, s.cache, Uses(cfg, s, es)) && Hits(cfg, s.cache, Uses(cfg, s, es))
    decreases |es|
  {
    hide Apply, UseOf, UseCache, Enabled, OrderedDict.Valid;
    if es != [] {
      UseOfStep(cfg, s, es[0].event, es[0].now);
      var next := Apply(cfg, s, es[0].event, es[0].now);
      RunUses(cfg, next, es[1..]);
      var us, rest := UseOf(cfg, s, es[0].event, es[0].now), Uses(cfg, next, es[1..]);
      if us == [] {
        assert us + rest == rest;
      } else {
        assert (us + rest)[0] == us[0] && (us + rest)[1..] == rest;
      }
    }
  }

  ghost function UsedKeys(us: seq<Use>): set<Key> { set i | 0 <= i < |us| :: us[i].key }

  lemma UseBehind(cfg: Config, cache: Cache, u: Use, k: Key, behind: set<Key>)
    requires u.key != k && (u.Served? ==> u.key in cache.at) && |cache.order| <= cfg.maxEntries
    requires Behind(cache.order, k, behind)
    ensures var c := UseCache(cfg, cache, u);
            && |c.order| <= cfg.maxEntries && (k in c.at <==> |behind + {u.key}| < cfg.maxEntries)
            && (k in c.at ==> k in cache.at && c.at[k] == cache.at[k] && Behind(c.order, k, behind + {u.key}))
  {
    hide OrderedDict.Valid, Behind, OrderedDict.Trim, Touched, NoDup;
    var c, m := UseCache(cfg, cache, u), u.key;
    DictKeys(cache);
    DictKeys(c);
    BehindIn(cache.order, k, behind);
    BehindLru(cache.order, m, k, behind, cfg.maxEntries);
    TouchedLength(cache.order, m);
    match u {
      case Served(_) => MovedOrder(cache, m);
      case Stored(_, now, v) =>
        TouchOrder(cache, m, Stamped(now, v));
        TrimKeeps(Touch(cache, m, Stamped(now, v)), cfg.maxEntries);
    }
  }

  /** Right after its use nothing is behind a key. */
  lemma UsedIsNewest(cfg: Config, cache: Cache, u: Use)
    requires (u.Served? ==> u.key in cache.at) && |cache.order| <= cfg.maxEntries && cfg.maxEntries > 0
    ensures Behind(UseCache(cfg, cache, u).order, u.key, {}) && |UseCache(cfg, cache, u).order| <= cfg.maxEntries
  {
    hide OrderedDict.Valid, Behind, NoDup, Touched, OrderedDict.Trim;
    DictKeys(cache);
    DictKeys(UseCache(cfg, cache, u));
    TouchedLength(cache.order, u.key);
    NewestLast(cache.order, u.key, cfg.maxEntries);
    LastBehind(UseCache(cfg, cache, u).order, u.key) by {
      if u.Served? { MovedOrder(cache, u.key); } else { TouchOrder(cache, u.key, Stamped(u.at, u.value)); }
    }
  }

  lemma GoneUntilStored(cfg: Config, cache: Cache, u: Use, k: Key)
    requires u.key != k && k !in cache.at
    ensures k !in UseCache(cfg, cache, u).at
  {
    hide OrderedDict.Valid, OrderedDict.Trim;
  }

  lemma {:induction false} GoneForUses(cfg: Config, cache: Cache, us: seq<Use>, k: Key)
    requires k !in cache.at && k !in UsedKeys(us)
    ensures k !in UseAll(cfg, cache, us).at
    decreases |us|
  {
    hide OrderedDict.Valid, UseCache;
    if us != [] {
      assert us[0].key in UsedKeys(us) && UsedKeys(us[1..]) <= UsedKeys(us);
      GoneUntilStored(cfg, cache, us[0], k);
      GoneForUses(cfg, UseCache(cfg, cache, us[0]), us[1..], k);
    }
  }

  lemma {:induction false} UsesEvictIff(cfg: Config, cache: Cache, us: seq<Use>, k: Key, behind: set<Key>)
    requires |cache.order| <= cfg.maxEntries && Behind(cache.order, k, behind)
    requires Hits(cfg, cache, us) && k !in UsedKeys(us)
    ensures k in cache.at
    ensures var c := UseAll(cfg, cache, us);
            && (k in c.at <==> |behind + UsedKeys(us)| < cfg.maxEntries)
            && (k in c.at ==> c.at[k] == cache.at[k])
    decreases |us|
  {
    hide OrderedDict.Valid, UseCache, Behind;
    DictKeys(cache);
    BehindIn(cache.order, k, behind);
    if us == [] {
      hide NoDup;
      BehindTail(cache.order, k, behind);
      assert behind + UsedKeys(us) == behind;
    } else {
      var next, m := UseCache(cfg, cache, us[0]), us[0].key;
      assert UsedKeys(us) == {m} + UsedKeys(us[1..]) by { UsedKeysFirst(us); }
      assert behind + UsedKeys(us) == behind + {m} + UsedKeys(us[1..]);
      UseBehind(cfg, cache, us[0], k, behind);
      if k in next.at {
        UsesEvictIff(cfg, next, us[1..], k, behind + {m});
      } else {
        GoneForUses(cfg, next, us[1..], k);
        SubsetCard(behind + {m}, behind + UsedKeys(us));
      }
    }
  }

  lemma UsedKeysFirst(us: seq<Use>)
    requires us != []
    ensures UsedKeys(us) == {us[0].key} + UsedKeys(us[1..])
  {
    forall x | x in UsedKeys(us) ensures x in {us[0].key} + UsedKeys(us[1..]) {
      var i :| 0 <= i < |us| && us[i].key == x;
      if i > 0 { assert us[1..][i - 1].key == x; }
    }
    forall x | x in UsedKeys(us[1..]) ensures x in UsedKeys(us) {
      var i :| 0 <= i < |us[1..]| && us[1..][i].key == x;
      assert us[i + 1].key == x;
    }
  }

  /** Least recently used first, over any interleaving of callers: an entry nobody uses any more stays
      exactly as long as fewer than maxEntries other keys have been served or stored since it was. */
  lemma EvictedIff(cfg: Config, s: State, es: seq<Timed>, k: Key, behind: set<Key>)
    requires RunOf(cfg, s, es) && Undisturbed(es)
    requires |s.cache.order| <= cfg.maxEntries && Behind(s.cache.order, k, behind)
    requires k !in UsedKeys(Uses(cfg, s, es))
    ensures k in s.cache.at
    ensures var c := Run(cfg, s, es).cache;
            && (k in c.at <==> |behind + UsedKeys(Uses(cfg, s, es))| < cfg.maxEntries)
            && (k in c.at ==> c.at[k] == s.cache.at[k])
  {
    hide *;
    RunUses(cfg, s, es);
    UsesEvictIff(cfg, s.cache, Uses(cfg, s, es), k, behind);
  }

  /** An entry that is itself used now and then survives every interleaving, with its latest fetch,
      while fewer than maxEntries other keys are in use. */
  lemma RecentlyUsedStaysInRuns(cfg: Config, s: State, es: seq<Timed>, k: Key, busy: set<Key>)
    requires RunOf(cfg, s, es) && Undisturbed(es)
    requires k in s.cache.at && AfterOnly(s.cache.order, k, busy) && |busy| < cfg.maxEntries
    requires UsedKeys(Uses(cfg, s, es)) <= busy + {k}
    ensures k in Run(cfg, s, es).cache.at
    ensures Run(cfg, s, es).cache.at[k] == LatestStored(s.cache.at[k], Uses(cfg, s, es), k)
  {
    hide RunOf, Run, Uses, UseAll, LatestStored, Undisturbed, Hits, AfterOnly, OrderedDict.Valid;
    RunUses(cfg, s, es);
    var us := Uses(cfg, s, es);
    forall i | 0 <= i < |us| ensures us[i].key in busy + {k} { assert us[i].key in UsedKeys(us); }
    RecentlyUsedStays(cfg, s.cache, us, k, busy);
  }

  // ----- why invalidation must be quiet ------------------------------------

  ghost predicate TwoFlights(s: State) {
    exists c, d, k :: c != d && FetchingKey(s, c, k) && FetchingKey(s, d, k)
  }

  lemma HeldLocksAreOld(s: State)
    requires LocksHeld(s) && LocksDistinct(s)
    ensures forall l :: l in s.locked ==> l < s.locks.made
  {
    forall l | l in s.locked ensures l < s.locks.made {
      var h :| FetchingOn(s, h, l);
      assert Inside(s, h);
    }
  }

  /** Invalidating while someone is fetching lets a newcomer fetch the same key beside it. */
  lemma BusyInvalidateSplitsFlight(cfg: Config, s: State, c: nat, d: nat, k: Key, now: real)
    requires LocksHeld(s) && LocksDistinct(s) && s.clock <= now
    requires FetchingKey(s, c, k) && d !in s.callers
    ensures var es := [Timed(Invalidate, now), Timed(Enter(d, k), now), Timed(Acquire(d), now)];
            RunOf(cfg, s, es) && TwoFlights(Run(cfg, s, es))
  {
    hide OrderedDict.Valid;
    var es := [Timed(Invalidate, now), Timed(Enter(d, k), now), Timed(Acquire(d), now)];
    var s1 := Apply(cfg, s, Invalidate, now);
    var s2 := Apply(cfg, s1, Enter(d, k), now);
    assert s2.callers[d] == Waiting(k, s.locks.made);
    HeldLocksAreOld(s);
    var s3 := Apply(cfg, s2, Acquire(d), now);
    assert FetchingKey(s3, c, k) && FetchingKey(s3, d, k);
    var e1, e2 := es[1..], es[1..][1..];
    assert e2 == [Timed(Acquire(d), now)] && e1 == [Timed(Enter(d, k), now)] + e2 && e2[1..] == [];
    assert RunOf(cfg, s2, e2) && Run(cfg, s2, e2) == s3;
    assert RunOf(cfg, s1, e1) && Run(cfg, s1, e1) == s3;
  }

  /** So does invalidating while a caller only waits for a lock that has come free, as after a fetch
      that raised: the newcomer gets a new lock and the waiter still takes the old one. */
  lemma WaitingInvalidateSplitsFlight(cfg: Config, s: State, c: nat, d: nat, k: Key, now: real)
    requires KeyLocks(s) && s.clock <= now && d !in s.callers
    requires LocksHeld(s)
    requires c in s.callers && s.callers[c].Waiting? && s.callers[c].key == k && s.callers[c].lock !in s.locked
    ensures var es := [Timed(Invalidate, now), Timed(Enter(d, k), now), Timed(Acquire(d), now), Timed(Acquire(c), now)];
            RunOf(cfg, s, es) && TwoFlights(Run(cfg, s, es))
  {
    hide OrderedDict.Valid;
    var es := [Timed(Invalidate, now), Timed(Enter(d, k), now), Timed(Acquire(d), now), Timed(Acquire(c), now)];
    assert Inside(s, c);
    HeldLocksAreOld(s);
    var s1 := Apply(cfg, s, Invalidate, now);
    var s2 := Apply(cfg, s1, Enter(d, k), now);
    assert s2.callers[d] == Waiting(k, s.locks.made);
    var s3 := Apply(cfg, s2, Acquire(d), now);
    var s4 := Apply(cfg, s3, Acquire(c), now);
    assert FetchingKey(s4, c, k) && FetchingKey(s4, d, k);
    var e1, e2, e3 := es[1..], es[1..][1..], es[1..][1..][1..];
    assert e3 == [Timed(Acquire(c), now)] && e2 == [Timed(Acquire(d), now)] + e3
        && e1 == [Timed(Enter(d, k), now)] + e2 && e3[1..] == [];
    assert RunOf(cfg, s3, e3) && Run(cfg, s3, e3) == s4;
    assert RunOf(cfg, s2, e2) && Run(cfg, s2, e2) == s4;
    assert RunOf(cfg, s1, e1) && Run(cfg, s1, e1) == s4;
  }

  /** Whatever callers do from s on, with quiet invalidations, at most one fetch per key is in flight. */
  ghost predicate SingleFlightForEver(cfg: Config, s: State) {
    forall es: seq<Timed> :: RunOf(cfg, s, es) && QuietRun(cfg, s, es) ==> SingleFlight(Run(cfg, s, es))
  }

  lemma NewCaller(s: State) returns (d: nat)
    ensures d !in s.callers
  {
    var ids: set<nat> := s.callers.Keys;
    d := 0;
    while ids != {}
      invariant forall c :: c in s.callers && c !in ids ==> c < d
      decreases |ids|
    {
      var c: nat :| c in ids;
      d := if c < d then d else c + 1;
      ids := ids - {c};
    }
  }

  /** What a split after the invalidation refutes. */
  lemma SplitIsLasting(cfg: Config, s: State, now: real, es: seq<Timed>)
    requires Enabled(s, Invalidate, now) && es != [] && es[0] == Timed(Invalidate, now)
    requires RunOf(cfg, s, es) && TwoFlights(Run(cfg, s, es))
    requires forall i :: 0 < i < |es| ==> !es[i].event.Invalidate?
    ensures !SingleFlightForEver(cfg, Apply(cfg, s, Invalidate, now))
  {
    hide Apply;
    var s1 := Apply(cfg, s, Invalidate, now);
    assert forall i :: 0 <= i < |es[1..]| ==> es[1..][i] == es[i + 1];
    NoInvalidateIsQuiet(cfg, s1, es[1..]);
    assert !SingleFlight(Run(cfg, s1, es[1..]));
  }

  lemma {:induction false} NoInvalidateIsQuiet(cfg: Config, s: State, es: seq<Timed>)
    requires RunOf(cfg, s, es) && forall i :: 0 <= i < |es| ==> !es[i].event.Invalidate?
    ensures QuietRun(cfg, s, es)
    decreases |es|
  {
    hide Apply;
    if es != [] { NoInvalidateIsQuiet(cfg, Apply(cfg, s, es[0].event, es[0].now), es[1..]); }
  }

  lemma SomeoneSplits(cfg: Config, s: State, now: real, c: nat)
    requires FlightInv(s) && s.clock <= now && Inside(s, c)
    ensures !SingleFlightForEver(cfg, Apply(cfg, s, Invalidate, now))
  {
    hide Apply, SingleFlightForEver, RunOf, Run;
    var d := NewCaller(s);
    var k, l := s.callers[c].key, s.callers[c].lock;
    if s.callers[c].Waiting? && l !in s.locked {
      WaitingInvalidateSplitsFlight(cfg, s, c, d, k, now);
      SplitIsLasting(cfg, s, now, [Timed(Invalidate, now), Timed(Enter(d, k), now), Timed(Acquire(d), now),
                                   Timed(Acquire(c), now)]);
    } else {
      var f := c;
      if s.callers[c].Waiting? {
        f :| FetchingOn(s, f, l);
        assert Inside(s, f);
      }
      assert FetchingKey(s, f, s.callers[f].key);
      BusyInvalidateSplitsFlight(cfg, s, f, d, s.callers[f].key, now);
      SplitIsLasting(cfg, s, now, [Timed(Invalidate, now), Timed(Enter(d, s.callers[f].key), now),
                                   Timed(Acquire(d), now)]);
    }
  }

  /** The exact condition: an invalidation leaves single flight intact in every continuation exactly
      when nobody is waiting or fetching at that moment. */
  lemma InvalidateKeepsSingleFlightIff(cfg: Config, s: State, now: real)
    requires FlightInv(s) && s.clock <= now
    ensures SingleFlightForEver(cfg, Apply(cfg, s, Invalidate, now)) <==> forall c :: !Inside(s, c)
  {
    hide Apply, FlightInv, SingleFlight, RunOf, Run, QuietRun;
    var s1 := Apply(cfg, s, Invalidate, now);
    if c :| Inside(s, c) {
      SomeoneSplits(cfg, s, now, c);
    } else {
      FlightStep(cfg, s, Invalidate, now);
      forall es: seq<Timed> | RunOf(cfg, s1, es) && QuietRun(cfg, s1, es)
        ensures SingleFlight(Run(cfg, s1, es))
      {
        AtMostOneFetchPerKey(cfg, s1, es);
      }
    }
  }
}
