/** When can the wrapping allocator hand out a tag that is still in the registry? A run is audited
    with a ledger of allocations; the answer joins the allocator's period with LRU eviction. */
module TagCollisions {
  import opened OrderedDicts
  import opened OrderTags
  import opened OrderTagRuns

  /** The allocator visits 1 .. PERIOD and starts over. */
  const PERIOD: nat := 0xF_FFFF

  /** `allocs` tags handed out and `removed` entries forgotten so far; per tag, the number of its
      latest allocation, and both counts when it was last registered or bound. */
  datatype Ledger = Ledger(allocs: nat, removed: nat,
                           born: map<int, nat>, seen: map<int, nat>, removedBy: map<int, nat>)

  const BLANK := Ledger(0, 0, map[], map[], map[])

  ghost function Seen(l: Ledger, t: int): Ledger {
    l.(seen := l.seen[t := l.allocs], removedBy := l.removedBy[t := l.removed])
  }

  ghost function Audit(r: Registry, l: Ledger, op: Op): Ledger {
    match op
    case Place(_) =>
      var t := NextTag(r.counter);
      Seen(l.(allocs := l.allocs + 1, born := l.born[t := l.allocs + 1]), t)
    case Update(t, _) => Seen(l, t)
    case BindOp(t, d) => if t.Some? && Truthy(d) then Seen(l, t.value) else l
    case ForgetOp(_, _) =>
      RemovalShrinks(r, op.ftag, op.fdigest);
      l.(removed := l.removed + (|r.byTag.order| - |Step(r, op).byTag.order|))
  }

  /** Tags are touched only within `k` allocations of their own. */
  ghost predicate Paced(l: Ledger, op: Op, k: nat) {
    match op
    case Place(_) => true
    case Update(t, _) => t in l.born && l.allocs - l.born[t] <= k
    case BindOp(t, d) => t.Some? && Truthy(d) ==> t.value in l.born && l.allocs - l.born[t.value] <= k
    case ForgetOp(_, _) => true
  }

  /** At most `f` entries were forgotten since any registered tag was last touched. */
  ghost predicate FewForgets(r: Registry, l: Ledger, f: nat) {
    forall t :: t in r.byTag.at && t in l.removedBy ==> l.removed - l.removedBy[t] <= f
  }

  ghost predicate PacedRun(r: Registry, l: Ledger, ops: seq<Op>, k: nat, f: nat)
    decreases |ops|
  {
    ops != [] ==>
      && Paced(l, ops[0], k)
      && (ops[0].Place? ==> FewForgets(r, l, f))
      && PacedRun(Step(r, ops[0]), Audit(r, l, ops[0]), ops[1..], k, f)
  }

  /** Every allocation of the run returns a tag absent from the registry. */
  ghost predicate NeverCollides(r: Registry, ops: seq<Op>)
    decreases |ops|
  {
    ops != [] ==>
      && (ops[0].Place? ==> NextTag(r.counter) !in r.byTag.at)
      && NeverCollides(Step(r, ops[0]), ops[1..])
  }

  // ----- the allocator's period --------------------------------------------

  /** The tag of the n-th allocation. */
  function NthTag(n: nat): nat
    requires n >= 1
  {
    (n - 1) % 0xF_FFFF + 1
  }

  function CounterAfter(n: nat): nat { if n == 0 then 0 else NthTag(n) }

  lemma NextIsNth(n: nat)
    ensures NextTag(CounterAfter(n)) == NthTag(n + 1)
  {
    if n > 0 {
      var c := (n - 1) % PERIOD;
      assert n == PERIOD * ((n - 1) / PERIOD) + c + 1;
      if c + 1 < PERIOD {
        ModUnique(n, (n - 1) / PERIOD, c + 1);
      } else {
        ModUnique(n, (n - 1) / PERIOD + 1, 0);
      }
    }
  }

  lemma ModUnique(n: nat, q: nat, c: nat)
    requires n == PERIOD * q + c && c < PERIOD
    ensures n % PERIOD == c
  {
  }

  /** Two allocations return the same tag exactly when a multiple of the period lies between. */
  lemma SameTagIff(a: nat, b: nat)
    requires 1 <= a <= b
    ensures NthTag(a) == NthTag(b) <==> (b - a) % PERIOD == 0
  {
    var qa, qb, q := (a - 1) / PERIOD, (b - 1) / PERIOD, (b - a) / PERIOD;
    var ca, cb, c := (a - 1) % PERIOD, (b - 1) % PERIOD, (b - a) % PERIOD;
    assert a - 1 == PERIOD * qa + ca && b - 1 == PERIOD * qb + cb && b - a == PERIOD * q + c;
    assert cb - ca == PERIOD * (q + qa - qb) + c;
  }

  // ----- the invariant -----------------------------------------------------

  /** Entries ordered after a tag outnumber the allocations since it was touched, up to forgets. */
  ghost predicate Recency(order: seq<int>, l: Ledger) {
    forall i :: 0 <= i < |order| ==>
      order[i] in l.seen && order[i] in l.removedBy
      && |order| - 1 - i >= (l.allocs - l.seen[order[i]]) - (l.removed - l.removedBy[order[i]])
  }

  ghost predicate Births(l: Ledger, k: nat) {
    && l.born.Keys == l.seen.Keys == l.removedBy.Keys
    && forall t :: t in l.born ==>
         1 <= l.born[t] <= l.seen[t] <= l.allocs && l.seen[t] <= l.born[t] + k
         && NthTag(l.born[t]) == t && l.removedBy[t] <= l.removed
  }

  ghost predicate LedgerInv(r: Registry, l: Ledger, k: nat) {
    && |r.byTag.order| <= MAX_ENTRIES
    && r.counter == CounterAfter(l.allocs)
    && Births(l, k)
    && Recency(r.byTag.order, l)
  }

  lemma ForgetOrder(r: Registry, t: int)
    ensures Forget(r, Some(t), None).byTag.order == Without(r.byTag.order, t)
    ensures Forget(r, Some(t), None).counter == r.counter
  {
  }

  /** What registering or binding a tag does to the eviction order. */
  function Inserted(order: seq<int>, t: int): seq<int> {
    var o := if t in order then Without(order, t) + [t] else order + [t];
    if |o| > MAX_ENTRIES then o[1..] else o
  }

  lemma RegisterOrder(r: Registry, t: int, info: map<string, string>)
    requires |r.byTag.order| <= MAX_ENTRIES
    ensures var r' := Register(r, t, None, info);
            r'.byTag.order == Inserted(r.byTag.order, t) && r'.counter == r.counter
  {
    var e := MetaAt(r, t);
    var e' := Meta(t, e.digest, e.info + info);
    TouchOrder(r.byTag, t, e');
    EvictIsEvictOne(r.(byTag := Touch(r.byTag, t, e')));
  }

  lemma PlaceOrder(r: Registry, info: map<string, string>)
    requires |r.byTag.order| <= MAX_ENTRIES
    ensures var r' := Step(r, Place(info));
            r'.byTag.order == Inserted(r.byTag.order, NextTag(r.counter)) && r'.counter == NextTag(r.counter)
  {
    RegisterOrder(r.(counter := NextTag(r.counter)), NextTag(r.counter), info);
  }

  lemma BindOrder(r: Registry, t: int, d: string)
    requires |r.byTag.order| <= MAX_ENTRIES && d != ""
    ensures var r' := Bind(r, Some(t), Some(d));
            r'.byTag.order == Inserted(r.byTag.order, t) && r'.counter == r.counter
  {
    TouchOrder(r.byTag, t, MetaAt(r, t).(digest := Some(d)));
    EvictIsEvictOne(Link(r, t, d));
  }

  lemma RecencySeen(order: seq<int>, l: Ledger, t: int)
    requires NoDup(order) && Recency(order, l) && |order| <= MAX_ENTRIES
    ensures Recency(Inserted(order, t), Seen(l, t)) && |Inserted(order, t)| <= MAX_ENTRIES
  {
  }

  lemma RecencyPlace(order: seq<int>, l: Ledger, t: int)
    requires Recency(order, l) && t !in order && |order| <= MAX_ENTRIES
    ensures Recency(Inserted(order, t), Seen(l.(allocs := l.allocs + 1, born := l.born[t := l.allocs + 1]), t))
    ensures |Inserted(order, t)| <= MAX_ENTRIES
  {
  }

  lemma RecencyDrop(order: seq<int>, l: Ledger, t: int)
    requires NoDup(order) && Recency(order, l)
    ensures |Without(order, t)| <= |order|
    ensures Recency(Without(order, t), l.(removed := l.removed + |order| - |Without(order, t)|))
  {
    WithoutElems(order, t);
  }

  lemma ForgetDigestRecency(r: Registry, l: Ledger, digest: Option<string>)
    requires Recency(r.byTag.order, l)
    ensures var f := ForgetDigest(r, digest);
            && |f.byTag.order| <= |r.byTag.order| && f.counter == r.counter
            && Recency(f.byTag.order, l.(removed := l.removed + |r.byTag.order| - |f.byTag.order|))
  {
    hide OrderedDict.Valid;
    DictKeys(r.byTag);
    if Truthy(digest) && digest.value in r.digestToTag.at {
      RecencyDrop(r.byTag.order, l, r.digestToTag.at[digest.value]);
    }
  }

  lemma ForgetTagRecency(r: Registry, l: Ledger, tag: Option<int>)
    requires Recency(r.byTag.order, l)
    ensures var f := ForgetTag(r, tag);
            && |f.byTag.order| <= |r.byTag.order| && f.counter == r.counter
            && Recency(f.byTag.order, l.(removed := l.removed + |r.byTag.order| - |f.byTag.order|))
  {
    hide OrderedDict.Valid, Unlink;
    DictKeys(r.byTag);
    if tag.Some? && tag.value in r.byTag.at {
      RecencyDrop(r.byTag.order, l, tag.value);
    }
  }

  lemma ForgetRecency(r: Registry, l: Ledger, tag: Option<int>, digest: Option<string>)
    requires Recency(r.byTag.order, l)
    ensures var f := Forget(r, tag, digest);
            && |f.byTag.order| <= |r.byTag.order| && f.counter == r.counter
            && Recency(f.byTag.order, l.(removed := l.removed + |r.byTag.order| - |f.byTag.order|))
  {
    hide OrderedDict.Valid, ForgetTag, ForgetDigest, Recency;
    ForgetDigestRecency(r, l, digest);
    var d := ForgetDigest(r, digest);
    ForgetTagRecency(d, l.(removed := l.removed + |r.byTag.order| - |d.byTag.order|), tag);
  }

  // ----- the exact condition -----------------------------------------------

  /** The ledger numbers the allocations right; registered tags need not come from the allocator. */
  ghost predicate Known(r: Registry, l: Ledger) {
    && |r.byTag.order| <= MAX_ENTRIES && r.counter == CounterAfter(l.allocs)
    && forall t :: t in l.born ==> 1 <= l.born[t] <= l.allocs && NthTag(l.born[t]) == t
  }

  /** The number of a tag's latest allocation; a tag not allocated yet has the number it would first get. */
  ghost function Number(l: Ledger, t: int): int { if t in l.born then l.born[t] else t }

  /** Some registered tag's number lies a whole number of periods from the next one. */
  ghost predicate PeriodApart(r: Registry, l: Ledger) {
    exists t :: t in r.byTag.at && 1 <= t <= PERIOD && (l.allocs + 1 - Number(l, t)) % PERIOD == 0
  }

  ghost predicate NeverPeriodApart(r: Registry, l: Ledger, ops: seq<Op>)
    decreases |ops|
  {
    ops != [] ==>
      && (ops[0].Place? ==> !PeriodApart(r, l))
      && NeverPeriodApart(Step(r, ops[0]), Audit(r, l, ops[0]), ops[1..])
  }

  lemma EitherWay(a: int, b: int)
    requires (a - b) % PERIOD == 0
    ensures (b - a) % PERIOD == 0
  {
    var q := (a - b) / PERIOD;
    assert a - b == PERIOD * q;
    assert b - a == PERIOD * -q;
  }

  lemma SameTagApart(a: nat, b: nat)
    requires 1 <= a && 1 <= b
    ensures NthTag(a) == NthTag(b) <==> (b - a) % PERIOD == 0
  {
    if a <= b {
      SameTagIff(a, b);
    } else {
      SameTagIff(b, a);
      if (a - b) % PERIOD == 0 { EitherWay(a, b); }
      if (b - a) % PERIOD == 0 { EitherWay(b, a); }
    }
  }

  lemma InPeriod(t: nat)
    ensures 1 <= NthTag(t + 1) <= PERIOD
    ensures 1 <= t <= PERIOD ==> NthTag(t) == t
  {
  }

  /** The tag about to be handed out is taken exactly when some registered tag's latest allocation
      lies a whole number of periods back. */
  lemma CollisionIff(r: Registry, l: Ledger)
    requires Known(r, l)
    ensures NextTag(r.counter) in r.byTag.at <==> PeriodApart(r, l)
  {
    hide OrderedDict.Valid, NthTag, NextTag, CounterAfter;
    NextIsNth(l.allocs);
    InPeriod(l.allocs);
    forall t | t in r.byTag.at && 1 <= t <= PERIOD
      ensures NthTag(l.allocs + 1) == t <==> (l.allocs + 1 - Number(l, t)) % PERIOD == 0
    {
      InPeriod(t);
      SameTagApart(Number(l, t), l.allocs + 1);
    }
  }

  lemma InsertedSize(order: seq<int>, t: int)
    requires NoDup(order) && |order| <= MAX_ENTRIES
    ensures |Inserted(order, t)| <= MAX_ENTRIES
  {
    WithoutElems(order, t);
  }

  lemma KnownStep(r: Registry, l: Ledger, op: Op)
    requires Known(r, l)
    ensures Known(Step(r, op), Audit(r, l, op))
  {
    hide OrderedDict.Valid, Register, Bind, Forget, NextTag, NthTag, Inserted, CounterAfter;
    DictKeys(r.byTag);
    match op
    case Place(info) =>
      NextIsNth(l.allocs);
      CounterIsNth(l.allocs + 1);
      PlaceOrder(r, info);
      InsertedSize(r.byTag.order, NextTag(r.counter));
    case Update(tag, info) =>
      RegisterOrder(r, tag, info);
      InsertedSize(r.byTag.order, tag);
    case BindOp(tag, digest) =>
      if tag.Some? && Truthy(digest) {
        BindOrder(r, tag.value, digest.value);
        InsertedSize(r.byTag.order, tag.value);
      } else {
        BindNothing(r, tag, digest);
      }
    case ForgetOp(tag, digest) =>
      ForgetCounter(r, tag, digest);
      RemovalShrinks(r, tag, digest);
  }

  lemma ForgetCounter(r: Registry, tag: Option<int>, digest: Option<string>)
    ensures Forget(r, tag, digest).counter == r.counter
  {
  }

  lemma CounterIsNth(n: nat)
    requires n > 0
    ensures CounterAfter(n) == NthTag(n)
  {
  }

  lemma BindNothing(r: Registry, tag: Option<int>, digest: Option<string>)
    requires !(tag.Some? && Truthy(digest))
    ensures Bind(r, tag, digest) == r
  {
  }

  /** The condition is exact over all runs, with no discipline at all: no allocation returns a
      registered tag if and only if at no allocation a registered tag is whole periods apart. */
  lemma {:induction false} NeverCollidesIff(r: Registry, l: Ledger, ops: seq<Op>)
    requires Known(r, l)
    ensures NeverCollides(r, ops) <==> NeverPeriodApart(r, l, ops)
    decreases |ops|
  {
    hide Step, Known, PeriodApart, NextTag, OrderedDict.Valid;
    if ops != [] {
      CollisionIff(r, l);
      KnownStep(r, l, ops[0]);
      NeverCollidesIff(Step(r, ops[0]), Audit(r, l, ops[0]), ops[1..]);
    }
  }

  lemma FromEmptyNeverCollidesIff(ops: seq<Op>)
    ensures NeverCollides(CLEARED, ops) <==> NeverPeriodApart(CLEARED, BLANK, ops)
  {
    NeverCollidesIff(CLEARED, BLANK, ops);
  }

  lemma NextTagIsFree(r: Registry, l: Ledger, k: nat, f: nat)
    requires LedgerInv(r, l, k) && FewForgets(r, l, f)
    requires k + MAX_ENTRIES + f < PERIOD
    ensures NextTag(r.counter) !in r.byTag.at
  {
    CollisionIff(r, l);
    DictKeys(r.byTag);
    forall t | t in r.byTag.at
      ensures (l.allocs + 1 - Number(l, t)) % PERIOD != 0
    {
      var i, gap := IndexOf(r.byTag.order, t), l.allocs + 1 - l.born[t];
      assert l.removed - l.removedBy[t] <= f;
      assert l.allocs - l.seen[t] <= MAX_ENTRIES - 1 + f;
      assert 0 < gap < PERIOD;
      ModUnique(gap, 0, gap);
    }
  }

  lemma AuditPlace(r: Registry, r': Registry, l: Ledger, info: map<string, string>, k: nat)
    requires LedgerInv(r, l, k) && NextTag(r.counter) !in r.byTag.at
    requires r'.byTag.order == Inserted(r.byTag.order, NextTag(r.counter)) && r'.counter == NextTag(r.counter)
    ensures LedgerInv(r', Audit(r, l, Place(info)), k)
  {
    hide OrderedDict.Valid, NextTag, NthTag, Inserted, Recency, Births;
    DictKeys(r.byTag);
    NextIsNth(l.allocs);
    RecencyPlace(r.byTag.order, l, NextTag(r.counter));
    BirthsPlace(l, k);
  }

  lemma BirthsPlace(l: Ledger, k: nat)
    requires Births(l, k)
    ensures var t := NthTag(l.allocs + 1);
            Births(Seen(l.(allocs := l.allocs + 1, born := l.born[t := l.allocs + 1]), t), k)
  {
  }

  lemma BirthsSeen(l: Ledger, t: int, k: nat)
    requires Births(l, k) && t in l.born && l.allocs - l.born[t] <= k
    ensures Births(Seen(l, t), k)
  {
  }

  lemma AuditForget(r: Registry, l: Ledger, tag: Option<int>, digest: Option<string>, k: nat)
    requires LedgerInv(r, l, k)
    ensures LedgerInv(Forget(r, tag, digest), Audit(r, l, ForgetOp(tag, digest)), k)
  {
    ForgetRecency(r, l, tag, digest);
  }

  lemma AuditStep(r: Registry, l: Ledger, op: Op, k: nat)
    requires LedgerInv(r, l, k) && Paced(l, op, k)
    requires op.Place? ==> NextTag(r.counter) !in r.byTag.at
    ensures LedgerInv(Step(r, op), Audit(r, l, op), k)
  {
    hide OrderedDict.Valid, Evict, Register, Forget, Recency, Births, NextTag, NthTag;
    DictKeys(r.byTag);
    match op
    case Place(info) =>
      PlaceOrder(r, info);
      AuditPlace(r, Step(r, op), l, info, k);
    case Update(tag, info) =>
      RegisterOrder(r, tag, info);
      RecencySeen(r.byTag.order, l, tag);
      BirthsSeen(l, tag, k);
    case BindOp(tag, digest) =>
      if tag.Some? && Truthy(digest) {
        BindOrder(r, tag.value, digest.value);
        RecencySeen(r.byTag.order, l, tag.value);
        BirthsSeen(l, tag.value, k);
      }
    case ForgetOp(tag, digest) => AuditForget(r, l, tag, digest, k);
  }

  lemma {:induction false} PacedRunsKeepTagsFree(r: Registry, l: Ledger, ops: seq<Op>, k: nat, f: nat)
    requires LedgerInv(r, l, k) && PacedRun(r, l, ops, k, f)
    requires k + MAX_ENTRIES + f < PERIOD
    ensures NeverCollides(r, ops)
    decreases |ops|
  {
    if ops != [] {
      if ops[0].Place? { NextTagIsFree(r, l, k, f); }
      AuditStep(r, l, ops[0], k);
      PacedRunsKeepTagsFree(Step(r, ops[0]), Audit(r, l, ops[0]), ops[1..], k, f);
    }
  }

  /** Live tags never collide: if every tag is last touched within k allocations of its own and
      at most f entries are forgotten while it is registered, with k + 8192 + f below the period,
      then no allocation of the run returns a registered tag. */
  lemma LiveTagsNeverCollide(ops: seq<Op>, k: nat, f: nat)
    requires PacedRun(CLEARED, BLANK, ops, k, f) && k + 8192 + f < 0xF_FFFF
    ensures NeverCollides(CLEARED, ops)
  {
    PacedRunsKeepTagsFree(CLEARED, BLANK, ops, k, f);
  }

  // ----- the forget bound is needed ----------------------------------------

  /** n orders placed and rejected at once, starting at tag `first`. */
  ghost function Rejections(first: nat, n: nat): seq<Op>
    decreases n
  {
    if n == 0 then [] else [Place(map[]), ForgetOp(Some(first), None)] + Rejections(first + 1, n - 1)
  }

  ghost predicate OnlyTagOne(r: Registry) { r.byTag.order == [1] }

  lemma NextTagSmall(c: nat)
    requires c < PERIOD
    ensures NextTag(c) == c + 1
  {
  }

  lemma PlaceAtTag(r: Registry, p: Registry, t: int)
    requires OnlyTagOne(r) && NextTag(r.counter) == t && t > 1 && p == Step(r, Place(map[]))
    ensures p.byTag.order == [1, t] && p.counter == t
  {
    PlaceOrder(r, map[]);
    assert Inserted([1], t) == [1, t];
  }

  lemma RejectLeavesTagOne(p: Registry, q: Registry, t: int)
    requires p.byTag.order == [1, t] && t != 1 && q == Step(p, ForgetOp(Some(t), None))
    ensures OnlyTagOne(q) && q.counter == p.counter
  {
    hide OrderedDict.Valid, Forget;
    ForgetOrder(p, t);
    assert p.byTag.order[1] == t && IndexOf(p.byTag.order, t) == 1;
  }

  lemma NeverCollidesTail(r: Registry, p: Registry, op: Op, rest: seq<Op>)
    requires p == Step(r, op) && NeverCollides(r, [op] + rest)
    ensures NeverCollides(p, rest)
  {
    assert ([op] + rest)[1..] == rest;
  }

  lemma RejectionStep(r: Registry) returns (p: Registry, q: Registry)
    requires OnlyTagOne(r) && 1 <= r.counter < PERIOD
    ensures p == Step(r, Place(map[])) && q == Step(p, ForgetOp(Some(r.counter + 1), None))
    ensures OnlyTagOne(q) && q.counter == r.counter + 1
  {
    hide *;
    p := Step(r, Place(map[]));
    NextTagSmall(r.counter);
    PlaceAtTag(r, p, r.counter + 1);
    q := Step(p, ForgetOp(Some(r.counter + 1), None));
    RejectLeavesTagOne(p, q, r.counter + 1);
  }

  lemma {:induction false} RejectionsLeaveTagOne(r: Registry, n: nat, ops: seq<Op>, rest: seq<Op>)
    returns (q: Registry)
    requires OnlyTagOne(r) && 1 <= r.counter && r.counter + n <= PERIOD
    requires ops == Rejections(r.counter + 1, n) + rest && NeverCollides(r, ops)
    ensures OnlyTagOne(q) && q.counter == r.counter + n && NeverCollides(q, rest)
    decreases n
  {
    hide Step, OrderedDict.Valid, NeverCollides, NextTag;
    if n == 0 {
      assert ops == rest;
      q := r;
    } else {
      var place, reject := Place(map[]), ForgetOp(Some(r.counter + 1), None);
      var tail := Rejections(r.counter + 2, n - 1) + rest;
      var placed, next := RejectionStep(r);
      assert ops == [place] + ([reject] + tail);
      NeverCollidesTail(r, placed, place, [reject] + tail);
      NeverCollidesTail(placed, next, reject, tail);
      q := RejectionsLeaveTagOne(next, n - 1, tail, rest);
    }
  }

  ghost predicate PlacedOnce(ops: seq<Op>) { forall i :: 0 <= i < |ops| ==> ops[i].Place? || ops[i].ForgetOp? }

  lemma {:induction false} RejectionsPlaceOnce(first: nat, n: nat)
    ensures PlacedOnce(Rejections(first, n))
    decreases n
  {
    if n > 0 { RejectionsPlaceOnce(first + 1, n - 1); }
  }

  lemma StormPlacesOnce(storm: seq<Op>, n: nat)
    requires storm == [Place(map[])] + (Rejections(2, n) + [Place(map[])])
    ensures PlacedOnce(storm)
  {
    RejectionsPlaceOnce(2, n);
  }

  lemma FirstPlace(r: Registry)
    requires r == Step(CLEARED, Place(map[]))
    ensures OnlyTagOne(r) && r.counter == 1
  {
    hide Step;
    PlaceOrder(CLEARED, map[]);
  }

  lemma WrapAround(q: Registry)
    requires OnlyTagOne(q) && q.counter == PERIOD
    ensures !NeverCollides(q, [Place(map[])])
  {
    hide Step;
    DictKeys(q.byTag);
    assert NextTag(q.counter) == q.byTag.order[0];
  }

  /** The bound on forgets is needed: one resting order and then a period of orders placed and
      rejected at once make the next allocation return the resting order's tag, although no tag
      was ever touched after its own placement. */
  lemma ForgetStormCollides(storm: seq<Op>, n: nat)
    requires n == PERIOD - 1 && storm == [Place(map[])] + (Rejections(2, n) + [Place(map[])])
    ensures PlacedOnce(storm) && !NeverCollides(CLEARED, storm)
  {
    hide *;
    StormPlacesOnce(storm, n);
    if NeverCollides(CLEARED, storm) {
      var r, rest := Step(CLEARED, Place(map[])), Rejections(2, n) + [Place(map[])];
      FirstPlace(r);
      NeverCollidesTail(CLEARED, r, Place(map[]), rest);
      var q := RejectionsLeaveTagOne(r, n, rest, [Place(map[])]);
      WrapAround(q);
      assert false;
    }
  }
}
