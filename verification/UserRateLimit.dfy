/** The per-(user, action) token bucket, in a dictionary bounded by a stale sweep. */
module UserRateLimit {
  import opened OrderedDicts
  import opened Reals

  const MAX_BUCKETS: nat := 5000

  type Key = (int, string)
  datatype Bucket = Bucket(tokens: real, lastRefill: real)
  type Buckets = Dict<Key, Bucket>

  datatype Verdict = Verdict(allowed: bool, retryAfter: real)

  predicate Stale(b: Bucket, now: real, window: real) { now - b.lastRefill > Max(window, 60.0) }

  function Sweep(bs: Buckets, keys: seq<Key>, now: real, window: real): Buckets
    decreases |keys|
  {
    if keys == [] then bs
    else
      Sweep(if keys[0] in bs.at && Stale(bs.at[keys[0]], now, window) then bs.Remove(keys[0]) else bs,
            keys[1..], now, window)
  }

  /** The first key with the least refill time. */
  function Oldest(order: seq<Key>, at: map<Key, Bucket>): (k: Key)
    requires order != [] && forall i :: 0 <= i < |order| ==> order[i] in at
    ensures k in order && forall i :: 0 <= i < |order| ==> at[k].lastRefill <= at[order[i]].lastRefill
  {
    var n := |order| - 1;
    if n == 0 then order[0]
    else
      var k := Oldest(order[..n], at);
      if at[order[n]].lastRefill < at[k].lastRefill then order[n] else k
  }

  function OldestOf(bs: Buckets): (k: Key)
    requires bs.order != []
    ensures k in bs.at
  {
    DictKeys(bs);
    Oldest(bs.order, bs.at)
  }

  /** The hard cap: drop oldest until there is room. */
  function DropOldest(bs: Buckets): Buckets
    decreases |bs.order|
  {
    if |bs.order| >= MAX_BUCKETS then
      RemoveShrinks(bs, OldestOf(bs));
      DropOldest(bs.Remove(OldestOf(bs)))
    else bs
  }

  function EvictStale(bs: Buckets, now: real, window: real): Buckets {
    if |bs.order| < MAX_BUCKETS then bs else DropOldest(Sweep(bs, bs.order, now, window))
  }

  /** What is refilled in a stretch of time. */
  function Gain(elapsed: real, refill: real): real { elapsed * refill }

  /** The bucket a call works on: refilled up to its capacity, or new and full. */
  function Refilled(b: Option<Bucket>, cap: real, refill: real, now: real): Bucket {
    match b
    case None => Bucket(cap, now)
    case Some(o) => Bucket(Min(cap, o.tokens + Gain(now - o.lastRefill, refill)), now)
  }

  function Spent(b: Bucket): Bucket { if b.tokens >= 1.0 then b.(tokens := b.tokens - 1.0) else b }

  function Judge(b: Bucket, refill: real): Verdict
    requires refill > 0.0
  {
    if b.tokens >= 1.0 then Verdict(true, 0.0) else Verdict(false, Max(0.0, (1.0 - b.tokens) / refill))
  }

  function Lookup(at: map<Key, Bucket>, k: Key): Option<Bucket> { if k in at then Some(at[k]) else None }

  function CheckState(bs: Buckets, k: Key, cap: real, refill: real, now: real): Buckets {
    if cap <= 0.0 || refill <= 0.0 then bs
    else
      var e := EvictStale(bs, now, cap / refill);
      e.Put(k, Spent(Refilled(Lookup(e.at, k), cap, refill, now)))
  }

  function CheckVerdict(bs: Buckets, k: Key, cap: real, refill: real, now: real): Verdict {
    if cap <= 0.0 || refill <= 0.0 then Verdict(true, 0.0)
    else Judge(Refilled(Lookup(EvictStale(bs, now, cap / refill).at, k), cap, refill, now), refill)
  }

  class RateLimiter {
    const defaultCapacity: real
    const defaultRefill: real
    var buckets: Buckets

    constructor (defaultCapacity: real, defaultRefill: real)
      ensures this.defaultCapacity == defaultCapacity && this.defaultRefill == defaultRefill
      ensures buckets == Empty()
    {
      this.defaultCapacity, this.defaultRefill, buckets := defaultCapacity, defaultRefill, Empty();
    }

    method EvictStaleLocked(now: real, window: real)
      modifies this`buckets
      ensures buckets == EvictStale(old(buckets), now, window)
    {
      hide OrderedDict.Valid, OrderedDict.Remove;
      if |buckets.order| < MAX_BUCKETS { return; }
      var keys, i := buckets.order, 0;
      while i < |keys|
        invariant 0 <= i <= |keys|
        invariant Sweep(buckets, keys[i..], now, window) == Sweep(old(buckets), keys, now, window)
      {
        assert keys[i..][1..] == keys[i + 1..];
        if keys[i] in buckets.at && Stale(buckets.at[keys[i]], now, window) { buckets := buckets.Remove(keys[i]); }
        i := i + 1;
      }
      while |buckets.order| >= MAX_BUCKETS
        invariant DropOldest(buckets) == DropOldest(Sweep(old(buckets), keys, now, window))
        decreases |buckets.order|
      {
        var oldest := OldestOf(buckets);
        RemoveShrinks(buckets, oldest);
        buckets := buckets.Remove(oldest);
      }
    }

    method CheckRateLimit(k: Key, capacity: Option<real>, refillPerSec: Option<real>, now: real)
      returns (allowed: bool, retryAfter: real)
      modifies this`buckets
      ensures var cap := if capacity.Some? then capacity.value else defaultCapacity;
              var refill := if refillPerSec.Some? then refillPerSec.value else defaultRefill;
              && Verdict(allowed, retryAfter) == CheckVerdict(old(buckets), k, cap, refill, now)
              && buckets == CheckState(old(buckets), k, cap, refill, now)
    {
      hide OrderedDict.Valid, OrderedDict.Put, EvictStale, Refilled, Judge, Spent;
      var cap := if capacity.Some? then capacity.value else defaultCapacity;
      var refill := if refillPerSec.Some? then refillPerSec.value else defaultRefill;
      if cap <= 0.0 || refill <= 0.0 { return true, 0.0; }
      EvictStaleLocked(now, cap / refill);
      allowed, retryAfter := TakeToken(k, cap, refill, now);
    }

    /** The rest of the critical section: refill, then spend or quote a wait. */
    method TakeToken(k: Key, cap: real, refill: real, now: real) returns (allowed: bool, retryAfter: real)
      requires refill > 0.0
      modifies this`buckets
      ensures var b := Refilled(Lookup(old(buckets).at, k), cap, refill, now);
              && buckets == old(buckets).Put(k, Spent(b))
              && Verdict(allowed, retryAfter) == Judge(b, refill)
    {
      hide OrderedDict.Valid, OrderedDict.Put;
      var bucket;
      if k !in buckets.at {
        bucket := Bucket(cap, now);
      } else {
        bucket := buckets.at[k];
        var elapsed := now - bucket.lastRefill;
        bucket := Bucket(Min(cap, bucket.tokens + elapsed * refill), now);
      }
      assert bucket == Refilled(Lookup(old(buckets).at, k), cap, refill, now);
      if bucket.tokens >= 1.0 {
        assert Spent(bucket) == bucket.(tokens := bucket.tokens - 1.0);
        buckets := buckets.Put(k, bucket.(tokens := bucket.tokens - 1.0));
        return true, 0.0;
      }
      buckets := buckets.Put(k, bucket);
      return false, Max(0.0, (1.0 - bucket.tokens) / refill);
    }
  }
}

/** The bounded limiter against one that never forgets a bucket. */
module RateLimitRuns {
  import opened OrderedDicts
  import opened Reals
  import opened UserRateLimit

  /** Each key's fixed capacity and refill rate. */
  datatype Rate = Rate(cap: real, refill: real) {
    predicate Enabled() { cap > 0.0 && refill > 0.0 }
    function Window(): real { if refill == 0.0 then 0.0 else cap / refill }
  }

  type Policy = Key -> Rate

  /** No caller's sweep window is too short for another key's bucket to have refilled: all windows
      are equal, say, or none passes a minute. Disabled keys have no buckets, and keys that hold less
      than a token never spend, so neither matter as the key swept. */
  ghost predicate SweepSafe(p: Policy) {
    forall k, m :: p(k).Enabled() && p(m).Enabled() && p(m).cap >= 1.0 ==>
      p(m).Window() <= Max(p(k).Window(), 60.0)
  }

  datatype Call = Call(k: Key, now: real)

  function Step(p: Policy, bs: Buckets, c: Call): Buckets { CheckState(bs, c.k, p(c.k).cap, p(c.k).refill, c.now) }

  function Answer(p: Policy, bs: Buckets, c: Call): Verdict { CheckVerdict(bs, c.k, p(c.k).cap, p(c.k).refill, c.now) }

  /** The limiter that never evicts. */
  function RefBucket(p: Policy, u: map<Key, Bucket>, c: Call): Bucket {
    Refilled(Lookup(u, c.k), p(c.k).cap, p(c.k).refill, c.now)
  }

  function RefStep(p: Policy, u: map<Key, Bucket>, c: Call): map<Key, Bucket> {
    if p(c.k).Enabled() then u[c.k := Spent(RefBucket(p, u, c))] else u
  }

  function RefAnswer(p: Policy, u: map<Key, Bucket>, c: Call): Verdict {
    if p(c.k).Enabled() then Judge(RefBucket(p, u, c), p(c.k).refill) else Verdict(true, 0.0)
  }

  function Answers(p: Policy, bs: Buckets, calls: seq<Call>): seq<Verdict>
    decreases |calls|
  {
    if calls == [] then [] else [Answer(p, bs, calls[0])] + Answers(p, Step(p, bs, calls[0]), calls[1..])
  }

  function RefAnswers(p: Policy, u: map<Key, Bucket>, calls: seq<Call>): seq<Verdict>
    decreases |calls|
  {
    if calls == [] then [] else [RefAnswer(p, u, calls[0])] + RefAnswers(p, RefStep(p, u, calls[0]), calls[1..])
  }

  /** Times do not run backwards and the stale sweep alone always makes room. */
  ghost predicate Roomy(p: Policy, bs: Buckets, calls: seq<Call>, clock: real)
    decreases |calls|
  {
    calls != [] ==>
      var c := calls[0];
      && clock <= c.now
      && (|bs.order| >= MAX_BUCKETS && p(c.k).Enabled() ==>
            |Sweep(bs, bs.order, c.now, p(c.k).Window()).order| < MAX_BUCKETS)
      && Roomy(p, Step(p, bs, c), calls[1..], c.now)
  }

  // ----- the simulation ----------------------------------------------------

  /** What calls leave in a bucket: a token was spent, or there was none to spend. */
  ghost predicate Held(p: Policy, k: Key, b: Bucket, clock: real) {
    && 0.0 <= b.tokens <= p(k).cap && b.lastRefill <= clock
    && (b.tokens < 1.0 || b.tokens <= p(k).cap - 1.0)
    && (p(k).cap < 1.0 ==> b.tokens == p(k).cap)
  }

  /** A bucket that has refilled to its capacity by `clock`. */
  ghost predicate Full(p: Policy, k: Key, b: Bucket, clock: real) {
    b.tokens + (clock - b.lastRefill) * p(k).refill >= p(k).cap
  }

  /** Present buckets agree with the reference; a missing one would be full. */
  ghost predicate Sim(p: Policy, at: map<Key, Bucket>, u: map<Key, Bucket>, clock: real) {
    && (forall k :: k in at ==> k in u && at[k] == u[k])
    && (forall k :: k in u ==>
          p(k).Enabled() && Held(p, k, u[k], clock) && (k in at || Full(p, k, u[k], clock)))
  }

  lemma StaleIsFull(p: Policy, k: Key, m: Key, b: Bucket, now: real)
    requires SweepSafe(p) && p(k).Enabled() && p(m).Enabled()
    requires Held(p, m, b, now) && Stale(b, now, p(k).Window())
    ensures Full(p, m, b, now)
  {
    if p(m).cap >= 1.0 {
      var w := p(m).Window();
      assert w * p(m).refill == p(m).cap;
      RefillsFully(p(m).cap, p(m).refill, w, b.tokens, now - b.lastRefill);
    } else {
      NonNegProduct(now - b.lastRefill, p(m).refill);
    }
  }

  lemma RefillsFully(cap: real, refill: real, window: real, tokens: real, elapsed: real)
    requires refill >= 0.0 && tokens >= 0.0 && elapsed >= window && window * refill == cap
    ensures tokens + elapsed * refill >= cap
  {
    MulMonotone(window, elapsed, refill);
  }

  lemma MulMonotone(a: real, b: real, r: real)
    requires a <= b && r >= 0.0
    ensures a * r <= b * r
  {
    assert (b - a) * r >= 0.0;
  }

  lemma NonNegProduct(a: real, b: real)
    requires a >= 0.0 && b >= 0.0
    ensures a * b >= 0.0
  {
  }

  lemma FullLater(p: Policy, k: Key, b: Bucket, clock: real, now: real)
    requires p(k).Enabled() && clock <= now && Full(p, k, b, clock)
    ensures Full(p, k, b, now)
  {
    MulMonotone(clock - b.lastRefill, now - b.lastRefill, p(k).refill);
  }

  /** The sweep removes only buckets that are full. */
  lemma {:induction false} SweepSim(p: Policy, bs: Buckets, keys: seq<Key>, u: map<Key, Bucket>, caller: Key, now: real)
    requires SweepSafe(p) && p(caller).Enabled() && Sim(p, bs.at, u, now)
    ensures Sim(p, Sweep(bs, keys, now, p(caller).Window()).at, u, now)
    decreases |keys|
  {
    hide OrderedDict.Valid, Held, Full, SweepSafe, Stale;
    if keys != [] {
      var k := keys[0];
      if k in bs.at && Stale(bs.at[k], now, p(caller).Window()) {
        StaleIsFull(p, caller, k, bs.at[k], now);
        SweepSim(p, bs.Remove(k), keys[1..], u, caller, now);
      } else {
        SweepSim(p, bs, keys[1..], u, caller, now);
      }
    }
  }

  lemma SimLater(p: Policy, at: map<Key, Bucket>, u: map<Key, Bucket>, clock: real, now: real)
    requires SweepSafe(p) && Sim(p, at, u, clock) && clock <= now
    ensures Sim(p, at, u, now)
  {
    hide Full;
    forall k | k in u && k !in at ensures Full(p, k, u[k], now) { FullLater(p, k, u[k], clock, now); }
  }

  /** A missing bucket that is full answers like a new one. */
  lemma SameBucket(p: Policy, at: map<Key, Bucket>, u: map<Key, Bucket>, k: Key, now: real)
    requires Sim(p, at, u, now)
    ensures Refilled(Lookup(at, k), p(k).cap, p(k).refill, now) == Refilled(Lookup(u, k), p(k).cap, p(k).refill, now)
  {
  }

  lemma RefilledInRange(b: Bucket, cap: real, refill: real, now: real)
    requires cap > 0.0 && refill > 0.0 && b.tokens >= 0.0 && b.lastRefill <= now
    ensures Min(cap, b.tokens) <= Refilled(Some(b), cap, refill, now).tokens <= cap
  {
    var gain := (now - b.lastRefill) * refill;
    NonNegProduct(now - b.lastRefill, refill);
    assert Refilled(Some(b), cap, refill, now).tokens == Min(cap, b.tokens + gain);
  }

  lemma SpentHeld(p: Policy, u: map<Key, Bucket>, k: Key, now: real)
    requires p(k).Enabled() && (k in u ==> Held(p, k, u[k], now))
    ensures Held(p, k, Spent(Refilled(Lookup(u, k), p(k).cap, p(k).refill, now)), now)
  {
    if k in u {
      RefilledInRange(u[k], p(k).cap, p(k).refill, now);
    }
  }

  lemma EvictSim(p: Policy, bs: Buckets, u: map<Key, Bucket>, caller: Key, now: real)
    requires SweepSafe(p) && p(caller).Enabled() && Sim(p, bs.at, u, now)
    requires |bs.order| < MAX_BUCKETS || |Sweep(bs, bs.order, now, p(caller).Window()).order| < MAX_BUCKETS
    ensures Sim(p, EvictStale(bs, now, p(caller).Window()).at, u, now)
  {
    hide OrderedDict.Valid, Sim, Sweep, SweepSafe;
    SweepSim(p, bs, bs.order, u, caller, now);
  }

  lemma StepSim(p: Policy, bs: Buckets, u: map<Key, Bucket>, c: Call, clock: real)
    requires SweepSafe(p) && Sim(p, bs.at, u, clock) && Roomy(p, bs, [c], clock)
    ensures Answer(p, bs, c) == RefAnswer(p, u, c)
    ensures Sim(p, Step(p, bs, c).at, RefStep(p, u, c), c.now)
  {
    hide OrderedDict.Valid, OrderedDict.Put, Full, Held, Sweep, Spent, Refilled, Judge, EvictStale, SweepSafe;
    SimLater(p, bs.at, u, clock, c.now);
    if p(c.k).Enabled() {
      EvictSim(p, bs, u, c.k, c.now);
      SameBucket(p, EvictStale(bs, c.now, p(c.k).Window()).at, u, c.k, c.now);
      SpentHeld(p, u, c.k, c.now);
    }
  }

  /** Eviction is invisible: under a sweep-safe policy, nondecreasing times, and whenever the stale
      sweep alone makes room, the bounded limiter answers every call as the unbounded one does. */
  lemma {:induction false} EvictionInvisible(p: Policy, bs: Buckets, u: map<Key, Bucket>, calls: seq<Call>, clock: real)
    requires SweepSafe(p) && Sim(p, bs.at, u, clock) && Roomy(p, bs, calls, clock)
    ensures Answers(p, bs, calls) == RefAnswers(p, u, calls)
    decreases |calls|
  {
    hide OrderedDict.Valid, Sim, SweepSafe, Step, Answer, RefStep, RefAnswer, Sweep;
    if calls != [] {
      assert Roomy(p, bs, [calls[0]], clock);
      StepSim(p, bs, u, calls[0], clock);
      EvictionInvisible(p, Step(p, bs, calls[0]), RefStep(p, u, calls[0]), calls[1..], calls[0].now);
    }
  }

  lemma FreshLimiter(p: Policy, clock: real)
    ensures Sim(p, map[], map[], clock)
  {
  }

  /** In particular a limiter that starts empty is never told from one that forgets nothing. */
  lemma InvisibleFromEmpty(p: Policy, calls: seq<Call>, clock: real)
    requires SweepSafe(p) && Roomy(p, Empty(), calls, clock)
    ensures Answers(p, Empty(), calls) == RefAnswers(p, map[], calls)
  {
    FreshLimiter(p, clock);
    EvictionInvisible(p, Empty(), map[], calls, clock);
  }

  // ----- sweep safety is exact ---------------------------------------------

  /** Whatever an enabled caller would sweep away has refilled. */
  ghost predicate SweepsOnlyFull(p: Policy) {
    forall k, m, b, now :: p(k).Enabled() && p(m).Enabled() && Held(p, m, b, now) && Stale(b, now, p(k).Window())
      ==> Full(p, m, b, now)
  }

  /** An elapsed time after which k's sweep takes m's spent bucket although it has not refilled. */
  ghost predicate TooEarly(p: Policy, k: Key, m: Key, elapsed: real) {
    && p(k).Enabled() && p(m).Enabled() && p(m).cap >= 1.0 && k != m
    && Max(p(k).Window(), 60.0) < elapsed && elapsed * p(m).refill < p(m).cap
  }

  lemma UnsafePairTooEarly(p: Policy, k: Key, m: Key) returns (elapsed: real)
    requires p(k).Enabled() && p(m).Enabled() && p(m).cap >= 1.0 && p(m).Window() > Max(p(k).Window(), 60.0)
    ensures TooEarly(p, k, m, elapsed)
  {
    elapsed := Midway(p(m).cap, p(m).refill, Max(p(k).Window(), 60.0));
  }

  lemma Midway(cap: real, refill: real, limit: real) returns (elapsed: real)
    requires refill > 0.0 && cap / refill > limit
    ensures limit < elapsed && elapsed * refill < cap
  {
    var w := cap / refill;
    elapsed := (w + limit) / 2.0;
    assert w * refill == cap;
    MulStrict(elapsed, w, refill);
  }

  /** The condition on windows says exactly that sweeps take only refilled buckets. */
  lemma SweepSafeIff(p: Policy)
    ensures SweepSafe(p) <==> SweepsOnlyFull(p)
  {
    hide Full, Held, Stale;
    if SweepSafe(p) {
      forall k, m, b, now | p(k).Enabled() && p(m).Enabled() && Held(p, m, b, now) && Stale(b, now, p(k).Window())
        ensures Full(p, m, b, now)
      {
        StaleIsFull(p, k, m, b, now);
      }
    } else {
      var k, m :| p(k).Enabled() && p(m).Enabled() && p(m).cap >= 1.0 && p(m).Window() > Max(p(k).Window(), 60.0);
      var elapsed := UnsafePairTooEarly(p, k, m);
      EmptyBucketTooEarly(p, k, m, elapsed);
    }
  }

  lemma EmptyBucketTooEarly(p: Policy, k: Key, m: Key, elapsed: real)
    requires TooEarly(p, k, m, elapsed)
    ensures var b := Bucket(0.0, 0.0);
            Held(p, m, b, elapsed) && Stale(b, elapsed, p(k).Window()) && !Full(p, m, b, elapsed)
  {
  }

  // ----- and what an unsafe policy lets callers see ------------------------

  lemma {:induction false} SweepShrinks(bs: Buckets, keys: seq<Key>, now: real, window: real)
    ensures forall m :: m in Sweep(bs, keys, now, window).at ==>
            m in bs.at && Sweep(bs, keys, now, window).at[m] == bs.at[m]
    decreases |keys|
  {
    hide OrderedDict.Valid, Stale;
    if keys != [] {
      SweepShrinks(if keys[0] in bs.at && Stale(bs.at[keys[0]], now, window) then bs.Remove(keys[0]) else bs,
                   keys[1..], now, window);
    }
  }

  lemma {:induction false} SweepRemovesStale(bs: Buckets, keys: seq<Key>, k: Key, now: real, window: real)
    requires k in keys && k in bs.at && Stale(bs.at[k], now, window)
    ensures k !in Sweep(bs, keys, now, window).at
    decreases |keys|
  {
    hide OrderedDict.Valid, Stale;
    if keys[0] == k {
      SweepShrinks(bs.Remove(k), keys[1..], now, window);
    } else if keys[0] in bs.at && Stale(bs.at[keys[0]], now, window) {
      SweepRemovesStale(bs.Remove(keys[0]), keys[1..], k, now, window);
    } else {
      SweepRemovesStale(bs, keys[1..], k, now, window);
    }
  }

  lemma {:induction false} SweepSparesOthers(bs: Buckets, keys: seq<Key>, k: Key, now: real, window: real)
    requires k in bs.at && !Stale(bs.at[k], now, window)
    ensures k in Sweep(bs, keys, now, window).at
    decreases |keys|
  {
    hide OrderedDict.Valid, Stale;
    if keys != [] {
      SweepSparesOthers(if keys[0] in bs.at && Stale(bs.at[keys[0]], now, window) then bs.Remove(keys[0]) else bs,
                        keys[1..], k, now, window);
    }
  }

  /** The sweep of a table takes exactly the buckets not touched for more than the window and more than
      a minute. */
  lemma SweptIff(bs: Buckets, k: Key, now: real, window: real)
    requires k in bs.at
    ensures k !in Sweep(bs, bs.order, now, window).at
            <==> now - bs.at[k].lastRefill > window && now - bs.at[k].lastRefill > 60.0
  {
    hide OrderedDict.Valid, Sweep;
    DictKeys(bs);
    if Stale(bs.at[k], now, window) {
      SweepRemovesStale(bs, bs.order, k, now, window);
    } else {
      SweepSparesOthers(bs, bs.order, k, now, window);
    }
  }

  /** Where the sweep does not make room, buckets go oldest first, one place below the cap being enough,
      and none goes that was touched later than one that stays. */
  lemma {:induction false} OldestGoFirst(bs: Buckets, x: Key, y: Key)
    ensures var r := DropOldest(bs);
            && |r.order| == (if |bs.order| < 5000 then |bs.order| else 4999)
            && (x in r.at && y in bs.at && y !in r.at ==> x in bs.at && bs.at[y].lastRefill <= bs.at[x].lastRefill)
    decreases |bs.order|
  {
    hide OrderedDict.Valid, Oldest;
    if |bs.order| >= MAX_BUCKETS {
      DictKeys(bs);
      DropOldestShrinks(bs);
      RemoveShrinks(bs, OldestOf(bs));
      OldestIsLeast(bs, x);
      DropOldestShrinks(bs.Remove(OldestOf(bs)));
      OldestGoFirst(bs.Remove(OldestOf(bs)), x, y);
    }
  }

  lemma OldestIsLeast(bs: Buckets, x: Key)
    requires bs.order != []
    ensures x in bs.at ==> bs.at[OldestOf(bs)].lastRefill <= bs.at[x].lastRefill
  {
    DictKeys(bs);
    if x in bs.at { assert bs.order[IndexOf(bs.order, x)] == x; }
  }

  lemma SweepShortens(bs: Buckets, now: real, window: real)
    ensures |Sweep(bs, bs.order, now, window).order| <= |bs.order|
  {
    hide OrderedDict.Valid, Sweep;
    var r := Sweep(bs, bs.order, now, window);
    SweepShrinks(bs, bs.order, now, window);
    DictKeys(bs);
    DictKeys(r);
    NoDupFits(r.order, bs.order);
  }

  /** No call, at any rate or time, takes the table past 5000 buckets. */
  lemma TableStaysBounded(bs: Buckets, k: Key, cap: real, refill: real, now: real)
    requires |bs.order| <= 5000
    ensures |CheckState(bs, k, cap, refill, now).order| <= 5000
  {
    hide OrderedDict.Valid, Sweep, DropOldest, Refilled, Spent;
    if cap > 0.0 && refill > 0.0 && |bs.order| >= MAX_BUCKETS {
      OldestGoFirst(Sweep(bs, bs.order, now, cap / refill), k, k);
      SweepShortens(bs, now, cap / refill);
    }
  }

  ghost predicate Crowd(p: Policy, keys: seq<Key>) {
    NoDup(keys) && |keys| == MAX_BUCKETS && forall x :: x in keys ==> p(x).Enabled()
  }

  /** A sweep that finds everything stale leaves nothing. */
  lemma AllSwept(bs: Buckets, now: real, window: real)
    requires forall x :: x in bs.at ==> Stale(bs.at[x], now, window)
    ensures Sweep(bs, bs.order, now, window) == Empty()
  {
    hide OrderedDict.Valid, Sweep, Stale;
    var r := Sweep(bs, bs.order, now, window);
    DictKeys(bs);
    SweepShrinks(bs, bs.order, now, window);
    forall x ensures x !in r.at {
      if x in r.at { SweepRemovesStale(bs, bs.order, x, now, window); }
    }
    NoKeys(r);
  }

  lemma NoKeys(d: Buckets)
    requires forall x :: x !in d.at
    ensures d == Empty()
  {
    assert d.at.Keys == {};
  }

  // A history from the empty table: the calls so far, and what both limiters hold after them.

  function AfterCalls(p: Policy, bs: Buckets, calls: seq<Call>): Buckets
    decreases |calls|
  {
    if calls == [] then bs else AfterCalls(p, Step(p, bs, calls[0]), calls[1..])
  }

  function RefAfter(p: Policy, u: map<Key, Bucket>, calls: seq<Call>): map<Key, Bucket>
    decreases |calls|
  {
    if calls == [] then u else RefAfter(p, RefStep(p, u, calls[0]), calls[1..])
  }

  function End(calls: seq<Call>, clock: real): real { if calls == [] then clock else calls[|calls| - 1].now }

  ghost predicate Reaches(p: Policy, calls: seq<Call>, bs: Buckets, u: map<Key, Bucket>, clock: real) {
    && Roomy(p, Empty(), calls, 0.0) && End(calls, 0.0) == clock
    && AfterCalls(p, Empty(), calls) == bs && RefAfter(p, map[], calls) == u
  }

  lemma {:induction false} AfterAppend(p: Policy, bs: Buckets, u: map<Key, Bucket>, xs: seq<Call>, ys: seq<Call>)
    ensures AfterCalls(p, bs, xs + ys) == AfterCalls(p, AfterCalls(p, bs, xs), ys)
    ensures RefAfter(p, u, xs + ys) == RefAfter(p, RefAfter(p, u, xs), ys)
    decreases |xs|
  {
    hide OrderedDict.Valid, Step, RefStep;
    if xs == [] {
      assert xs + ys == ys;
    } else {
      assert (xs + ys)[0] == xs[0] && (xs + ys)[1..] == xs[1..] + ys;
      AfterAppend(p, Step(p, bs, xs[0]), RefStep(p, u, xs[0]), xs[1..], ys);
    }
  }

  lemma {:induction false} AnswersAppend(p: Policy, bs: Buckets, u: map<Key, Bucket>, xs: seq<Call>, ys: seq<Call>)
    ensures Answers(p, bs, xs + ys) == Answers(p, bs, xs) + Answers(p, AfterCalls(p, bs, xs), ys)
    ensures RefAnswers(p, u, xs + ys) == RefAnswers(p, u, xs) + RefAnswers(p, RefAfter(p, u, xs), ys)
    ensures |Answers(p, bs, xs)| == |xs| == |RefAnswers(p, u, xs)|
    decreases |xs|
  {
    hide OrderedDict.Valid, Step, RefStep, Answer, RefAnswer;
    if xs == [] {
      assert xs + ys == ys;
    } else {
      assert (xs + ys)[0] == xs[0] && (xs + ys)[1..] == xs[1..] + ys;
      AnswersAppend(p, Step(p, bs, xs[0]), RefStep(p, u, xs[0]), xs[1..], ys);
    }
  }

  lemma {:induction false} RoomyAppend(p: Policy, bs: Buckets, xs: seq<Call>, ys: seq<Call>, clock: real)
    requires Roomy(p, bs, xs, clock) && Roomy(p, AfterCalls(p, bs, xs), ys, End(xs, clock))
    ensures Roomy(p, bs, xs + ys, clock)
    decreases |xs|
  {
    hide OrderedDict.Valid, Step, Sweep;
    if xs == [] {
      assert xs + ys == ys;
    } else {
      assert (xs + ys)[0] == xs[0] && (xs + ys)[1..] == xs[1..] + ys;
      assert End(xs, clock) == End(xs[1..], xs[0].now);
      RoomyAppend(p, Step(p, bs, xs[0]), xs[1..], ys, xs[0].now);
    }
  }

  lemma ReachesMore(p: Policy, calls: seq<Call>, bs: Buckets, u: map<Key, Bucket>, clock: real, more: seq<Call>)
    requires Reaches(p, calls, bs, u, clock) && Roomy(p, bs, more, clock)
    ensures Reaches(p, calls + more, AfterCalls(p, bs, more), RefAfter(p, u, more), End(more, clock))
  {
    hide OrderedDict.Valid, Step, RefStep, Sweep, Roomy, AfterCalls, RefAfter;
    AfterAppend(p, Empty(), map[], calls, more);
    RoomyAppend(p, Empty(), calls, more, 0.0);
    assert more == [] ==> calls + more == calls;
  }

  lemma OneCall(p: Policy, bs: Buckets, u: map<Key, Bucket>, c: Call)
    ensures AfterCalls(p, bs, [c]) == Step(p, bs, c) && RefAfter(p, u, [c]) == RefStep(p, u, c)
    ensures Answers(p, bs, [c]) == [Answer(p, bs, c)] && RefAnswers(p, u, [c]) == [RefAnswer(p, u, c)]
    ensures forall clock :: Roomy(p, bs, [c], clock) <==>
              clock <= c.now && (|bs.order| >= MAX_BUCKETS && p(c.k).Enabled() ==>
                                   |Sweep(bs, bs.order, c.now, p(c.k).Window()).order| < MAX_BUCKETS)
  {
    hide OrderedDict.Valid, Step, RefStep, Answer, RefAnswer, Sweep;
    assert [c][0] == c && [c][1..] == [];
  }

  lemma ReachesNext(p: Policy, calls: seq<Call>, bs: Buckets, u: map<Key, Bucket>, clock: real, c: Call)
    requires Reaches(p, calls, bs, u, clock) && Roomy(p, bs, [c], clock)
    ensures Reaches(p, calls + [c], Step(p, bs, c), RefStep(p, u, c), c.now)
  {
    hide OrderedDict.Valid, Step, RefStep, Answer, RefAnswer, Sweep, Roomy, AfterCalls, RefAfter;
    OneCall(p, bs, u, c);
    ReachesMore(p, calls, bs, u, clock, [c]);
  }

  /** The table that holds one bucket. */
  function Single(m: Key, b: Bucket): (bs: Buckets)
    ensures bs.order == [m] && bs.at == map[m := b]
  {
    assert [m][0] == m;
    Empty().Put(m, b)
  }

  /** A call of the only key held. */
  lemma LoneCall(p: Policy, m: Key, b: Bucket, now: real)
    requires p(m).Enabled()
    ensures var c, b' := Call(m, now), Spent(Refilled(Some(b), p(m).cap, p(m).refill, now));
            && Step(p, Single(m, b), c) == Single(m, b') && RefStep(p, Single(m, b).at, c) == Single(m, b').at
    ensures forall clock :: clock <= now ==> Roomy(p, Single(m, b), [Call(m, now)], clock)
  {
    hide OrderedDict.Valid, Refilled, Spent, Sweep, Single, Roomy;
    OneCall(p, Single(m, b), Single(m, b).at, Call(m, now));
    NoEviction(Single(m, b), now, p(m).Window());
  }

  lemma FirstEver(p: Policy, m: Key, now: real)
    requires p(m).Enabled() && p(m).cap >= 1.0 && now >= 0.0
    ensures var b := Bucket(p(m).cap - 1.0, now);
            Reaches(p, [Call(m, now)], Single(m, b), Single(m, b).at, now)
  {
    hide OrderedDict.Valid, Sweep;
    OneCall(p, Empty(), map[], Call(m, now));
  }

  /** Calls of m at one time leave it less than a token. */
  lemma {:induction false} Drain(p: Policy, calls: seq<Call>, m: Key, b: Bucket)
    returns (more: seq<Call>, rest: Bucket)
    requires p(m).Enabled() && p(m).cap >= 1.0 && 0.0 <= b.tokens <= p(m).cap
    requires Reaches(p, calls, Single(m, b), Single(m, b).at, b.lastRefill)
    ensures 0.0 <= rest.tokens < 1.0 && rest.lastRefill == b.lastRefill
    ensures Reaches(p, more, Single(m, rest), Single(m, rest).at, rest.lastRefill)
    decreases b.tokens.Floor
  {
    hide OrderedDict.Valid, Step, RefStep, Sweep, Roomy, Reaches, Single;
    if b.tokens < 1.0 {
      more, rest := calls, b;
    } else {
      var c := Call(m, b.lastRefill);
      LoneCall(p, m, b, b.lastRefill);
      NoGain(b.lastRefill - b.lastRefill, p(m).refill);
      ReachesNext(p, calls, Single(m, b), Single(m, b).at, b.lastRefill, c);
      more, rest := Drain(p, calls + [c], m, b.(tokens := b.tokens - 1.0));
    }
  }

  /** A call at the moment the balance reaches one token leaves exactly nothing. */
  lemma SpendLast(p: Policy, calls: seq<Call>, m: Key, b: Bucket) returns (more: seq<Call>, at: real)
    requires p(m).Enabled() && p(m).cap >= 1.0 && 0.0 <= b.tokens < 1.0
    requires Reaches(p, calls, Single(m, b), Single(m, b).at, b.lastRefill)
    ensures Reaches(p, more, Single(m, Bucket(0.0, at)), Single(m, Bucket(0.0, at)).at, at)
  {
    hide OrderedDict.Valid, Step, RefStep, Sweep, Roomy, Reaches, Single;
    var wait := (1.0 - b.tokens) / p(m).refill;
    assert Gain(wait, p(m).refill) == 1.0 - b.tokens;
    at := b.lastRefill + wait;
    assert at - b.lastRefill == wait;
    LoneCall(p, m, b, at);
    ReachesNext(p, calls, Single(m, b), Single(m, b).at, b.lastRefill, Call(m, at));
    more := calls + [Call(m, at)];
  }

  /** m's bucket alone in the table, and empty. */
  lemma Emptied(p: Policy, m: Key) returns (calls: seq<Call>, at: real)
    requires p(m).Enabled() && p(m).cap >= 1.0
    ensures Reaches(p, calls, Single(m, Bucket(0.0, at)), Single(m, Bucket(0.0, at)).at, at)
  {
    hide OrderedDict.Valid, Step, RefStep, Sweep, Roomy, Reaches, Single;
    FirstEver(p, m, 0.0);
    var drained, rest := Drain(p, [Call(m, 0.0)], m, Bucket(p(m).cap - 1.0, 0.0));
    calls, at := SpendLast(p, drained, m, rest);
  }

  /** Every key calls once. */
  function Each(keys: seq<Key>, now: real): (r: seq<Call>)
    ensures |r| == |keys|
  {
    seq(|keys|, i requires 0 <= i < |keys| => Call(keys[i], now))
  }

  /** A first call with room left appends the key and agrees with the unbounded limiter. */
  lemma NewKeyCall(p: Policy, bs: Buckets, x: Key, now: real)
    requires p(x).Enabled() && x !in bs.at && |bs.order| < MAX_BUCKETS
    ensures var c, b := Call(x, now), Spent(Bucket(p(x).cap, now));
            && Step(p, bs, c).order == bs.order + [x] && Step(p, bs, c).at == bs.at[x := b]
            && RefStep(p, bs.at, c) == bs.at[x := b]
    ensures forall clock :: clock <= now ==> Roomy(p, bs, [Call(x, now)], clock)
  {
    hide OrderedDict.Valid, Spent, Sweep, Roomy;
    OneCall(p, bs, bs.at, Call(x, now));
    NoEviction(bs, now, p(x).Window());
  }

  /** What a crowd of first calls leaves: buckets held before as they were, then one spent one each. */
  ghost predicate Joined(p: Policy, bs: Buckets, keys: seq<Key>, now: real, r: Buckets) {
    && r.order == bs.order + keys
    && (forall x :: x in r.at <==> x in bs.at || x in keys)
    && (forall x :: x in bs.at ==> r.at[x] == bs.at[x])
    && (forall x :: x in keys ==> x in r.at && r.at[x] == Spent(Bucket(p(x).cap, now)))
  }

  lemma {:induction false} EachJoins(p: Policy, calls: seq<Call>, bs: Buckets, keys: seq<Key>, now: real)
    returns (r: Buckets)
    requires Reaches(p, calls, bs, bs.at, now)
    requires NoDup(keys) && |bs.order| + |keys| <= MAX_BUCKETS
    requires forall x :: x in keys ==> p(x).Enabled() && x !in bs.at
    ensures Reaches(p, calls + Each(keys, now), r, r.at, now) && Joined(p, bs, keys, now, r)
    decreases |keys|
  {
    hide OrderedDict.Valid, Step, RefStep, Sweep, Roomy, Reaches, Spent;
    if keys == [] {
      assert calls + Each(keys, now) == calls;
      r := bs;
    } else {
      var c := Call(keys[0], now);
      NewKeyCall(p, bs, keys[0], now);
      ReachesNext(p, calls, bs, bs.at, now, c);
      assert calls + Each(keys, now) == calls + [c] + Each(keys[1..], now);
      r := EachJoins(p, calls + [c], Step(p, bs, c), keys[1..], now);
      JoinedMore(p, bs, Step(p, bs, c), keys, now, r);
    }
  }

  lemma JoinedMore(p: Policy, bs: Buckets, next: Buckets, keys: seq<Key>, now: real, r: Buckets)
    requires keys != [] && keys[0] !in bs.at && NoDup(keys)
    requires next.order == bs.order + [keys[0]] && next.at == bs.at[keys[0] := Spent(Bucket(p(keys[0]).cap, now))]
    requires Joined(p, next, keys[1..], now, r)
    ensures Joined(p, bs, keys, now, r)
  {
    hide OrderedDict.Valid, Spent;
    assert keys == [keys[0]] + keys[1..];
    assert forall x :: x in keys <==> x == keys[0] || x in keys[1..];
  }

  /** k's call sweeps a full table of equally old buckets, so m would get a new full bucket where the
      unbounded limiter knows better. */
  lemma SweptBehindM(p: Policy, k: Key, m: Key, bs: Buckets, since: real, now: real)
    requires p(k).Enabled() && k != m && m in bs.at && |bs.order| == MAX_BUCKETS
    requires forall x :: x in bs.at ==> bs.at[x].lastRefill == since
    requires now - since > Max(p(k).Window(), 60.0)
    ensures var c := Call(k, now);
            && Roomy(p, bs, [c], since)
            && |Step(p, bs, c).order| == 1 && m !in Step(p, bs, c).at
            && m in RefStep(p, bs.at, c) && RefStep(p, bs.at, c)[m] == bs.at[m]
  {
    hide OrderedDict.Valid, Sweep, Refilled, Spent, Roomy;
    AllSwept(bs, now, p(k).Window());
    OneCall(p, bs, bs.at, Call(k, now));
  }

  function Repeat(c: Call, n: nat): seq<Call> { if n == 0 then [] else [c] + Repeat(c, n - 1) }

  predicate HasRoom(bs: Buckets, m: Key) { (if m in bs.at then |bs.order| else |bs.order| + 1) < MAX_BUCKETS }

  /** Tokens a call would find. */
  function Tokens(p: Policy, at: map<Key, Bucket>, m: Key, now: real): real {
    Refilled(Lookup(at, m), p(m).cap, p(m).refill, now).tokens
  }

  lemma JudgesDiffer(a: Bucket, b: Bucket, refill: real)
    requires refill > 0.0 && a.tokens > b.tokens && b.tokens < 1.0
    ensures Judge(a, refill) != Judge(b, refill)
  {
    if a.tokens < 1.0 {
      var x, y := (1.0 - a.tokens) / refill, (1.0 - b.tokens) / refill;
      assert x * refill == 1.0 - a.tokens && y * refill == 1.0 - b.tokens;
      assert x > 0.0 && y > 0.0 && x != y;
    }
  }

  lemma SpentTokens(b: Option<Bucket>, cap: real, refill: real, now: real)
    ensures var r := Refilled(b, cap, refill, now);
            r.tokens >= 1.0 && r.tokens <= cap ==> Refilled(Some(Spent(r)), cap, refill, now).tokens == r.tokens - 1.0
  {
    hide Gain;
    NoGain(now - Refilled(b, cap, refill, now).lastRefill, refill);
  }

  lemma NoGain(elapsed: real, refill: real)
    requires elapsed == 0.0
    ensures Gain(elapsed, refill) == 0.0
  {
  }

  lemma RefilledWithin(b: Option<Bucket>, cap: real, refill: real, now: real)
    ensures Refilled(b, cap, refill, now).tokens <= cap
  {
  }

  /** A call in a table with room touches m's bucket only. */
  lemma RoomyStep(p: Policy, bs: Buckets, m: Key, now: real)
    requires p(m).Enabled() && HasRoom(bs, m)
    ensures var c, b := Call(m, now), Refilled(Lookup(bs.at, m), p(m).cap, p(m).refill, now);
            && Step(p, bs, c).at == bs.at[m := Spent(b)] && HasRoom(Step(p, bs, c), m)
            && Answer(p, bs, c) == Judge(b, p(m).refill)
  {
    hide OrderedDict.Valid, EvictStale, Refilled, Spent, Judge;
    NoEviction(bs, now, p(m).Window());
  }

  lemma SpendOne(p: Policy, bs: Buckets, u: map<Key, Bucket>, m: Key, now: real)
    requires p(m).Enabled() && HasRoom(bs, m)
    ensures var c := Call(m, now);
            && HasRoom(Step(p, bs, c), m)
            && Answer(p, bs, c) == Judge(Refilled(Lookup(bs.at, m), p(m).cap, p(m).refill, now), p(m).refill)
            && (Tokens(p, bs.at, m, now) >= 1.0 ==>
                  Tokens(p, Step(p, bs, c).at, m, now) == Tokens(p, bs.at, m, now) - 1.0)
            && (Tokens(p, u, m, now) >= 1.0 ==> Tokens(p, RefStep(p, u, c), m, now) == Tokens(p, u, m, now) - 1.0)
  {
    hide OrderedDict.Valid, Step, Answer, HasRoom, Refilled, Spent, Judge;
    RoomyStep(p, bs, m, now);
    SpentTokens(Lookup(bs.at, m), p(m).cap, p(m).refill, now);
    SpentTokens(Lookup(u, m), p(m).cap, p(m).refill, now);
    RefilledWithin(Lookup(bs.at, m), p(m).cap, p(m).refill, now);
    RefilledWithin(Lookup(u, m), p(m).cap, p(m).refill, now);
  }

  /** Two limiters that see different balances of m are told apart by a burst of its calls. */
  lemma {:induction false} BurstTells(p: Policy, bs: Buckets, u: map<Key, Bucket>, m: Key, now: real) returns (n: nat)
    requires p(m).Enabled() && HasRoom(bs, m)
    requires Tokens(p, bs.at, m, now) > Tokens(p, u, m, now) >= 0.0
    ensures Roomy(p, bs, Repeat(Call(m, now), n), now)
    ensures Answers(p, bs, Repeat(Call(m, now), n)) != RefAnswers(p, u, Repeat(Call(m, now), n))
    decreases Tokens(p, u, m, now).Floor
  {
    hide OrderedDict.Valid, Refilled, Judge, Step, RefStep, Answer;
    var c := Call(m, now);
    SpendOne(p, bs, u, m, now);
    if Tokens(p, u, m, now) < 1.0 {
      n := 1;
      JudgesDiffer(Refilled(Lookup(bs.at, m), p(m).cap, p(m).refill, now),
                   Refilled(Lookup(u, m), p(m).cap, p(m).refill, now), p(m).refill);
      assert Repeat(c, 1) == [c] && [c][1..] == [];
      assert Answers(p, bs, [c])[0] != RefAnswers(p, u, [c])[0];
    } else {
      var rest := BurstTells(p, Step(p, bs, c), RefStep(p, u, c), m, now);
      n := rest + 1;
      var more := Repeat(c, rest);
      assert Repeat(c, n)[0] == c && Repeat(c, n)[1..] == more;
      TailsTell(p, bs, u, c, more);
    }
  }

  lemma TailsTell(p: Policy, bs: Buckets, u: map<Key, Bucket>, c: Call, more: seq<Call>)
    requires Answers(p, Step(p, bs, c), more) != RefAnswers(p, RefStep(p, u, c), more)
    ensures Answers(p, bs, [c] + more) != RefAnswers(p, u, [c] + more)
  {
    hide OrderedDict.Valid, Step, RefStep, Answer, RefAnswer;
    assert ([c] + more)[0] == c && ([c] + more)[1..] == more;
    assert Answers(p, bs, [c] + more)[1..] == Answers(p, Step(p, bs, c), more);
    assert RefAnswers(p, u, [c] + more)[1..] == RefAnswers(p, RefStep(p, u, c), more);
  }

  /** No run from the empty table, however long, tells the limiter from one that forgets nothing, as
      long as sweeps make room. */
  ghost predicate Invisible(p: Policy) {
    forall calls: seq<Call>, clock: real ::
      Roomy(p, Empty(), calls, clock) ==> Answers(p, Empty(), calls) == RefAnswers(p, map[], calls)
  }

  lemma Told(p: Policy, calls: seq<Call>, bs: Buckets, u: map<Key, Bucket>, clock: real, more: seq<Call>)
    requires Reaches(p, calls, bs, u, clock) && Roomy(p, bs, more, clock)
    requires Answers(p, bs, more) != RefAnswers(p, u, more)
    ensures Roomy(p, Empty(), calls + more, 0.0)
    ensures Answers(p, Empty(), calls + more) != RefAnswers(p, map[], calls + more)
  {
    hide OrderedDict.Valid, Roomy, Answers, RefAnswers, AfterCalls, RefAfter;
    AnswersAppend(p, Empty(), map[], calls, more);
    RoomyAppend(p, Empty(), calls, more, 0.0);
    assert (Answers(p, Empty(), calls) + Answers(p, bs, more))[|calls|..] == Answers(p, bs, more);
    assert (RefAnswers(p, map[], calls) + RefAnswers(p, u, more))[|calls|..] == RefAnswers(p, u, more);
  }

  lemma FreshTokens(p: Policy, k: Key, m: Key, at: map<Key, Bucket>, u: map<Key, Bucket>, since: real, elapsed: real)
    requires TooEarly(p, k, m, elapsed) && m !in at && m in u && u[m] == Bucket(0.0, since)
    ensures Tokens(p, at, m, since + elapsed) > Tokens(p, u, m, since + elapsed) >= 0.0
  {
    NonNegProduct(elapsed, p(m).refill);
    assert since + elapsed - since == elapsed;
  }

  /** m empties its bucket, a crowd fills the table, k's call comes too early and sweeps it, and a burst
      of m's calls is answered otherwise than by the unbounded limiter. */
  lemma UnsafeIsVisible(p: Policy, k: Key, m: Key, keys: seq<Key>, elapsed: real) returns (calls: seq<Call>)
    requires TooEarly(p, k, m, elapsed) && Crowd(p, keys) && m in keys
    ensures Roomy(p, Empty(), calls, 0.0) && Answers(p, Empty(), calls) != RefAnswers(p, map[], calls)
  {
    hide OrderedDict.Valid, Step, RefStep, Answer, RefAnswer, Tokens, Sweep, Roomy, Reaches, NoDup, Without, Single;
    var emptied, since := Emptied(p, m);
    var others := Without(keys, m);
    CrowdWithout(p, keys, m);
    var full := EachJoins(p, emptied, Single(m, Bucket(0.0, since)), others, since);
    var now, before := since + elapsed, emptied + Each(others, since);
    var c := Call(k, now);
    SweptBehindM(p, k, m, full, since, now);
    ReachesNext(p, before, full, full.at, since, c);
    var bs, u := Step(p, full, c), RefStep(p, full.at, c);
    FreshTokens(p, k, m, bs.at, u, since, elapsed);
    var n := BurstTells(p, bs, u, m, now);
    Told(p, before + [c], bs, u, now, Repeat(Call(m, now), n));
    calls := before + [c] + Repeat(Call(m, now), n);
  }

  lemma CrowdWithout(p: Policy, keys: seq<Key>, m: Key)
    requires Crowd(p, keys) && m in keys
    ensures NoDup(Without(keys, m)) && |Without(keys, m)| == MAX_BUCKETS - 1
    ensures forall x :: x in Without(keys, m) ==> p(x).Enabled() && x != m
  {
    WithoutElems(keys, m);
    forall x | x in Without(keys, m) ensures p(x).Enabled() && x != m {
      assert x in Elems(Without(keys, m));
    }
  }

  /** For a policy that enables enough keys to fill the table, eviction is invisible from the empty
      table on exactly when the sweep windows are safe. */
  lemma EvictionInvisibleIff(p: Policy, keys: seq<Key>)
    requires Crowd(p, keys)
    ensures Invisible(p) <==> SweepSafe(p)
  {
    hide OrderedDict.Valid, Roomy, Answers, RefAnswers;
    if SweepSafe(p) {
      forall calls: seq<Call>, clock: real | Roomy(p, Empty(), calls, clock)
        ensures Answers(p, Empty(), calls) == RefAnswers(p, map[], calls)
      {
        InvisibleFromEmpty(p, calls, clock);
      }
    } else {
      var k, m :|
        p(k).Enabled() && p(m).Enabled() && p(m).cap >= 1.0 && p(m).Window() > Max(p(k).Window(), 60.0);
      var elapsed := UnsafePairTooEarly(p, k, m);
      var crowd := CrowdWith(p, keys, m);
      var calls := UnsafeIsVisible(p, k, m, crowd, elapsed);
    }
  }

  lemma CrowdWith(p: Policy, keys: seq<Key>, m: Key) returns (crowd: seq<Key>)
    requires Crowd(p, keys) && p(m).Enabled()
    ensures Crowd(p, crowd) && m in crowd
  {
    crowd := keys;
    if m !in keys {
      crowd := keys[0 := m];
      assert crowd[0] == m;
      assert forall i :: 0 < i < |crowd| ==> crowd[i] == keys[i] && keys[i] in keys;
    }
  }

  /** The difference can be an admission. A crowd calls once each; after a time in which m's balance
      stays below a token but k's window passes, k's call and then m's are answered yes by the bounded
      limiter, and m's is answered no by the unbounded one. */
  lemma AdmittedTooEarly(p: Policy, k: Key, m: Key, keys: seq<Key>, elapsed: real)
    requires Crowd(p, keys) && m in keys && p(k).Enabled() && k != m
    requires Max(p(k).Window(), 60.0) < elapsed
    requires p(m).cap >= 1.0 && p(m).cap - 1.0 + elapsed * p(m).refill < 1.0
    ensures var calls := Each(keys, 0.0) + [Call(k, elapsed)] + [Call(m, elapsed)];
            && |calls| == MAX_BUCKETS + 2 && Roomy(p, Empty(), calls, 0.0)
            && |Answers(p, Empty(), calls)| == |RefAnswers(p, map[], calls)| == |calls|
            && Answers(p, Empty(), calls)[MAX_BUCKETS + 1].allowed
            && !RefAnswers(p, map[], calls)[MAX_BUCKETS + 1].allowed
  {
    hide OrderedDict.Valid, Step, RefStep, Answer, RefAnswer, Tokens, Sweep, Roomy, Reaches, NoDup, Answers,
         RefAnswers, Each;
    StartsEmpty(p);
    var full := EachJoins(p, [], Empty(), keys, 0.0);
    var each, c, d := Each(keys, 0.0), Call(k, elapsed), Call(m, elapsed);
    assert [] + each == each;
    SweptBehindM(p, k, m, full, 0.0, elapsed);
    ReachesNext(p, each, full, full.at, 0.0, c);
    var bs, u := Step(p, full, c), RefStep(p, full.at, c);
    SpentOnce(p, m, bs.at, u, elapsed);
    FirstCall(p, bs, u, d);
    LastAnswers(p, each + [c], bs, u, elapsed, d);
  }

  lemma StartsEmpty(p: Policy)
    ensures Reaches(p, [], Empty(), map[], 0.0) && Empty<Key, Bucket>().at == map[]
  {
  }

  lemma SpentOnce(p: Policy, m: Key, at: map<Key, Bucket>, u: map<Key, Bucket>, elapsed: real)
    requires p(m).cap >= 1.0 && m !in at && m in u && u[m] == Spent(Bucket(p(m).cap, 0.0))
    requires p(m).cap - 1.0 + elapsed * p(m).refill < 1.0
    ensures Tokens(p, at, m, elapsed) >= 1.0 > Tokens(p, u, m, elapsed)
  {
  }

  lemma LastAnswers(p: Policy, calls: seq<Call>, bs: Buckets, u: map<Key, Bucket>, clock: real, d: Call)
    requires Reaches(p, calls, bs, u, clock) && Roomy(p, bs, [d], clock)
    ensures Roomy(p, Empty(), calls + [d], 0.0)
    ensures |Answers(p, Empty(), calls + [d])| == |RefAnswers(p, map[], calls + [d])| == |calls| + 1
    ensures Answers(p, Empty(), calls + [d])[|calls|] == Answer(p, bs, d)
    ensures RefAnswers(p, map[], calls + [d])[|calls|] == RefAnswer(p, u, d)
  {
    hide OrderedDict.Valid, Step, RefStep, Answer, RefAnswer, Sweep, Roomy, Answers, RefAnswers, AfterCalls, RefAfter;
    AnswersAppend(p, Empty(), map[], calls, [d]);
    RoomyAppend(p, Empty(), calls, [d], 0.0);
    OneCall(p, bs, u, d);
  }

  /** For instance: everybody has 6 tokens at one per four seconds, but user 0 a single token per 100
      seconds. After 5000 users called once, user 1's call a minute later lets user 0 spend a second
      token after 61 seconds. */
  lemma SlowUserAdmittedTooEarly(p: Policy, keys: seq<Key>)
    requires forall x :: p(x) == if x.0 == 0 then Rate(1.0, 0.01) else Rate(6.0, 0.25)
    requires keys == seq(5000, i => (i, "llm"))
    ensures var calls := Each(keys, 0.0) + [Call((1, "llm"), 61.0)] + [Call((0, "llm"), 61.0)];
            && |calls| == 5002 && Roomy(p, Empty(), calls, 0.0)
            && |Answers(p, Empty(), calls)| == |RefAnswers(p, map[], calls)| == |calls|
            && Answers(p, Empty(), calls)[5001].allowed
            && !RefAnswers(p, map[], calls)[5001].allowed
  {
    hide OrderedDict.Valid, Sweep, Roomy, Each, Answers, RefAnswers;
    assert keys[0] == (0, "llm");
    AdmittedTooEarly(p, (1, "llm"), (0, "llm"), keys, 61.0);
  }

  /** A key that holds less than a token is swept unnoticed however slowly it refills. */
  lemma FractionalKeyIsSafe(p: Policy)
    requires forall x :: p(x) == if x.0 == 0 then Rate(0.5, 0.001) else Rate(6.0, 0.25)
    ensures Invisible(p) && p((0, "llm")).Window() > Max(p((1, "llm")).Window(), 60.0)
  {
    hide OrderedDict.Valid, Sweep, Roomy, Answers, RefAnswers;
    forall calls: seq<Call>, clock: real | Roomy(p, Empty(), calls, clock)
      ensures Answers(p, Empty(), calls) == RefAnswers(p, map[], calls)
    {
      InvisibleFromEmpty(p, calls, clock);
    }
  }

  lemma FirstCall(p: Policy, bs: Buckets, u: map<Key, Bucket>, d: Call)
    requires p(d.k).Enabled() && HasRoom(bs, d.k)
    ensures Answer(p, bs, d).allowed <==> Tokens(p, bs.at, d.k, d.now) >= 1.0
    ensures RefAnswer(p, u, d).allowed <==> Tokens(p, u, d.k, d.now) >= 1.0
    ensures Roomy(p, bs, [d], d.now)
  {
    hide OrderedDict.Valid, Step, Answer, Refilled, Judge, Tokens;
    RoomyStep(p, bs, d.k, d.now);
    TokensDecide(p, bs.at, d.k, d.now);
    TokensDecide(p, u, d.k, d.now);
  }

  lemma TokensDecide(p: Policy, at: map<Key, Bucket>, m: Key, now: real)
    requires p(m).Enabled()
    ensures Judge(Refilled(Lookup(at, m), p(m).cap, p(m).refill, now), p(m).refill).allowed
            <==> Tokens(p, at, m, now) >= 1.0
  {
  }

  // ----- retry_after -------------------------------------------------------

  /** A call of some key at any rate. */
  datatype Request = Request(k: Key, cap: real, refill: real, now: real)

  function AfterAll(bs: Buckets, rs: seq<Request>): Buckets
    decreases |rs|
  {
    if rs == [] then bs else AfterAll(CheckState(bs, rs[0].k, rs[0].cap, rs[0].refill, rs[0].now), rs[1..])
  }

  lemma {:induction false} DropOldestShrinks(bs: Buckets)
    ensures forall m :: m in DropOldest(bs).at ==> m in bs.at && DropOldest(bs).at[m] == bs.at[m]
    decreases |bs.order|
  {
    hide OrderedDict.Valid;
    if |bs.order| >= MAX_BUCKETS {
      RemoveShrinks(bs, OldestOf(bs));
      DropOldestShrinks(bs.Remove(OldestOf(bs)));
    }
  }

  /** Eviction drops buckets and never changes one. */
  lemma EvictShrinks(bs: Buckets, now: real, window: real)
    ensures var e := EvictStale(bs, now, window);
            forall m :: m in e.at ==> m in bs.at && e.at[m] == bs.at[m]
  {
    hide OrderedDict.Valid, Sweep, DropOldest;
    SweepShrinks(bs, bs.order, now, window);
    DropOldestShrinks(Sweep(bs, bs.order, now, window));
  }

  /** Calls of other keys, at any rates and times, leave k's bucket alone or drop it. */
  lemma {:induction false} OthersKeepOrDrop(bs: Buckets, rs: seq<Request>, k: Key)
    requires forall i :: 0 <= i < |rs| ==> rs[i].k != k
    ensures k in AfterAll(bs, rs).at ==> k in bs.at && AfterAll(bs, rs).at[k] == bs.at[k]
    decreases |rs|
  {
    hide OrderedDict.Valid, EvictStale, Refilled, Spent;
    if rs != [] {
      var r := rs[0];
      if r.cap > 0.0 && r.refill > 0.0 { EvictShrinks(bs, r.now, r.cap / r.refill); }
      OthersKeepOrDrop(CheckState(bs, r.k, r.cap, r.refill, r.now), rs[1..], k);
    }
  }

  /** A denied caller that waits is admitted, whatever other callers do meanwhile and however full the
      table is, exactly when its capacity is at least one token and it has waited the quoted
      retry_after, unless its bucket was evicted, which only admits it sooner. */
  lemma RetryAfterIsHonoured(bs: Buckets, k: Key, rate: Rate, now: real, others: seq<Request>, wait: real)
    requires rate.Enabled() && wait >= 0.0
    requires !CheckVerdict(bs, k, rate.cap, rate.refill, now).allowed
    requires forall i :: 0 <= i < |others| ==> others[i].k != k
    ensures var quoted := CheckVerdict(bs, k, rate.cap, rate.refill, now).retryAfter;
            var later := AfterAll(CheckState(bs, k, rate.cap, rate.refill, now), others);
            var admitted := CheckVerdict(later, k, rate.cap, rate.refill, now + wait).allowed;
            var evicted := k !in EvictStale(later, now + wait, rate.cap / rate.refill).at;
            && (admitted <==> rate.cap >= 1.0 && (wait >= quoted || evicted))
            && (rate.cap >= 1.0 && wait >= quoted ==> admitted)
  {
    hide OrderedDict.Valid, OrderedDict.Put, EvictStale, AfterAll;
    var window := rate.cap / rate.refill;
    var denied := CheckState(bs, k, rate.cap, rate.refill, now);
    var later := AfterAll(denied, others);
    OthersKeepOrDrop(denied, others, k);
    EvictShrinks(later, now + wait, window);
    var b := Refilled(Lookup(EvictStale(bs, now, window).at, k), rate.cap, rate.refill, now);
    WaitedEnough(b, rate, now, wait);
  }

  /** A refilled but denied bucket has a token after a wait exactly from its quote on. */
  lemma WaitedEnough(b: Bucket, rate: Rate, now: real, wait: real)
    requires rate.Enabled() && wait >= 0.0 && b.lastRefill == now && b.tokens < 1.0
    ensures Judge(Refilled(Some(Spent(b)), rate.cap, rate.refill, now + wait), rate.refill).allowed
            <==> rate.cap >= 1.0 && wait >= Judge(b, rate.refill).retryAfter
  {
    var q := (1.0 - b.tokens) / rate.refill;
    assert q * rate.refill == 1.0 - b.tokens;
    assert now + wait - b.lastRefill == wait;
    if wait >= q { MulMonotone(q, wait, rate.refill); } else { MulStrict(wait, q, rate.refill); }
  }

  /** In a table with room nothing is evicted, so without other calls the quote is exact. */
  lemma RetryAfterIsExact(bs: Buckets, k: Key, rate: Rate, now: real, wait: real)
    requires rate.Enabled() && wait >= 0.0
    requires |CheckState(bs, k, rate.cap, rate.refill, now).order| < 5000
    requires !CheckVerdict(bs, k, rate.cap, rate.refill, now).allowed
    ensures var quoted := CheckVerdict(bs, k, rate.cap, rate.refill, now).retryAfter;
            CheckVerdict(CheckState(bs, k, rate.cap, rate.refill, now), k, rate.cap, rate.refill, now + wait).allowed
            <==> wait >= quoted && rate.cap >= 1.0
  {
    hide OrderedDict.Valid, EvictStale, Judge;
    RetryAfterIsHonoured(bs, k, rate, now, [], wait);
    NoEviction(CheckState(bs, k, rate.cap, rate.refill, now), now + wait, rate.cap / rate.refill);
  }

  lemma NoEviction(bs: Buckets, now: real, window: real)
    requires |bs.order| < MAX_BUCKETS
    ensures EvictStale(bs, now, window) == bs
  {
  }

  lemma MulStrict(a: real, b: real, r: real)
    requires a < b && r > 0.0
    ensures a * r < b * r
  {
    assert (b - a) * r > 0.0;
  }
}
