/** The hardened HTTP session's per-host state: a weight token bucket and a challenge breaker. */
module HttpSession {
  import opened OrderedDicts
  import opened Reals
  import opened Breakers

  datatype Config = Config(rate: real, burst: real, maxWait: real, breaker: Breakers.Config)

  datatype Bucket = Bucket(tokens: real, lastRefill: real)

  /** The weight a call of the given cost needs. */
  function Need(cfg: Config, cost: real): real { Max(1.0, Min(cost, cfg.burst)) }

  /** A call needs its cost, but at least one token and at most what the burst can ever hold. */
  lemma NeedCases(cfg: Config, cost: real)
    ensures 1.0 <= cost <= cfg.burst ==> Need(cfg, cost) == cost
    ensures cost > cfg.burst >= 1.0 ==> Need(cfg, cost) == cfg.burst
    ensures cost < 1.0 || cfg.burst < 1.0 ==> Need(cfg, cost) == 1.0
  {
  }

  function BucketAt(bs: map<string, Bucket>, host: string): Option<Bucket> {
    if host in bs then Some(bs[host]) else None
  }

  /** The tokens a host has at `now`; an unknown host has a full burst. */
  function Avail(cfg: Config, b: Option<Bucket>, now: real): real {
    match b
    case None => cfg.burst
    case Some(o) => Min(cfg.burst, o.tokens + Max(0.0, now - o.lastRefill) * cfg.rate)
  }

  /** One pass through the locked section. */
  function Attempt(cfg: Config, b: Option<Bucket>, need: real, now: real): (Bucket, bool) {
    var tokens := Avail(cfg, b, now);
    if tokens >= need then (Bucket(tokens - need, now), true) else (Bucket(tokens, now), false)
  }

  /** How long the weight missing from a balance takes to refill. */
  function Missing(cfg: Config, need: real, tokens: real): real
    requires cfg.rate > 0.0
  {
    (need - tokens) / cfg.rate
  }

  /** When the missing weight will have been refilled. */
  function Wait(cfg: Config, b: Option<Bucket>, need: real, now: real): real
    requires cfg.rate > 0.0
  {
    Missing(cfg, need, Avail(cfg, b, now))
  }

  lemma NonNeg(a: real, b: real)
    requires a >= 0.0 && b >= 0.0
    ensures a * b >= 0.0
  {
  }

  lemma Quotient(a: real, r: real, q: real)
    requires r > 0.0
    ensures (a / r) * r == a
    ensures q * r == a ==> a / r == q
  {
  }

  lemma Refill(tokens: real, need: real, rate: real, slept: real, wait: real)
    requires rate > 0.0 && wait * rate == need - tokens
    ensures slept >= wait <==> tokens + slept * rate >= need
    ensures (wait - slept) * rate == need - (tokens + slept * rate)
  {
    var d := slept - wait;
    assert d * rate == slept * rate - wait * rate;
    if d >= 0.0 { NonNeg(d, rate); } else { assert (-d) * rate > 0.0; }
  }

  lemma SleepProgress(cfg: Config, b: Bucket, need: real, slept: real, wait: real)
    requires cfg.rate > 0.0 && b.tokens < need <= cfg.burst && slept >= 0.0
    requires wait == (need - b.tokens) / cfg.rate
    ensures slept >= wait ==> Avail(cfg, Some(b), b.lastRefill + slept) >= need
    ensures slept < wait ==>
              && Avail(cfg, Some(b), b.lastRefill + slept) == b.tokens + slept * cfg.rate < need
              && (need - Avail(cfg, Some(b), b.lastRefill + slept)) / cfg.rate == wait - slept
  {
    Quotient(need - b.tokens, cfg.rate, wait);
    Refill(b.tokens, need, cfg.rate, slept, wait);
    var now := b.lastRefill + slept;
    assert Max(0.0, now - b.lastRefill) == slept;
    var gain := slept * cfg.rate;
    assert Avail(cfg, Some(b), now) == Min(cfg.burst, b.tokens + gain);
    Quotient(need - (b.tokens + gain), cfg.rate, wait - slept);
  }

  class Session {
    const cfg: Config
    var buckets: map<string, Bucket>
    var breakers: map<string, Breaker>

    constructor (cfg: Config)
      ensures this.cfg == cfg && buckets == map[] && breakers == map[]
    {
      this.cfg, buckets, breakers := cfg, map[], map[];
    }

    method TryAttempt(host: string, need: real, now: real) returns (granted: bool)
      modifies this`buckets
      ensures var a := Attempt(cfg, BucketAt(old(buckets), host), need, now);
              buckets == old(buckets)[host := a.0] && granted == a.1
    {
      var state := if host in buckets then buckets[host] else Bucket(cfg.burst, now);
      var elapsed := Max(0.0, now - state.lastRefill);
      state := Bucket(Min(cfg.burst, state.tokens + elapsed * cfg.rate), now);
      granted := state.tokens >= need;
      if granted { state := state.(tokens := state.tokens - need); }
      buckets := buckets[host := state];
    }

    /** The waiting loop of one uncontended caller; `lag(i)` is how much its i-th sleep overshoots.
        It is served exactly when the missing weight fits the burst and refills within its budget, and
        a call whose budget is too short is refused at once, without sleeping and without spending
        weight. A burst below one token serves nobody. */
    method AcquireToken(host: string, cost: real, maxWait: Option<real>, start: real, lag: nat -> real)
      returns (ok: bool, now: real)
      requires forall i :: lag(i) >= 0.0
      modifies this`buckets
      ensures host == "" || cfg.rate <= 0.0 ==> ok && now == start && buckets == old(buckets)
      ensures host != "" && cfg.rate > 0.0 ==>
        var b, need := BucketAt(old(buckets), host), Need(cfg, cost);
        var budget := if maxWait.Some? then maxWait.value else cfg.maxWait;
        var wait := Wait(cfg, b, need, start);
        && ok == (cfg.burst >= 1.0 && (wait <= 0.0 || wait <= budget))
        && now >= start && (ok ==> now >= start + wait)
        && (wait <= 0.0 || wait > budget ==> now == start)
        && host in buckets && buckets == old(buckets)[host := buckets[host]]
        && buckets[host].lastRefill == now
        && (!ok && now == start ==> buckets[host].tokens == Avail(cfg, b, start))
    {
      now := start;
      if host == "" || cfg.rate <= 0.0 { return true, now; }
      var need := Need(cfg, cost);
      var budget := if maxWait.Some? then maxWait.value else cfg.maxWait;
      var deadline := start + budget;
      ghost var missing := Wait(cfg, BucketAt(buckets, host), need, start);
      StartsOnSchedule(cfg, BucketAt(buckets, host), need, start);
      AvailWithin(cfg, BucketAt(buckets, host), start);
      var sleeps := 0;
      hide Avail, Wait, Missing, OnSchedule, Measure;
      while true
        invariant now >= start && (sleeps == 0 ==> buckets == old(buckets) && now == start)
        invariant sleeps > 0 ==>
          && now > start && host in buckets && buckets == old(buckets)[host := buckets[host]]
          && missing > 0.0 && start + missing <= deadline && buckets[host].lastRefill <= now
        invariant OnSchedule(cfg, BucketAt(buckets, host), need, now, start + missing)
        decreases Measure(cfg, BucketAt(buckets, host), need, now, deadline)
      {
        ghost var before := BucketAt(buckets, host);
        var granted := TryAttempt(host, need, now);
        OnePass(cfg, before, need, now, start + missing);
        if granted { return true, now; }
        var state := buckets[host];
        var wait := Missing(cfg, need, state.tokens);
        if now + wait > deadline { return false, now; }
        var slept := Min(wait, 0.25) + lag(sleeps);
        SleepsOn(cfg, before, state, need, now, slept, wait, start + missing, deadline);
        now := now + slept;
        sleeps := sleeps + 1;
      }
    }

    method RecordChallenge(host: string, now: real)
      modifies this`breakers
      ensures breakers == if host == "" then old(breakers)
                          else old(breakers)[host := Fail(cfg.breaker, BreakerAt(old(breakers), host), now)]
    {
      if host == "" { return; }
      var state := if host in breakers then breakers[host] else NEW;
      state := RecordFailure(cfg.breaker, state, now);
      breakers := breakers[host := state];
    }

    method RecordSuccess(host: string)
      modifies this`breakers
      ensures breakers == if host !in old(breakers) || host == "" then old(breakers)
                          else old(breakers)[host := old(breakers)[host].(failures := [])]
    {
      if host == "" { return; }
      if host in breakers && breakers[host].failures != [] {
        breakers := breakers[host := breakers[host].(failures := [])];
      }
    }

    method IsCircuitOpen(host: string, now: real) returns (open: bool)
      ensures open == (host != "" && host in breakers && IsOpen(breakers[host], now))
    {
      open := host != "" && host in breakers && now < breakers[host].openUntil;
    }
  }

  /** A call the burst can hold is served from `due` on, and until then waits exactly for it. */
  ghost predicate OnSchedule(cfg: Config, b: Option<Bucket>, need: real, now: real, due: real)
    requires cfg.rate > 0.0
  {
    need <= cfg.burst ==>
      && (Avail(cfg, b, now) >= need ==> now >= due)
      && (Avail(cfg, b, now) < need ==> now < due && now + Wait(cfg, b, need, now) == due)
  }

  lemma StartsOnSchedule(cfg: Config, b: Option<Bucket>, need: real, start: real)
    requires cfg.rate > 0.0
    ensures OnSchedule(cfg, b, need, start, start + Wait(cfg, b, need, start))
  {
    WaitSign(cfg, b, need, start);
  }

  /** What a pass shows. */
  lemma OnePass(cfg: Config, b: Option<Bucket>, need: real, now: real, due: real)
    requires cfg.rate > 0.0 && OnSchedule(cfg, b, need, now, due)
    ensures var a := Attempt(cfg, b, need, now);
            && a.0.lastRefill == now
            && (a.1 ==> need <= cfg.burst && now >= due)
            && (!a.1 ==>
                  && a.0.tokens == Avail(cfg, b, now) < need
                  && Missing(cfg, need, a.0.tokens) == Wait(cfg, b, need, now) > 0.0)
            && (!a.1 && need <= cfg.burst ==> now < due && now + Wait(cfg, b, need, now) == due)
  {
    WaitSign(cfg, b, need, now);
  }

  /** What is left of the wait, in sleeps. */
  ghost function Measure(cfg: Config, b: Option<Bucket>, need: real, now: real, deadline: real): real
    requires cfg.rate > 0.0
  {
    if need > cfg.burst then LeastPositive(cfg, need); (deadline - now) / Least(cfg, need)
    else if Avail(cfg, b, now) >= need then 0.0
    else 1.0 + Max(0.0, Wait(cfg, b, need, now)) * 4.0
  }

  lemma LeastPositive(cfg: Config, need: real)
    requires cfg.rate > 0.0 && need > cfg.burst
    ensures Least(cfg, need) > 0.0
  {
    LeastIsLeast(cfg, need, cfg.burst, (need - cfg.burst) / cfg.rate);
  }

  /** A sleep keeps the schedule and uses up some of the wait. */
  lemma SleepsOn(cfg: Config, b: Option<Bucket>, state: Bucket, need: real, now: real, slept: real, wait: real,
                 due: real, deadline: real)
    requires cfg.rate > 0.0 && state == Bucket(Avail(cfg, b, now), now) && state.tokens < need
    requires wait == Missing(cfg, need, state.tokens) && slept >= Min(wait, 0.25) && now + wait <= deadline
    requires OnSchedule(cfg, b, need, now, due)
    ensures slept > 0.0 && OnSchedule(cfg, Some(state), need, now + slept, due)
    ensures Measure(cfg, Some(state), need, now + slept, deadline) <= Measure(cfg, b, need, now, deadline) - 1.0
    ensures Measure(cfg, b, need, now, deadline) >= 0.0
  {
    WaitSign(cfg, b, need, now);
    if need <= cfg.burst {
      SleepProgress(cfg, state, need, slept, wait);
      WaitSign(cfg, Some(state), need, now + slept);
    } else {
      AvailWithin(cfg, b, now);
      LeastIsLeast(cfg, need, state.tokens, wait);
      OneStepLess(deadline, now, now + slept, Least(cfg, need));
    }
  }

  /** The shortest sleep of a call whose weight the burst can never hold. */
  function Least(cfg: Config, need: real): real
    requires cfg.rate > 0.0
  {
    if need > cfg.burst then Min((need - cfg.burst) / cfg.rate, 0.25) else 1.0
  }

  lemma LeastIsLeast(cfg: Config, need: real, tokens: real, wait: real)
    requires cfg.rate > 0.0 && need > cfg.burst >= tokens && wait == (need - tokens) / cfg.rate
    ensures 0.0 < Least(cfg, need) <= Min(wait, 0.25)
  {
    var gap := (need - cfg.burst) / cfg.rate;
    Quotient(need - cfg.burst, cfg.rate, gap);
    Quotient(need - tokens, cfg.rate, wait);
    if gap <= 0.0 { NonNeg(-gap, cfg.rate); }
    if wait < gap {
      Positive(gap - wait, cfg.rate);
      assert (gap - wait) * cfg.rate == gap * cfg.rate - wait * cfg.rate;
    }
  }

  lemma OneStepLess(deadline: real, now: real, later: real, step: real)
    requires step > 0.0 && later >= now + step && deadline >= now
    ensures (deadline - later) / step <= (deadline - now) / step - 1.0 && (deadline - now) / step >= 0.0
  {
    var x, y := Ratio(deadline - now, step), Ratio(deadline - later, step);
    StepsApart(x, y, step, deadline - now, deadline - later);
  }

  function Ratio(a: real, r: real): (q: real)
    requires r > 0.0
    ensures q * r == a
  {
    Quotient(a, r, a / r);
    a / r
  }

  lemma Positive(a: real, b: real)
    requires a > 0.0 && b > 0.0
    ensures a * b > 0.0
  {
  }

  lemma StepsApart(x: real, y: real, step: real, left: real, later: real)
    requires step > 0.0 && x * step == left && y * step == later && later <= left - step && left >= 0.0
    ensures y <= x - 1.0 && x >= 0.0
  {
    var d := y - x + 1.0;
    assert d * step == y * step - x * step + step;
    if d > 0.0 { Positive(d, step); }
    assert (-x) * step == -(x * step);
    if x < 0.0 { Positive(-x, step); }
  }

  lemma AvailWithin(cfg: Config, b: Option<Bucket>, now: real)
    ensures Avail(cfg, b, now) <= cfg.burst
  {
  }

  lemma WaitSign(cfg: Config, b: Option<Bucket>, need: real, now: real)
    requires cfg.rate > 0.0
    ensures Wait(cfg, b, need, now) <= 0.0 <==> Avail(cfg, b, now) >= need
  {
    var w := Wait(cfg, b, need, now);
    assert w * cfg.rate == need - Avail(cfg, b, now);
    if w <= 0.0 { assert (-w) * cfg.rate >= 0.0; } else { assert w * cfg.rate > 0.0; }
  }
}

/** Whole-run guarantees of the per-host bucket and breaker. */
module HttpSessionRuns {
  import opened OrderedDicts
  import opened Reals
  import opened Breakers
  import opened HttpSession

  // ----- the weight budget -------------------------------------------------

  /** One pass of some caller through the locked section of `host`. */
  datatype Try = Try(host: string, cost: real, now: real)

  predicate InTime(tries: seq<Try>, clock: real)
    decreases |tries|
  {
    tries == [] || (clock <= tries[0].now && InTime(tries[1..], tries[0].now))
  }

  function Pass(cfg: HttpSession.Config, bs: map<string, Bucket>, t: Try): (Bucket, bool) {
    Attempt(cfg, BucketAt(bs, t.host), Need(cfg, t.cost), t.now)
  }

  /** The weight granted on `host` at times in (t1, t2]. */
  function Granted(cfg: HttpSession.Config, bs: map<string, Bucket>, tries: seq<Try>, host: string, t1: real,
                   t2: real): real
    decreases |tries|
  {
    if tries == [] then 0.0
    else
      var t, p := tries[0], Pass(cfg, bs, tries[0]);
      (if t.host == host && p.1 && t1 < t.now <= t2 then Need(cfg, t.cost) else 0.0)
      + Granted(cfg, bs[t.host := p.0], tries[1..], host, t1, t2)
  }

  /** Unknown hosts start with a full burst, and it refills at the rate: two calls, of the whole burst
      and of what has refilled since, are both granted, so the bound below is reached. */
  lemma BurstThenRefill(cfg: HttpSession.Config, host: string, start: real, elapsed: real, t1: real, t2: real)
    requires cfg.burst >= 1.0 && elapsed >= 0.0 && 1.0 <= elapsed * cfg.rate <= cfg.burst
    requires t1 < start && start + elapsed <= t2
    ensures var tries := [Try(host, cfg.burst, start), Try(host, elapsed * cfg.rate, start + elapsed)];
            Granted(cfg, map[], tries, host, t1, t2) == cfg.burst + elapsed * cfg.rate
  {
    var a, b := Try(host, cfg.burst, start), Try(host, elapsed * cfg.rate, start + elapsed);
    assert [a, b][1..] == [b] && [b][1..] == [];
    var once := map[host := Pass(cfg, map[], a).0];
    assert Pass(cfg, map[], a) == (Bucket(0.0, start), true);
    assert start + elapsed - start == elapsed;
    assert Pass(cfg, once, b).1;
    assert Granted(cfg, once, [b], host, t1, t2) == elapsed * cfg.rate;
  }

  /** A bucket whose tokens stay within the burst. */
  predicate Sane(cfg: HttpSession.Config, b: Option<Bucket>, clock: real) {
    b.Some? ==> b.value.tokens <= cfg.burst && b.value.lastRefill <= clock
  }

  lemma Distribute(x: real, y: real, rate: real)
    ensures (x + y) * rate == x * rate + y * rate
  {
  }

  /** What the bucket refills in a stretch of time. */
  function Refilled(cfg: HttpSession.Config, dt: real): real { dt * cfg.rate }

  lemma RefilledNonNeg(cfg: HttpSession.Config, dt: real)
    requires cfg.rate > 0.0 && dt >= 0.0
    ensures Refilled(cfg, dt) >= 0.0
  {
    NonNeg(dt, cfg.rate);
  }

  lemma RefilledSplit(cfg: HttpSession.Config, s: real, t: real, u: real)
    ensures Refilled(cfg, u - s) == Refilled(cfg, t - s) + Refilled(cfg, u - t)
  {
    Distribute(t - s, u - t, cfg.rate);
    assert (t - s) + (u - t) == u - s;
  }

  /** Availability grows no faster than the rate. */
  lemma AvailSlow(cfg: HttpSession.Config, b: Option<Bucket>, s: real, t: real)
    requires cfg.rate > 0.0 && s <= t && Sane(cfg, b, s)
    ensures Avail(cfg, b, t) <= Avail(cfg, b, s) + Refilled(cfg, t - s)
    ensures Avail(cfg, b, t) <= cfg.burst
  {
    NonNeg(t - s, cfg.rate);
    if b.Some? {
      var l := b.value.lastRefill;
      Distribute(s - l, t - s, cfg.rate);
      assert Max(0.0, t - l) == (s - l) + (t - s) && Max(0.0, s - l) == s - l;
    }
  }

  /** Refilling early, or spending, never makes more available later. */
  lemma AvailAfter(cfg: HttpSession.Config, b: Option<Bucket>, spent: real, now: real, t: real)
    requires cfg.rate > 0.0 && now <= t && spent >= 0.0 && Sane(cfg, b, now)
    ensures Avail(cfg, Some(Bucket(Avail(cfg, b, now) - spent, now)), t) <= Avail(cfg, b, t)
    ensures Avail(cfg, Some(Bucket(Avail(cfg, b, now) - spent, now)), now) == Avail(cfg, b, now) - spent
  {
    var a, gain := Avail(cfg, b, now), (t - now) * cfg.rate;
    NonNeg(t - now, cfg.rate);
    assert Max(0.0, t - now) == t - now;
    assert Avail(cfg, Some(Bucket(a - spent, now)), t) == Min(cfg.burst, a - spent + gain);
    if b.Some? {
      var l := b.value.lastRefill;
      var before := (now - l) * cfg.rate;
      Distribute(now - l, t - now, cfg.rate);
      assert Max(0.0, now - l) == now - l;
      assert a == Min(cfg.burst, b.value.tokens + before);
      assert Max(0.0, t - l) == (now - l) + (t - now);
      assert Avail(cfg, b, t) == Min(cfg.burst, b.value.tokens + (before + gain));
    }
  }

  lemma {:induction false} NothingGrantedLater(
      cfg: HttpSession.Config, bs: map<string, Bucket>, tries: seq<Try>, host: string, t1: real, t2: real, clock: real)
    requires InTime(tries, clock) && clock > t2
    ensures Granted(cfg, bs, tries, host, t1, t2) == 0.0
    decreases |tries|
  {
    hide Pass, Need;
    if tries != [] {
      NothingGrantedLater(cfg, bs[tries[0].host := Pass(cfg, bs, tries[0]).0], tries[1..], host, t1, t2, tries[0].now);
    }
  }

  /** The potential argument: grants after `from` are paid by what is available then and the refill. */
  lemma {:induction false} GrantsArePaid(
      cfg: HttpSession.Config, bs: map<string, Bucket>, tries: seq<Try>, host: string, t1: real, t2: real, clock: real)
    requires cfg.rate > 0.0 && cfg.burst >= 0.0
    requires InTime(tries, clock) && Sane(cfg, BucketAt(bs, host), clock)
    requires Avail(cfg, BucketAt(bs, host), clock) >= 0.0
    requires Max(clock, t1) <= t2
    ensures Granted(cfg, bs, tries, host, t1, t2)
         <= Avail(cfg, BucketAt(bs, host), Max(clock, t1)) + Refilled(cfg, t2 - Max(clock, t1))
    decreases |tries|
  {
    hide Avail, Need, Sane, Refilled;
    var from := Max(clock, t1);
    var b := BucketAt(bs, host);
    AvailGrows(cfg, b, clock, from);
    RefilledNonNeg(cfg, t2 - from);
    if tries != [] {
      var t := tries[0];
      var bs' := bs[t.host := Pass(cfg, bs, t).0];
      if t.now > t2 {
        NothingGrantedLater(cfg, bs', tries[1..], host, t1, t2, t.now);
      } else {
        TryPaid(cfg, b, t, host, Pass(cfg, bs, t), from, t1, t2, clock);
        GrantsArePaid(cfg, bs', tries[1..], host, t1, t2, t.now);
      }
    }
  }

  lemma AvailGrows(cfg: HttpSession.Config, b: Option<Bucket>, s: real, t: real)
    requires cfg.rate > 0.0 && s <= t && Sane(cfg, b, s)
    ensures Avail(cfg, b, t) >= Avail(cfg, b, s)
  {
    if b.Some? {
      var l := b.value.lastRefill;
      assert (t - l) * cfg.rate == (s - l) * cfg.rate + (t - s) * cfg.rate;
      NonNeg(t - s, cfg.rate);
    }
  }

  /** One pass at a time up to t2 keeps the account. */
  lemma TryPaid(cfg: HttpSession.Config, b: Option<Bucket>, t: Try, host: string, p: (Bucket, bool),
                from: real, t1: real, t2: real, clock: real)
    requires cfg.rate > 0.0 && cfg.burst >= 0.0 && clock <= t.now <= t2 && from == Max(clock, t1) && from <= t2
    requires Sane(cfg, b, clock) && Avail(cfg, b, clock) >= 0.0
    requires t.host == host ==> p == Attempt(cfg, b, Need(cfg, t.cost), t.now)
    ensures var b' := if t.host == host then Some(p.0) else b;
            var next := Max(t.now, t1);
            && Sane(cfg, b', t.now) && Avail(cfg, b', t.now) >= 0.0
            && (if t.host == host && p.1 && t1 < t.now then Need(cfg, t.cost) else 0.0)
               + Avail(cfg, b', next) + Refilled(cfg, t2 - next)
               <= Avail(cfg, b, from) + Refilled(cfg, t2 - from)
  {
    hide Avail, Sane, Refilled;
    var next := Max(t.now, t1);
    SaneLater(cfg, b, clock, t.now);
    SaneLater(cfg, b, clock, from);
    AvailGrows(cfg, b, clock, t.now);
    AvailSlow(cfg, b, from, next);
    RefilledSplit(cfg, from, next, t2);
    if t.host == host {
      var spent := if p.1 then Need(cfg, t.cost) else 0.0;
      AvailSlow(cfg, b, t.now, t.now);
      AvailAfter(cfg, b, spent, t.now, next);
      assert p.0 == Bucket(Avail(cfg, b, t.now) - spent, t.now);
      SaneBucket(cfg, p.0, t.now);
    }
  }

  lemma SaneLater(cfg: HttpSession.Config, b: Option<Bucket>, s: real, t: real)
    requires Sane(cfg, b, s) && s <= t
    ensures Sane(cfg, b, t)
  {
  }

  lemma SaneBucket(cfg: HttpSession.Config, b: Bucket, t: real)
    requires b.tokens <= cfg.burst && b.lastRefill <= t
    ensures Sane(cfg, Some(b), t)
  {
  }

  /** For every run of passes in clock order, by any number of callers on any hosts, the weight
      granted on a host within any window (t1, t2] is at most burst + rate * (t2 - t1). */
  lemma WindowBound(cfg: HttpSession.Config, tries: seq<Try>, host: string, t1: real, t2: real, clock: real)
    requires cfg.rate > 0.0 && cfg.burst >= 0.0 && InTime(tries, clock) && t1 <= t2
    ensures Granted(cfg, map[], tries, host, t1, t2) <= cfg.burst + Refilled(cfg, t2 - t1)
  {
    hide Granted, Refilled;
    RefilledNonNeg(cfg, t2 - t1);
    if clock > t2 {
      NothingGrantedLater(cfg, map[], tries, host, t1, t2, clock);
    } else {
      var from := Max(clock, t1);
      GrantsArePaid(cfg, map[], tries, host, t1, t2, clock);
      RefilledSplit(cfg, t1, from, t2);
      RefilledNonNeg(cfg, from - t1);
    }
  }

  // ----- the breakers of many hosts ----------------------------------------

  function Step(cfg: Breakers.Config, m: map<string, Breaker>, e: Keyed<string>): map<string, Breaker> {
    match e.event
    case Failed(t) => m[e.key := Fail(cfg, BreakerAt(m, e.key), t)]
    case Succeeded => if e.key in m then m[e.key := m[e.key].(failures := [])] else m
  }

  function RunHosts(cfg: Breakers.Config, es: seq<Keyed<string>>): map<string, Breaker> {
    if es == [] then map[] else Step(cfg, RunHosts(cfg, es[..|es| - 1]), es[|es| - 1])
  }

  lemma {:induction false} HostsIndependent(cfg: Breakers.Config, es: seq<Keyed<string>>, host: string)
    requires !cfg.successCloses
    ensures BreakerAt(RunHosts(cfg, es), host) == Breakers.Run(cfg, HistoryOf(es, host))
  {
    hide Fail;
    if es != [] {
      var init, last := es[..|es| - 1], es[|es| - 1];
      HostsIndependent(cfg, init, host);
      var h := HistoryOf(init, host);
      if last.key == host {
        assert (h + [last.event])[..|h|] == h;
      } else {
        assert h + [] == h;
      }
    }
  }

  /** A host's circuit is open at `now` exactly during one cooldown after an opening that the host's
      own history calls for; open periods never overlap, and a success does not end one. */
  lemma HostCircuitFollowsHistory(cfg: Breakers.Config, es: seq<Keyed<string>>, host: string, now: real)
    requires !cfg.successCloses && cfg.window >= 0.0 && cfg.cooldown >= 0.0
    requires now >= 0.0 && Chronological(HistoryOf(es, host), now)
    ensures var o := Openings(cfg, HistoryOf(es, host));
            && CooldownApart(o, cfg.cooldown, now)
            && (IsOpen(BreakerAt(RunHosts(cfg, es), host), now) <==>
                exists i :: 0 <= i < |o| && o[i] <= now < o[i] + cfg.cooldown)
  {
    HostsIndependent(cfg, es, host);
    OpenExactlyInPeriods(cfg, HistoryOf(es, host), now);
  }
}
