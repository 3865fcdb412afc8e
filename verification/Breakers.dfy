/** The sliding-window circuit breaker shared by the per-host and the per-user circuits, against the
    rule its whole history obeys. */
module Breakers {
  /** A success always forgets failures; `successCloses` says whether it also ends an open period. */
  datatype Config = Config(threshold: int, window: real, cooldown: real, successCloses: bool)

  datatype Breaker = Breaker(failures: seq<real>, openUntil: real)

  const NEW := Breaker([], 0.0)

  function Since(ts: seq<real>, cutoff: real): seq<real> {
    if ts == [] then []
    else Since(ts[..|ts| - 1], cutoff) + (if ts[|ts| - 1] >= cutoff then [ts[|ts| - 1]] else [])
  }

  function Fail(cfg: Config, b: Breaker, now: real): Breaker {
    var failures := Since(b.failures, now - cfg.window) + [now];
    Breaker(failures,
            if |failures| >= cfg.threshold && now >= b.openUntil then now + cfg.cooldown else b.openUntil)
  }

  function Succeed(cfg: Config, b: Breaker): Breaker {
    Breaker([], if cfg.successCloses then 0.0 else b.openUntil)
  }

  predicate IsOpen(b: Breaker, now: real) { now < b.openUntil }

  /** One failure recorded in place: the pruning loop and the opening decision. */
  method RecordFailure(cfg: Config, b: Breaker, now: real) returns (r: Breaker)
    ensures r == Fail(cfg, b, now)
  {
    var cutoff, kept := now - cfg.window, [];
    for i := 0 to |b.failures|
      invariant kept == Since(b.failures[..i], cutoff)
    {
      assert b.failures[..i + 1][..i] == b.failures[..i];
      if b.failures[i] >= cutoff { kept := kept + [b.failures[i]]; }
    }
    assert b.failures[..|b.failures|] == b.failures;
    kept := kept + [now];
    r := Breaker(kept, b.openUntil);
    if |kept| >= cfg.threshold && now >= r.openUntil { r := r.(openUntil := now + cfg.cooldown); }
  }

  // ----- the history rule --------------------------------------------------

  datatype Event = Failed(at: real) | Succeeded

  function Run(cfg: Config, h: seq<Event>): Breaker {
    if h == [] then NEW
    else
      match h[|h| - 1]
      case Failed(t) => Fail(cfg, Run(cfg, h[..|h| - 1]), t)
      case Succeeded => Succeed(cfg, Run(cfg, h[..|h| - 1]))
  }

  /** Every failure since the last success, however old. */
  function Streak(h: seq<Event>): seq<real> {
    if h == [] then []
    else match h[|h| - 1]
         case Failed(t) => Streak(h[..|h| - 1]) + [t]
         case Succeeded => []
  }

  /** The times at which the breaker opens by the rule: the streak has `threshold` failures no older
      than the window, and no earlier open period reaches this far. */
  function Openings(cfg: Config, h: seq<Event>): seq<real> {
    if h == [] then []
    else
      var before := Openings(cfg, h[..|h| - 1]);
      match h[|h| - 1]
      case Failed(t) =>
        if |Since(Streak(h), t - cfg.window)| >= cfg.threshold
           && (before == [] || t >= before[|before| - 1] + cfg.cooldown)
        then before + [t] else before
      case Succeeded => if cfg.successCloses then [] else before
  }

  /** Failure times are nonnegative and nondecreasing, the last one at most `now`. */
  predicate Chronological(h: seq<Event>, now: real)
    decreases |h|
  {
    h == [] || match h[|h| - 1]
               case Failed(t) => 0.0 <= t <= now && Chronological(h[..|h| - 1], t)
               case Succeeded => Chronological(h[..|h| - 1], now)
  }

  lemma {:induction false} SinceSince(ts: seq<real>, a: real, b: real)
    requires a <= b
    ensures Since(Since(ts, a), b) == Since(ts, b)
  {
    if ts != [] {
      var init, last := ts[..|ts| - 1], ts[|ts| - 1];
      SinceSince(init, a, b);
      assert ts == init + [last];
      if last >= a { SinceSnoc(Since(init, a), last, b); } else { assert Since(init, a) + [] == Since(init, a); }
    }
  }

  lemma SinceSnoc(ts: seq<real>, t: real, cutoff: real)
    ensures Since(ts + [t], cutoff) == Since(ts, cutoff) + (if t >= cutoff then [t] else [])
  {
    assert (ts + [t])[..|ts|] == ts;
  }

  /** The pruned list is the streak cut at some point no later than any cutoff still to come. */
  ghost predicate PrunedTo(cfg: Config, h: seq<Event>, cutoff: real) {
    exists c :: c <= cutoff && Run(cfg, h).failures == Since(Streak(h), c)
  }

  lemma {:induction false} Pruned(cfg: Config, h: seq<Event>, now: real)
    requires Chronological(h, now) && cfg.window >= 0.0
    ensures PrunedTo(cfg, h, now - cfg.window)
    decreases |h|
  {
    if h == [] {
      assert Run(cfg, h).failures == Since(Streak(h), now - cfg.window);
    } else {
      var init := h[..|h| - 1];
      match h[|h| - 1]
      case Failed(t) =>
        FailureCounts(cfg, h, now);
        assert Run(cfg, h).failures == Since(Streak(h), t - cfg.window);
      case Succeeded =>
        assert Run(cfg, h).failures == Since(Streak(h), now - cfg.window);
    }
  }

  /** Right after a failure at t the pruned list is exactly the failures of the whole history since
      the last success with time at least t - window. */
  lemma {:induction false} FailureCounts(cfg: Config, h: seq<Event>, now: real)
    requires h != [] && h[|h| - 1].Failed? && Chronological(h, now) && cfg.window >= 0.0
    ensures Run(cfg, h).failures == Since(Streak(h), h[|h| - 1].at - cfg.window)
    decreases |h|, 0
  {
    hide Since;
    var init, t := h[..|h| - 1], h[|h| - 1].at;
    Pruned(cfg, init, t);
    var c :| c <= t - cfg.window && Run(cfg, init).failures == Since(Streak(init), c);
    SinceSince(Streak(init), c, t - cfg.window);
    SinceSnoc(Streak(init), t, t - cfg.window);
  }

  /** The breaker refines its history: its open period is that of the last opening by the rule. */
  lemma {:induction false} RefinesHistory(cfg: Config, h: seq<Event>, now: real)
    requires Chronological(h, now) && cfg.window >= 0.0
    ensures var o := Openings(cfg, h);
            Run(cfg, h).openUntil == if o == [] then 0.0 else o[|o| - 1] + cfg.cooldown
    decreases |h|
  {
    hide Since, Streak;
    if h != [] {
      var init := h[..|h| - 1];
      RefinesHistory(cfg, init, if h[|h| - 1].Failed? then h[|h| - 1].at else now);
      if h[|h| - 1].Failed? { FailureCounts(cfg, h, now); }
    }
  }

  ghost predicate CooldownApart(o: seq<real>, cooldown: real, now: real) {
    && (forall i, j :: 0 <= i < j < |o| ==> o[i] + cooldown <= o[j])
    && (forall i :: 0 <= i < |o| ==> o[i] <= now)
  }

  lemma {:induction false} OpeningsApart(cfg: Config, h: seq<Event>, now: real)
    requires Chronological(h, now) && cfg.cooldown >= 0.0
    ensures CooldownApart(Openings(cfg, h), cfg.cooldown, now)
    decreases |h|
  {
    hide Since, Streak;
    if h != [] {
      OpeningsApart(cfg, h[..|h| - 1], if h[|h| - 1].Failed? then h[|h| - 1].at else now);
    }
  }

  /** Open periods last one cooldown and never overlap, and the breaker is open at `now` exactly
      inside one of them. (With successCloses, `Openings` starts afresh at each success.) */
  lemma OpenExactlyInPeriods(cfg: Config, h: seq<Event>, now: real)
    requires Chronological(h, now) && now >= 0.0 && cfg.window >= 0.0 && cfg.cooldown >= 0.0
    ensures CooldownApart(Openings(cfg, h), cfg.cooldown, now)
    ensures IsOpen(Run(cfg, h), now)
            <==> exists i :: 0 <= i < |Openings(cfg, h)|
                             && Openings(cfg, h)[i] <= now < Openings(cfg, h)[i] + cfg.cooldown
  {
    hide Run, Openings, Chronological;
    RefinesHistory(cfg, h, now);
    OpeningsApart(cfg, h, now);
    var o := Openings(cfg, h);
    if IsOpen(Run(cfg, h), now) && o != [] { assert o[|o| - 1] <= now < o[|o| - 1] + cfg.cooldown; }
  }

  // ----- many breakers under keys ------------------------------------------

  datatype Keyed<K> = Keyed(key: K, event: Event)

  function BreakerAt<K>(m: map<K, Breaker>, k: K): Breaker { if k in m then m[k] else NEW }

  /** The history of one key. */
  function HistoryOf<K(==)>(es: seq<Keyed<K>>, k: K): seq<Event> {
    if es == [] then []
    else HistoryOf(es[..|es| - 1], k) + (if es[|es| - 1].key == k then [es[|es| - 1].event] else [])
  }
}
