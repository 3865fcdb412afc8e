/** The transient-failure streak of controller ticks: counting, backoff, and giving up. */
module ControllerTicks {
  datatype Config = Config(maxFails: int, backoffCap: real)

  datatype Outcome = Success | Transient | Fatal

  datatype Ticks = Ticks(failCounts: map<string, int>, backoffUntil: map<string, real>)

  function Pow2(k: nat): nat { if k == 0 then 1 else 2 * Pow2(k - 1) }

  /** The backoff after the count-th failure in a row. */
  function Backoff(cfg: Config, count: int): real
    requires count >= 1
  {
    var b := 1.5 * (Pow2(count - 1) as real);
    if b < cfg.backoffCap then b else cfg.backoffCap
  }

  predicate InBackoff(t: Ticks, c: string, now: real) {
    c in t.backoffUntil && t.backoffUntil[c] != 0.0 && now < t.backoffUntil[c]
  }

  function CountOf(t: Ticks, c: string): int { if c in t.failCounts then t.failCounts[c] else 0 }

  function Clear(t: Ticks, c: string): Ticks { Ticks(t.failCounts - {c}, t.backoffUntil - {c}) }

  predicate GivesUp(cfg: Config, t: Ticks, c: string, outcome: Outcome) {
    outcome.Fatal? || (outcome.Transient? && CountOf(t, c) + 1 >= cfg.maxFails)
  }

  function End(cfg: Config, t: Ticks, c: string, now: real, outcome: Outcome): Ticks {
    var count := CountOf(t, c) + 1;
    if outcome.Transient? && !GivesUp(cfg, t, c, outcome) && count >= 1 then
      Ticks(t.failCounts[c := count], t.backoffUntil[c := now + Backoff(cfg, count)])
    else Clear(t, c)
  }

  /** The maps share their keys and hold live streaks only. */
  ghost predicate Aligned(cfg: Config, t: Ticks) {
    && t.failCounts.Keys == t.backoffUntil.Keys
    && forall c :: c in t.failCounts ==> 1 <= t.failCounts[c] < cfg.maxFails
  }

  class Supervisor {
    const cfg: Config
    var failCounts: map<string, int>
    var backoffUntil: map<string, real>
    var active: set<string>

    ghost function State(): Ticks reads this { Ticks(failCounts, backoffUntil) }

    constructor (cfg: Config)
      ensures this.cfg == cfg && State() == Ticks(map[], map[]) && active == {}
    {
      this.cfg, failCounts, backoffUntil, active := cfg, map[], map[], {};
    }

    /** tick_controller up to its await: whether on_tick is entered. `gate` is the pre-tick check. */
    method TickBegin(c: string, now: real, gate: bool) returns (entered: bool)
      ensures entered == (c in active && !InBackoff(State(), c, now) && gate)
    {
      if c !in active { return false; }
      var until := if c in backoffUntil then backoffUntil[c] else 0.0;
      if until != 0.0 && now < until { return false; }
      return gate;
    }

    /** tick_controller after its await. */
    method TickEnd(c: string, now: real, outcome: Outcome)
      requires Aligned(cfg, State())
      modifies this
      ensures State() == End(cfg, old(State()), c, now, outcome) && Aligned(cfg, State())
      ensures active == if GivesUp(cfg, old(State()), c, outcome) then old(active) - {c} else old(active)
    {
      if outcome == Success {
        failCounts, backoffUntil := failCounts - {c}, backoffUntil - {c};
      } else if outcome == Transient {
        var count := (if c in failCounts then failCounts[c] else 0) + 1;
        failCounts := failCounts[c := count];
        if count >= cfg.maxFails {
          backoffUntil, failCounts := backoffUntil - {c}, failCounts - {c};
          assert failCounts == old(failCounts) - {c};
          active := active - {c};
        } else {
          var backoff := Backoff(cfg, count);
          backoffUntil := backoffUntil[c := now + backoff];
        }
      } else {
        backoffUntil, failCounts := backoffUntil - {c}, failCounts - {c};
        active := active - {c};
      }
    }
  }
}

/** How long a streak that ends in FAILED must have lasted. */
module ControllerTickRuns {
  import opened ControllerTicks
  import opened Reals

  /** Begin is a tick that entered on_tick; at most one tick per controller is in flight. */
  datatype Step = Begin(c: string, at: real) | Finish(c: string, at: real, outcome: Outcome)

  datatype Run = Run(ticks: Ticks, inFlight: set<string>, clock: real)

  const START := Run(Ticks(map[], map[]), {}, 0.0)

  predicate Enabled(r: Run, s: Step) {
    && s.at >= r.clock
    && (s.Begin? ==> s.c !in r.inFlight && !InBackoff(r.ticks, s.c, s.at))
    && (s.Finish? ==> s.c in r.inFlight)
  }

  function Next(cfg: Config, r: Run, s: Step): Run {
    match s
    case Begin(c, at) => r.(inFlight := r.inFlight + {c}, clock := at)
    case Finish(c, at, o) => Run(End(cfg, r.ticks, c, at, o), r.inFlight - {c}, at)
  }

  function After(cfg: Config, steps: seq<Step>): Run {
    if steps == [] then START else Next(cfg, After(cfg, steps[..|steps| - 1]), steps[|steps| - 1])
  }

  ghost predicate Possible(cfg: Config, steps: seq<Step>) {
    steps == []
        || (Possible(cfg, steps[..|steps| - 1]) && Enabled(After(cfg, steps[..|steps| - 1]), steps[|steps| - 1]))
  }

  /** The history rule: the end times of c's transient failures since its last success, fatal
      error, or exhausted streak. */
  function Streak(cfg: Config, steps: seq<Step>, c: string): seq<real> {
    if steps == [] then []
    else
      var before, s := Streak(cfg, steps[..|steps| - 1], c), steps[|steps| - 1];
      if s.Begin? || s.c != c then before
      else if s.outcome.Transient? && |before| + 1 < cfg.maxFails then before + [s.at]
      else []
  }

  /** 1.5, 3, 6, 12, ... seconds. */
  function Doubled(n: nat): real { if n == 0 then 1.5 else 2.0 * Doubled(n - 1) }

  /** The delay after the n-th failure in a row: 1.5 seconds, doubled each time, up to the cap. */
  function Delay(cfg: Config, n: nat): real
    requires n >= 1
  {
    Min(cfg.backoffCap, Doubled(n - 1))
  }

  lemma {:induction false} DoubledPow(n: nat)
    ensures 1.5 * (Pow2(n) as real) == Doubled(n)
  {
    if n > 0 { DoubledPow(n - 1); }
  }

  /** A transient failure that does not exhaust the streak sets the controller's backoff to end one
      such delay later, counts one failure more, and touches no other controller. */
  lemma FailureDelays(cfg: Config, t: Ticks, c: string, now: real)
    requires 0 <= CountOf(t, c) && CountOf(t, c) + 1 < cfg.maxFails
    ensures var n, t' := CountOf(t, c) + 1, End(cfg, t, c, now, Transient);
            && t'.failCounts == t.failCounts[c := n]
            && t'.backoffUntil == t.backoffUntil[c := now + Delay(cfg, n)]
  {
    DoubledPow(CountOf(t, c));
  }

  /** The first delays are 1.5, 3, 6 and 12 seconds. */
  lemma FirstDelays(cfg: Config)
    requires cfg.backoffCap >= 12.0
    ensures Delay(cfg, 1) == 1.5 && Delay(cfg, 2) == 3.0 && Delay(cfg, 3) == 6.0 && Delay(cfg, 4) == 12.0
  {
  }

  /** Each failure of a streak ends at least its predecessor's backoff later. */
  ghost predicate Spaced(cfg: Config, times: seq<real>) {
    forall k :: 1 <= k < |times| ==> times[k] >= times[k - 1] + Delay(cfg, k)
  }

  function Total(cfg: Config, n: nat): real {
    if n == 0 then 0.0 else Total(cfg, n - 1) + Delay(cfg, n)
  }

  /** While the cap is not reached, n delays add up to 1.5 (2^n - 1) seconds. */
  lemma {:induction false} TotalClosed(cfg: Config, n: nat)
    requires n > 0 ==> Doubled(n - 1) <= cfg.backoffCap
    ensures Total(cfg, n) == Doubled(n) - 1.5 == 1.5 * (Pow2(n) as real - 1.0)
  {
    DoubledPow(n);
    if n > 1 { DoubledGrows(n - 2); }
    if n > 0 { TotalClosed(cfg, n - 1); }
  }

  lemma {:induction false} DoubledGrows(n: nat)
    ensures 0.0 < Doubled(n) < Doubled(n + 1)
  {
    if n > 0 { DoubledGrows(n - 1); }
  }

  lemma {:induction false} SpacedTotal(cfg: Config, times: seq<real>)
    requires Spaced(cfg, times) && times != []
    ensures times[|times| - 1] >= times[0] + Total(cfg, |times| - 1)
  {
    hide Delay;
    if |times| > 1 {
      var init := times[..|times| - 1];
      forall k | 1 <= k < |init| ensures init[k] >= init[k - 1] + Delay(cfg, k) {
        assert times[k] >= times[k - 1] + Delay(cfg, k);
      }
      SpacedTotal(cfg, init);
    }
  }

  /** The counters are the history, and a tick in flight started after the backoff. */
  ghost predicate Tracks(cfg: Config, steps: seq<Step>, c: string) {
    var r, streak := After(cfg, steps), Streak(cfg, steps, c);
    && CountOf(r.ticks, c) == |streak| && (c in r.ticks.failCounts <==> streak != [])
    && (c in r.ticks.backoffUntil <==> streak != [])
    && (streak != [] ==> |streak| < cfg.maxFails
                         && r.ticks.backoffUntil[c] == streak[|streak| - 1] + Delay(cfg, |streak|))
    && (streak != [] && c in r.inFlight ==> r.clock >= r.ticks.backoffUntil[c])
    && Spaced(cfg, streak) && r.clock >= 0.0
  }

  lemma {:induction false} RunTracks(cfg: Config, steps: seq<Step>, c: string)
    requires Possible(cfg, steps)
    ensures Tracks(cfg, steps, c)
  {
    hide Delay, Backoff;
    if steps != [] {
      var init, s := steps[..|steps| - 1], steps[|steps| - 1];
      RunTracks(cfg, init, c);
      var before := Streak(cfg, init, c);
      if s.Finish? && s.c == c && s.outcome.Transient? && |before| + 1 < cfg.maxFails {
        SpacedSnoc(cfg, before, s.at);
        FailureDelays(cfg, After(cfg, init).ticks, c, s.at);
      }
    }
  }

  lemma SpacedSnoc(cfg: Config, times: seq<real>, at: real)
    requires Spaced(cfg, times) && (times != [] ==> at >= times[|times| - 1] + Delay(cfg, |times|))
    ensures Spaced(cfg, times + [at])
  {
    hide Delay;
    var more := times + [at];
    forall k | 1 <= k < |more| ensures more[k] >= more[k - 1] + Delay(cfg, k) {
      if k < |times| { assert times[k] >= times[k - 1] + Delay(cfg, k); }
    }
  }

  /** In every run, with any interleaving of controllers: the two maps stay aligned, a tick gives up
      exactly on a fatal error or when its own failure completes a streak of maxFails, and such a
      streak took at least the sum of the delays from its first failure to its last: with the cap not
      reached, 1.5 (2^(maxFails - 1) - 1) seconds. */
  lemma ExhaustedStreakLasts(cfg: Config, steps: seq<Step>, c: string, at: real, outcome: Outcome)
    requires Possible(cfg, steps + [Finish(c, at, outcome)])
    ensures var t, streak := After(cfg, steps).ticks, Streak(cfg, steps, c);
            && (GivesUp(cfg, t, c, outcome) <==> outcome.Fatal? || (outcome.Transient? && |streak| + 1 >= cfg.maxFails))
            && (outcome.Transient? && GivesUp(cfg, t, c, outcome) && streak != [] ==>
                  && |streak| == cfg.maxFails - 1
                  && at >= streak[0] + Total(cfg, cfg.maxFails - 1)
                  && (cfg.backoffCap >= Doubled(cfg.maxFails - 2) ==>
                        at >= streak[0] + 1.5 * (Pow2(cfg.maxFails - 1) as real - 1.0)))
  {
    hide Delay;
    var all := steps + [Finish(c, at, outcome)];
    assert all[..|all| - 1] == steps;
    RunTracks(cfg, steps, c);
    var streak := Streak(cfg, steps, c);
    if outcome.Transient? && streak != [] && |streak| + 1 >= cfg.maxFails {
      SpacedSnoc(cfg, streak, at);
      SpacedTotal(cfg, streak + [at]);
      if cfg.backoffCap >= Doubled(cfg.maxFails - 2) { TotalClosed(cfg, cfg.maxFails - 1); }
    }
  }

  /** A controller's next tick may enter exactly when the delay after its latest failure is over. */
  lemma EntersIff(cfg: Config, steps: seq<Step>, c: string, at: real)
    requires Possible(cfg, steps) && at >= After(cfg, steps).clock
    ensures var streak := Streak(cfg, steps, c);
            InBackoff(After(cfg, steps).ticks, c, at)
            <==> streak != [] && at < streak[|streak| - 1] + Delay(cfg, |streak|)
  {
    hide Delay, After, Streak;
    RunTracks(cfg, steps, c);
  }

  /** The two maps always share their keys, with counts in 1..maxFails-1. */
  lemma {:induction false} AlwaysAligned(cfg: Config, steps: seq<Step>)
    ensures Aligned(cfg, After(cfg, steps).ticks)
  {
    hide Backoff;
    if steps != [] { AlwaysAligned(cfg, steps[..|steps| - 1]); }
  }
}
