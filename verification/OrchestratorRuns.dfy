/** Every interleaving of spawns, adoptions, executor code, ticks, prunes and kill-switch flips. */
module OrchestratorRuns {
  import opened OrderedDicts
  import opened Executors
  import opened Risk
  import opened Orchestrator
  import opened PruningFacts
  import DictSums

  /** A stretch of code between two awaits. `Work` is a concrete executor acting on itself through
      the base class, including on_stop and settling; TickBegin is a tick entering on_tick, TickDone its success. */
  datatype Op =
    | Spawn(id: string, exec: Exec, request: Option<Request>, telemetry: Telemetry)
    | Spawned(id: string, result: Creation)
    | Adopted(id: string, exec: Exec)
    | Work(id: string, moves: seq<Move>)
    | TickBegin(c: string)
    | TickDone(c: string, keep: nat, predicated: Option<string -> Verdict>, bank: string -> Banking)
    | TickFailed(c: string)
    | PruneNow(c: string, pruning: Pruning)
    | Register(controller: string)
    | KillOn | KillOff | StoreSet(on: bool)

  /** `pending` are the spawns in on_create, `ticking` the executors already terminated when each tick
      in flight began, `gated` the registered executors that the risk gate let in. */
  datatype Run = Run(s: State, pending: map<string, string>, ticking: map<string, set<string>>,
                     gated: set<string>, used: set<string>)

  const START := Run(State(Empty<string, Exec>(), map[], map[], false, false), map[], map[], {}, {})

  function TickPruning(before: set<string>, op: Op): Pruning
    requires op.TickDone?
  {
    Pruning(Some(before), op.keep, op.predicated, op.bank)
  }

  predicate Enabled(r: Run, op: Op) {
    match op
    case Spawned(id, _) => id in r.pending
    case Work(id, _) => id in r.s.executors.at
    case TickBegin(c) => c in r.s.banked && c !in r.ticking
    case TickDone(c, _, _, _) => c in r.ticking
    case TickFailed(c) => c in r.ticking
    case _ => true
  }

  function TerminatedNow(d: Dict<string, Exec>, c: string): (t: set<string>)
    ensures forall id :: id in t <==> id in d.at && Listed(d.at[id], c, true)
  {
    ListFacts(d, c, true);
    set id | id in List(d, c, true)
  }

  function Next(risk: Option<Limits>, r: Run, op: Op): Run
    requires Enabled(r, op)
  {
    match op
    case Spawn(id, e, q, telemetry) =>
      var s' := SpawnBegin(risk, r.s, id, e, q, telemetry);
      if SpawnVerdict(risk, r.s, e.controller, q, telemetry).Some? then r.(s := s')
      else Run(s', r.pending[id := e.controller], r.ticking,
               if risk.Some? && q.Some? then r.gated + {id} else r.gated - {id}, r.used + {id})
    case Spawned(id, result) => r.(s := SpawnEnd(r.s, id, r.pending[id], result), pending := r.pending - {id})
    case Adopted(id, e) => r.(s := Adopt(r.s, id, e), gated := r.gated - {id}, used := r.used + {id})
    case Work(id, moves) => r.(s := r.s.(executors := r.s.executors.Put(id, MadeAll(r.s.executors.at[id], moves))))
    case TickBegin(c) => r.(ticking := r.ticking[c := TerminatedNow(r.s.executors, c)])
    case TickDone(c, _, _, _) => r.(s := Prune(TickPruning(r.ticking[c], op), r.s, c), ticking := r.ticking - {c})
    case TickFailed(c) => r.(ticking := r.ticking - {c})
    case PruneNow(c, p) => r.(s := Prune(p, r.s, c))
    case Register(c) => r.(s := RegisterController(risk, r.s, c))
    case KillOn => r.(s := r.s.(killed := true, engaged := r.s.engaged || risk.Some?))
    case KillOff => r.(s := r.s.(killed := false, engaged := r.s.engaged && risk.None?))
    case StoreSet(on) => r.(s := r.s.(engaged := on))
  }

  ghost predicate Possible(risk: Option<Limits>, r: Run, ops: seq<Op>)
    decreases |ops|
  {
    ops == [] || (Enabled(r, ops[0]) && Possible(risk, Next(risk, r, ops[0]), ops[1..]))
  }

  function After(risk: Option<Limits>, r: Run, ops: seq<Op>): Run
    requires Possible(risk, r, ops)
    decreases |ops|
  {
    if ops == [] then r else After(risk, Next(risk, r, ops[0]), ops[1..])
  }

  ghost predicate RunsTo(risk: Option<Limits>, ops: seq<Op>, r: Run) {
    Possible(risk, START, ops) && After(risk, START, ops) == r
  }

  /** Some run from an empty orchestrator ends in r. */
  ghost predicate Reachable(risk: Option<Limits>, r: Run) { exists ops :: RunsTo(risk, ops, r) }

  // ----- the admission cap -------------------------------------------------

  /** c's registered executors that are not terminated. */
  ghost function Open(at: map<string, Exec>, c: string): set<string> {
    set id | id in at && at[id].controller == c && at[id].phase != Terminated
  }

  ghost predicate Capped(r: Run, c: string, cap: int) {
    |Open(r.s.executors.at, c) * r.gated| <= if cap < 0 then 0 else cap
  }

  lemma OpenIsListed(d: Dict<string, Exec>, c: string)
    ensures |Open(d.at, c)| == |List(d, c, false)|
  {
    ListFacts(d, c, false);
    NoDupCard(List(d, c, false));
    assert Open(d.at, c) == Elems(List(d, c, false));
  }

  lemma CappedByShrinking(a: set<string>, b: set<string>, cap: int)
    requires a <= b && |b| <= if cap < 0 then 0 else cap
    ensures |a| <= if cap < 0 then 0 else cap
  {
    SubsetCard(a, b);
  }

  lemma CappedByAdmission(a: set<string>, open: set<string>, id: string, cap: int)
    requires a <= open + {id} && |open| < cap
    ensures |a| <= cap
  {
    SubsetCard(a, open + {id});
  }

  /** Nothing but a gated spawn can add to the gated open executors. */
  lemma StepShrinks(risk: Option<Limits>, r: Run, op: Op, c: string)
    requires Enabled(r, op)
    requires !(op.Spawn? && op.exec.controller == c && risk.Some? && op.request.Some?
               && SpawnVerdict(risk, r.s, c, op.request, op.telemetry).None?)
    ensures var r' := Next(risk, r, op);
            Open(r'.s.executors.at, c) * r'.gated <= Open(r.s.executors.at, c) * r.gated
  {
    hide OrderedDict.Valid, Prune, SpawnVerdict, List;
    match op {
      case TickDone(k, _, _, _) => PruneSubset(TickPruning(r.ticking[k], op), r.s, k);
      case PruneNow(k, p) => PruneSubset(p, r.s, k);
      case Work(id, moves) => MovesEvolve(r.s.executors.at[id], moves);
      case _ =>
    }
  }

  lemma PruneSubset(p: Pruning, s: State, c: string)
    ensures forall id :: id in Prune(p, s, c).executors.at ==>
              id in s.executors.at && Prune(p, s, c).executors.at[id] == s.executors.at[id]
  {
    hide OrderedDict.Valid, PruneOne;
    var ids := Surplus(p, s, c);
    forall id | id in Prune(p, s, c).executors.at
      ensures id in s.executors.at && Prune(p, s, c).executors.at[id] == s.executors.at[id]
    {
      PruneToDrops(p, s, c, ids, |ids|, id);
    }
  }

  lemma CapStep(lim: Limits, r: Run, op: Op, c: string)
    requires lim.maxOpen.Some? && Enabled(r, op) && Capped(r, c, lim.maxOpen.value)
    ensures Capped(Next(Some(lim), r, op), c, lim.maxOpen.value)
  {
    hide OrderedDict.Valid, List, Next, SpawnVerdict;
    var risk, cap := Some(lim), lim.maxOpen.value;
    var r' := Next(risk, r, op);
    var mine, mine' := Open(r.s.executors.at, c) * r.gated, Open(r'.s.executors.at, c) * r'.gated;
    if op.Spawn? && op.exec.controller == c && op.request.Some?
       && SpawnVerdict(risk, r.s, c, op.request, op.telemetry).None? {
      AdmittedBelowCap(lim, r, op);
      OpenIsListed(r.s.executors, c);
      AdmittedAdds(lim, r, op);
      CappedByAdmission(mine', Open(r.s.executors.at, c), op.id, cap);
    } else {
      StepShrinks(risk, r, op, c);
      CappedByShrinking(mine', mine, cap);
    }
  }

  lemma AdmittedBelowCap(lim: Limits, r: Run, op: Op)
    requires lim.maxOpen.Some? && op.Spawn? && op.request.Some?
    requires SpawnVerdict(Some(lim), r.s, op.exec.controller, op.request, op.telemetry).None?
    ensures |List(r.s.executors, op.exec.controller, false)| < lim.maxOpen.value
  {
  }

  lemma AdmittedAdds(lim: Limits, r: Run, op: Op)
    requires Enabled(r, op) && op.Spawn? && op.request.Some?
    requires SpawnVerdict(Some(lim), r.s, op.exec.controller, op.request, op.telemetry).None?
    ensures var r', c := Next(Some(lim), r, op), op.exec.controller;
            && Open(r'.s.executors.at, c) * r'.gated <= Open(r.s.executors.at, c) + {op.id}
            && op.id in r'.gated && op.id in r'.s.executors.at && r'.s.executors.at[op.id] == op.exec
  {
    hide OrderedDict.Valid, SpawnVerdict;
  }

  lemma {:induction false} CapFrom(lim: Limits, r: Run, ops: seq<Op>, c: string)
    requires lim.maxOpen.Some? && Possible(Some(lim), r, ops) && Capped(r, c, lim.maxOpen.value)
    ensures Capped(After(Some(lim), r, ops), c, lim.maxOpen.value)
    decreases |ops|
  {
    hide Capped, Next, Enabled;
    if ops != [] {
      CapStep(lim, r, ops[0], c);
      CapFrom(lim, Next(Some(lim), r, ops[0]), ops[1..], c);
    }
  }

  /** In every interleaving, at every point, each controller's registered, not terminated executors
      that came in through the risk gate never exceed max_open_executors. */
  lemma AdmissionCapHolds(lim: Limits, r: Run, c: string)
    requires lim.maxOpen.Some? && Reachable(Some(lim), r)
    ensures Capped(r, c, lim.maxOpen.value)
  {
    var ops :| RunsTo(Some(lim), ops, r);
    assert Open(START.s.executors.at, c) * START.gated == {};
    CapFrom(lim, START, ops, c);
  }

  /** With the engine attached a request is within its limits: fewer open executors than allowed, and a
      request that does not only reduce is within the size caps. */
  ghost predicate WithinLimits(lim: Limits, s: State, c: string, q: Request) {
    && (lim.maxOpen.Some? ==> |Open(s.executors.at, c)| < lim.maxOpen.value)
    && (!q.reduceOnly && lim.maxOrder.Some? ==> q.orderAmount <= lim.maxOrder.value)
    && (!q.reduceOnly && lim.maxPosition.Some? ==> q.positionSize <= lim.maxPosition.value)
  }

  /** A spawn is admitted exactly when neither switch is on and, with limits and a request to measure,
      the request is within them, by the executors open now and not by what the telemetry counts; the
      reason given otherwise is the kill switch if one is on, and else the limit that blocks. */
  lemma SpawnAdmittedIff(risk: Option<Limits>, s: State, c: string, q: Option<Request>, telemetry: Telemetry)
    ensures var verdict, killed := SpawnVerdict(risk, s, c, q, telemetry), s.killed || (risk.Some? && s.engaged);
            && (verdict.None? <==> !killed && (risk.Some? && q.Some? ==> WithinLimits(risk.value, s, c, q.value)))
            && (verdict == Some(Killed) <==> killed)
            && (verdict.Some? && !killed ==> verdict.value.Blocked?)
            && (risk.Some? && q.Some? && !killed && risk.value.maxOpen.Some?
                && |Open(s.executors.at, c)| >= risk.value.maxOpen.value ==>
                  verdict == Some(Blocked(MaxOpenExecutors)))
  {
    hide List;
    OpenIsListed(s.executors, c);
  }

  // ----- the kill switch ---------------------------------------------------

  /** Every step of the run is taken while killed. */
  ghost predicate KilledThroughout(risk: Option<Limits>, r: Run, ops: seq<Op>)
    requires Possible(risk, r, ops)
    decreases |ops|
  {
    ops == [] || (IsKilled(risk, r.s) && KilledThroughout(risk, Next(risk, r, ops[0]), ops[1..]))
  }

  function AdoptedIds(ops: seq<Op>): set<string> {
    set i | 0 <= i < |ops| && ops[i].Adopted? :: ops[i].id
  }

  lemma KilledStep(risk: Option<Limits>, r: Run, op: Op, c: string)
    requires Enabled(r, op) && IsKilled(risk, r.s)
    ensures Open(Next(risk, r, op).s.executors.at, c)
            <= Open(r.s.executors.at, c) + (if op.Adopted? then {op.id} else {})
  {
    hide OrderedDict.Valid, Prune, List;
    match op {
      case TickDone(k, _, _, _) => PruneSubset(TickPruning(r.ticking[k], op), r.s, k);
      case PruneNow(k, p) => PruneSubset(p, r.s, k);
      case Work(id, moves) => MovesEvolve(r.s.executors.at[id], moves);
      case _ =>
    }
  }

  /** While the kill switch stays on, no spawn, tick or executor adds an open executor: only orders
      already placed and adopted can. */
  lemma {:induction false} KilledOnlyShrinks(risk: Option<Limits>, r: Run, ops: seq<Op>, c: string)
    requires Possible(risk, r, ops) && KilledThroughout(risk, r, ops)
    ensures Open(After(risk, r, ops).s.executors.at, c) <= Open(r.s.executors.at, c) + AdoptedIds(ops)
    decreases |ops|
  {
    hide Next, Enabled, IsKilled, Open;
    if ops != [] {
      KilledStep(risk, r, ops[0], c);
      KilledOnlyShrinks(risk, Next(risk, r, ops[0]), ops[1..], c);
      AdoptedSplit(ops);
    }
  }

  lemma AdoptedSplit(ops: seq<Op>)
    requires ops != []
    ensures (if ops[0].Adopted? then {ops[0].id} else {}) + AdoptedIds(ops[1..]) <= AdoptedIds(ops)
  {
    forall i | 0 <= i < |ops[1..]| ensures ops[1..][i] == ops[i + 1] {}
  }

  // ----- rollback ----------------------------------------------------------

  /** With a fresh id and nothing in between, the registry after a throttled spawn is exactly what it
      was before it. */
  lemma ThrottleUndoesSpawn(risk: Option<Limits>, s: State, id: string, e: Exec, q: Option<Request>,
                            telemetry: Telemetry)
    requires id !in s.executors.at && SpawnVerdict(risk, s, e.controller, q, telemetry).None?
    ensures SpawnEnd(SpawnBegin(risk, s, id, e, q, telemetry), id, e.controller, Creation.Throttled).executors
            == s.executors
  {
    hide OrderedDict.Valid;
    DictKeys(s.executors);
    DictSums.WithoutLast(s.executors.order, id);
    assert s.executors.at[id := e] - {id} == s.executors.at;
  }

  // ----- pruning over a tick -----------------------------------------------

  /** Ids are never reused. */
  predicate FreshIds(r: Run, op: Op) {
    (op.Spawn? ==> op.id !in r.used && op.exec.phase.Created?) && (op.Adopted? ==> op.id !in r.used)
  }

  ghost predicate AllFresh(risk: Option<Limits>, r: Run, ops: seq<Op>)
    requires Possible(risk, r, ops)
    decreases |ops|
  {
    ops == [] || (FreshIds(r, ops[0]) && AllFresh(risk, Next(risk, r, ops[0]), ops[1..]))
  }

  ghost predicate RunsFreshTo(risk: Option<Limits>, ops: seq<Op>, r: Run) {
    RunsTo(risk, ops, r) && AllFresh(risk, START, ops)
  }

  /** Some run that never reuses an id ends in r. */
  ghost predicate FreshlyReachable(risk: Option<Limits>, r: Run) { exists ops :: RunsFreshTo(risk, ops, r) }

  /** If c's tick in flight saw id terminated, it still is, unless it is gone. */
  ghost predicate TickSound(r: Run, c: string, id: string) {
    && (id in r.s.executors.at ==> id in r.used)
    && (c in r.ticking && id in r.ticking[c] ==>
          id in r.used && (id in r.s.executors.at ==> Listed(r.s.executors.at[id], c, true)))
  }

  lemma TickSoundStep(risk: Option<Limits>, r: Run, op: Op, c: string, id: string)
    requires TickSound(r, c, id) && Enabled(r, op) && FreshIds(r, op)
    ensures TickSound(Next(risk, r, op), c, id)
  {
    hide OrderedDict.Valid, Prune, List, SpawnVerdict, MayStillRest, TickPruning;
    match op {
      case TickDone(k, _, _, _) => PruneSubset(TickPruning(r.ticking[k], op), r.s, k);
      case PruneNow(k, p) => PruneSubset(p, r.s, k);
      case Work(id, moves) => MovesEvolve(r.s.executors.at[id], moves);
      case _ =>
    }
  }

  lemma {:induction false} TicksStaySound(risk: Option<Limits>, r: Run, ops: seq<Op>, c: string, id: string)
    requires Possible(risk, r, ops) && AllFresh(risk, r, ops) && TickSound(r, c, id)
    ensures TickSound(After(risk, r, ops), c, id)
    decreases |ops|
  {
    hide Next, Enabled, FreshIds, TickSound;
    if ops != [] {
      TickSoundStep(risk, r, ops[0], c, id);
      TicksStaySound(risk, Next(risk, r, ops[0]), ops[1..], c, id);
    }
  }

  /** How executor `id` stands: how it ended, if registered and terminated. */
  ghost predicate EndedAs(r: Run, id: string, e: Exec) {
    && id in r.s.executors.at && r.s.executors.at[id].phase.Terminated? && e.phase.Terminated?
    && r.s.executors.at[id].closeType == e.closeType && r.s.executors.at[id].terminatedAt == e.terminatedAt
    && r.s.executors.at[id].controller == e.controller
  }

  lemma EndedStep(risk: Option<Limits>, r: Run, op: Op, id: string, e: Exec)
    requires Enabled(r, op) && FreshIds(r, op) && id in r.used
    requires EndedAs(r, id, e) || id !in r.s.executors.at
    ensures var r' := Next(risk, r, op);
            id in r'.used && (id in r'.s.executors.at ==> id in r.s.executors.at && EndedAs(r', id, e))
  {
    hide OrderedDict.Valid, Prune, List, SpawnVerdict;
    match op {
      case TickDone(k, _, _, _) => PruneSubset(TickPruning(r.ticking[k], op), r.s, k);
      case PruneNow(k, p) => PruneSubset(p, r.s, k);
      case Work(id, moves) => MovesEvolve(r.s.executors.at[id], moves);
      case _ =>
    }
  }

  /** A terminated executor keeps its first close type and time for good, and once dropped it never
      comes back. */
  lemma {:induction false} EndIsFinal(risk: Option<Limits>, r: Run, ops: seq<Op>, id: string, e: Exec)
    requires Possible(risk, r, ops) && AllFresh(risk, r, ops) && id in r.used
    requires EndedAs(r, id, e) || id !in r.s.executors.at
    ensures var r' := After(risk, r, ops);
            id in r'.s.executors.at ==> id in r.s.executors.at && EndedAs(r', id, e)
    decreases |ops|
  {
    hide Next, Enabled, FreshIds, EndedAs;
    if ops != [] {
      EndedStep(risk, r, ops[0], id, e);
      EndIsFinal(risk, Next(risk, r, ops[0]), ops[1..], id, e);
    }
  }

  lemma PendingUsedStep(risk: Option<Limits>, r: Run, op: Op)
    requires Enabled(r, op) && r.pending.Keys <= r.used
    ensures Next(risk, r, op).pending.Keys <= Next(risk, r, op).used
  {
    hide OrderedDict.Valid, Prune, SpawnVerdict, TerminatedNow;
  }

  lemma {:induction false} PendingUsed(risk: Option<Limits>, r: Run, ops: seq<Op>)
    requires Possible(risk, r, ops) && r.pending.Keys <= r.used
    ensures After(risk, r, ops).pending.Keys <= After(risk, r, ops).used
    decreases |ops|
  {
    hide Next, Enabled;
    if ops != [] {
      PendingUsedStep(risk, r, ops[0]);
      PendingUsed(risk, Next(risk, r, ops[0]), ops[1..]);
    }
  }

  lemma ThrottledStep(risk: Option<Limits>, r: Run, id: string)
    requires id in r.pending
    ensures var r' := Next(risk, r, Spawned(id, Creation.Throttled));
            r'.s.executors.at == r.s.executors.at - {id} && r'.s.banked == r.s.banked && r'.used == r.used
  {
    hide OrderedDict.Valid;
  }

  /** At every point of every run a throttled spawn takes its own entry out of the registry and
      nobody else's, and as ids are not reused the entry is out for good: no slot leaks. */
  lemma ThrottledLeavesNothing(risk: Option<Limits>, r: Run, id: string, r': Run, later: seq<Op>)
    requires Reachable(risk, r) && id in r.pending && r' == Next(risk, r, Spawned(id, Creation.Throttled))
    requires Possible(risk, r', later) && AllFresh(risk, r', later)
    ensures r'.s.executors.at == r.s.executors.at - {id} && r'.s.banked == r.s.banked
    ensures id !in After(risk, r', later).s.executors.at
  {
    hide Next, Possible, AllFresh, After, EndedAs;
    var ops :| RunsTo(risk, ops, r);
    PendingUsed(risk, START, ops);
    ThrottledStep(risk, r, id);
    EndIsFinal(risk, r', later, id, Exec("", Created, None, 0.0, [], Counts(0, 0, 0), false));
  }

  /** The successful end of a tick takes executor id out of the registry. */
  predicate TickDrops(risk: Option<Limits>, r: Run, op: Op, id: string) {
    op.TickDone? && Enabled(r, op) && id in r.s.executors.at && id !in Next(risk, r, op).s.executors.at
  }

  /** Whatever a successful tick drops had terminated before that tick began, has no order that is not
      known to be terminal or of unknown state, was released by the predicate if there is one, and
      leaves `keep` terminated executors of the controller, no older, behind. If it failed, it has an
      order attribute at all. */
  lemma TickDropsAreSafe(risk: Option<Limits>, r: Run, op: Op, id: string) returns (kept: set<string>)
    requires FreshlyReachable(risk, r) && TickDrops(risk, r, op, id)
    ensures var e := r.s.executors.at[id];
            && op.c in r.ticking && id in r.ticking[op.c]
            && e.controller == op.c && e.phase == Terminated && !MayStillRest(e)
            && (forall i :: 0 <= i < |e.handles| && e.handles[i].Known? ==> e.handles[i].terminal)
            && (e.closeType == Some(Failed) ==> exists i :: 0 <= i < |e.handles| && !e.handles[i].NoAttribute?)
            && (op.predicated.Some? ==> op.predicated.value(id) == Release)
            && |kept| == op.keep && id !in kept
            && forall x :: x in kept ==> x in Next(risk, r, op).s.executors.at && NoOlder(r.s.executors.at, op.c, x, id)
  {
    hide Prune, List, MayStillRest, Possible, AllFresh, OrderedDict.Valid;
    var ops :| RunsFreshTo(risk, ops, r);
    SettledIff(r.s.executors.at[id]);
    TicksStaySound(risk, START, ops, op.c, id);
    DroppedIff(TickPruning(r.ticking[op.c], op), r.s, op.c, id);
    kept := NewestSurvive(TickPruning(r.ticking[op.c], op), r.s, op.c, id);
  }

  /** And nothing else holds an executor back: beyond the newest `keep` of those that had terminated
      before the tick, one whose orders are all terminal, missing or of unknown state, and that did not
      fail without any order attribute, is dropped. */
  lemma TickDropsSettled(risk: Option<Limits>, r: Run, op: Op, id: string)
    requires op.TickDone? && Enabled(r, op) && op.predicated.None?
    requires id in r.ticking[op.c] && id in List(r.s.executors, op.c, true)
    requires id in r.s.executors.at && |AheadOf(r.s, op.c, id)| >= op.keep
    requires var e := r.s.executors.at[id];
             && (forall i :: 0 <= i < |e.handles| ==> e.handles[i] != Known(false))
             && (e.closeType != Some(Failed) || exists i :: 0 <= i < |e.handles| && e.handles[i] != NoAttribute)
    ensures TickDrops(risk, r, op, id)
  {
    hide Prune, List, MayStillRest, AheadOf, OrderedDict.Valid;
    ListFacts(r.s.executors, op.c, true);
    DroppedIff(TickPruning(r.ticking[op.c], op), r.s, op.c, id);
  }

  // ----- order counts over runs --------------------------------------------

  /** Every prune of the run banks without raising, for a registered controller. */
  ghost predicate BanksCleanly(r: Run, op: Op) {
    && (op.TickDone? && op.c in r.ticking ==> op.c in r.s.banked && BanksAll(TickPruning(r.ticking[op.c], op)))
    && (op.PruneNow? ==> op.c in r.s.banked && BanksAll(op.pruning))
  }

  ghost predicate AllBankCleanly(risk: Option<Limits>, r: Run, ops: seq<Op>)
    requires Possible(risk, r, ops)
    decreases |ops|
  {
    ops == [] || (BanksCleanly(r, ops[0]) && AllBankCleanly(risk, Next(risk, r, ops[0]), ops[1..]))
  }

  /** What registering e under id adds to a figure of c. */
  function PutDelta(f: Figure, d: Dict<string, Exec>, id: string, e: Exec, c: string): real {
    Share(f, c)(e) - DictSums.Term(d.at, id, Share(f, c))
  }

  /** What a step adds to c's figure by itself: what executors do, and what comes and goes with the
      entries they are registered under. A prune adds nothing. */
  function Delta(f: Figure, risk: Option<Limits>, r: Run, op: Op, c: string): real
    requires Enabled(r, op)
  {
    match op
    case Spawn(id, e, q, telemetry) =>
      if SpawnVerdict(risk, r.s, e.controller, q, telemetry).None? then PutDelta(f, r.s.executors, id, e, c) else 0.0
    case Spawned(id, result) => if result.Throttled? then -DictSums.Term(r.s.executors.at, id, Share(f, c)) else 0.0
    case Adopted(id, e) => PutDelta(f, r.s.executors, id, e, c)
    case Work(id, moves) => PutDelta(f, r.s.executors, id, MadeAll(r.s.executors.at[id], moves), c)
    case Register(k) => if k == c && !IsKilled(risk, r.s) && c in r.s.banked then -Value(f, r.s.banked[c]) else 0.0
    case _ => 0.0
  }

  function Deltas(f: Figure, risk: Option<Limits>, r: Run, ops: seq<Op>, c: string): real
    requires Possible(risk, r, ops)
    decreases |ops|
  {
    if ops == [] then 0.0 else Delta(f, risk, r, ops[0], c) + Deltas(f, risk, Next(risk, r, ops[0]), ops[1..], c)
  }

  lemma EntriesCount(f: Figure, risk: Option<Limits>, r: Run, op: Op, c: string)
    requires Enabled(r, op) && (op.Spawn? || op.Spawned? || op.Adopted? || op.Work?)
    ensures OrderCount(f, Next(risk, r, op).s, c) == OrderCount(f, r.s, c) + Delta(f, risk, r, op, c)
  {
    hide OrderedDict.Valid, DictSums.Sum, Share, SpawnVerdict, MadeAll, TerminatedNow, OrderedDict.Put,
         OrderedDict.Remove, Value;
    match op {
      case Spawn(id, e, _, _) => DictSums.SumPut(r.s.executors, id, e, Share(f, c));
      case Spawned(id, _) => DictSums.SumRemove(r.s.executors, id, Share(f, c));
      case Adopted(id, e) => DictSums.SumPut(r.s.executors, id, e, Share(f, c));
      case Work(id, moves) => DictSums.SumPut(r.s.executors, id, MadeAll(r.s.executors.at[id], moves), Share(f, c));
    }
  }

  lemma OthersCount(f: Figure, risk: Option<Limits>, r: Run, op: Op, c: string)
    requires Enabled(r, op) && BanksCleanly(r, op) && !(op.Spawn? || op.Spawned? || op.Adopted? || op.Work?)
    ensures OrderCount(f, Next(risk, r, op).s, c) == OrderCount(f, r.s, c) + Delta(f, risk, r, op, c)
  {
    hide OrderedDict.Valid, DictSums.Sum, Share, Prune, MadeAll, TerminatedNow;
    match op {
      case TickDone(k, _, _, _) => CountsConserved(f, TickPruning(r.ticking[k], op), r.s, k, c);
      case PruneNow(k, p) => CountsConserved(f, p, r.s, k, c);
      case Register(_) => FiguresOfNothing(f);
      case _ =>
    }
  }

  lemma CountsStep(f: Figure, risk: Option<Limits>, r: Run, op: Op, c: string)
    requires Enabled(r, op) && BanksCleanly(r, op)
    ensures OrderCount(f, Next(risk, r, op).s, c) == OrderCount(f, r.s, c) + Delta(f, risk, r, op, c)
  {
    hide Enabled, BanksCleanly, Next, OrderCount, Delta;
    if op.Spawn? || op.Spawned? || op.Adopted? || op.Work? {
      EntriesCount(f, risk, r, op, c);
    } else {
      OthersCount(f, risk, r, op, c);
    }
  }

  lemma FiguresOfNothing(f: Figure)
    ensures Value(f, Counts(0, 0, 0)) == 0.0
  {
  }

  /** Over whole runs a controller's order counts move with what its executors do and with nothing
      else: however many ticks and prunes drop executors, none of their orders is forgotten. */
  lemma {:induction false} CountsOverRuns(f: Figure, risk: Option<Limits>, r: Run, ops: seq<Op>, c: string)
    requires Possible(risk, r, ops) && AllBankCleanly(risk, r, ops)
    ensures OrderCount(f, After(risk, r, ops).s, c) == OrderCount(f, r.s, c) + Deltas(f, risk, r, ops, c)
    decreases |ops|
  {
    hide Next, Enabled, BanksCleanly, OrderCount, Delta;
    if ops != [] {
      CountsStep(f, risk, r, ops[0], c);
      CountsOverRuns(f, risk, Next(risk, r, ops[0]), ops[1..], c);
    }
  }

  /** Controllers stay registered, and only registered ones tick, so a tick's prune always banks. */
  ghost predicate TickersRegistered(r: Run) { forall c :: c in r.ticking ==> c in r.s.banked }

  lemma RegisteredStep(risk: Option<Limits>, r: Run, op: Op)
    requires Enabled(r, op) && TickersRegistered(r)
    ensures TickersRegistered(Next(risk, r, op)) && r.s.banked.Keys <= Next(risk, r, op).s.banked.Keys
  {
    hide OrderedDict.Valid, Prune, SpawnVerdict, MadeAll, TerminatedNow;
    match op {
      case TickDone(k, _, _, _) => PruneKeepsControllers(TickPruning(r.ticking[k], op), r.s, k);
      case PruneNow(k, p) => PruneKeepsControllers(p, r.s, k);
      case _ =>
    }
  }

  lemma PruneKeepsControllers(p: Pruning, s: State, c: string)
    ensures Prune(p, s, c).banked.Keys == s.banked.Keys
  {
    var ids := Surplus(p, s, c);
    PruneToKeepsControllers(p, s, c, ids, |ids|);
  }

  lemma {:induction false} PruneToKeepsControllers(p: Pruning, s: State, c: string, ids: seq<string>, n: nat)
    requires n <= |ids|
    ensures PruneTo(p, s, c, ids, n).banked.Keys == s.banked.Keys
  {
    hide OrderedDict.Valid, Drops;
    if n > 0 { PruneToKeepsControllers(p, s, c, ids, n - 1); }
  }

  lemma {:induction false} TickersStayRegistered(risk: Option<Limits>, r: Run, ops: seq<Op>)
    requires Possible(risk, r, ops) && TickersRegistered(r)
    ensures TickersRegistered(After(risk, r, ops)) && r.s.banked.Keys <= After(risk, r, ops).s.banked.Keys
    decreases |ops|
  {
    hide Next, Enabled, TickersRegistered;
    if ops != [] {
      RegisteredStep(risk, r, ops[0]);
      TickersStayRegistered(risk, Next(risk, r, ops[0]), ops[1..]);
    }
  }

  /** At every point of every run, the end of a tick whose banking does not raise leaves the order
      counts of every controller as they were, whatever it drops. */
  lemma TickKeepsCounts(f: Figure, risk: Option<Limits>, r: Run, op: Op, c: string)
    requires Reachable(risk, r) && op.TickDone? && Enabled(r, op) && forall id :: op.bank(id).Whole?
    ensures OrderCount(f, Next(risk, r, op).s, c) == OrderCount(f, r.s, c)
  {
    hide OrderCount, Possible, After, Next;
    var ops :| RunsTo(risk, ops, r);
    TickersStayRegistered(risk, START, ops);
    OthersCount(f, risk, r, op, c);
  }

  // ----- why the last spawn failed -----------------------------------------

  /** What a step emits. */
  function NoticesOf(risk: Option<Limits>, r: Run, op: Op): seq<Notice>
    requires Enabled(r, op)
  {
    match op
    case Spawn(id, e, q, telemetry) => SpawnNotices(risk, r.s, id, e.controller, q, telemetry)
    case Spawned(id, result) => EndNotices(id, r.pending[id], result)
    case Adopted(id, e) => [SpawnDone(id, e.controller)]
    case KillOn => [KillSwitchEngaged]
    case _ => []
  }

  /** A notice is about the executor and the controller of the step that gave it. */
  lemma NoticesNameTheirOwn(risk: Option<Limits>, r: Run, op: Op, n: Notice)
    requires Enabled(r, op) && n in NoticesOf(risk, r, op) && !n.KillSwitchEngaged?
    ensures op.Spawn? || op.Spawned? || op.Adopted?
    ensures n.id == op.id && n.c == if op.Spawned? then r.pending[op.id] else op.exec.controller
    ensures n.SpawnDone? <==> op.Adopted? || (op.Spawned? && op.result.Ready?)
    ensures n.SpawnFailed? <==> op.Spawned? && op.result.ExecutorFailed?
  {
    hide SpawnVerdict;
  }

  /** What a step's notice says about c's latest finished spawn or adoption, if it says anything. */
  function WordOf(risk: Option<Limits>, r: Run, op: Op, c: string): Option<Option<Reason>>
    requires Enabled(r, op)
  {
    var notices := NoticesOf(risk, r, op);
    if notices == [] then None else Says(notices[0], c)
  }

  /** Nothing in the run speaks of c. */
  ghost predicate SilentOn(risk: Option<Limits>, r: Run, ops: seq<Op>, c: string)
    requires Possible(risk, r, ops)
    decreases |ops|
  {
    ops == [] || (WordOf(risk, r, ops[0], c).None? && SilentOn(risk, Next(risk, r, ops[0]), ops[1..], c))
  }

  /** last_spawn_reason. */
  function LastReason(s: State, c: string): Option<Reason> {
    if c in s.lastReason then Some(s.lastReason[c]) else None
  }

  lemma ReportSpawn(risk: Option<Limits>, r: Run, op: Op, c: string)
    requires (op.Spawn? || op.Spawned? || op.Adopted?) && Enabled(r, op)
    ensures var w := WordOf(risk, r, op, c);
            LastReason(Next(risk, r, op).s, c) == if w.None? then LastReason(r.s, c) else w.value
  {
    hide OrderedDict.Valid, Prune, SpawnVerdict, TerminatedNow, MadeAll, TickPruning;
  }

  lemma OthersKeepReasons(risk: Option<Limits>, r: Run, op: Op)
    requires !op.Spawn? && !op.Spawned? && !op.Adopted? && Enabled(r, op)
    ensures Next(risk, r, op).s.lastReason == r.s.lastReason
  {
    hide OrderedDict.Valid, Prune, TerminatedNow, MadeAll;
    match op {
      case TickDone(k, _, _, _) => PruneKeepsReasons(TickPruning(r.ticking[k], op), r.s, k);
      case PruneNow(k, p) => PruneKeepsReasons(p, r.s, k);
      case _ =>
    }
  }

  lemma ReportStep(risk: Option<Limits>, r: Run, op: Op, c: string)
    requires Enabled(r, op)
    ensures var w := WordOf(risk, r, op, c);
            LastReason(Next(risk, r, op).s, c) == if w.None? then LastReason(r.s, c) else w.value
  {
    hide Next, SpawnVerdict;
    if op.Spawn? || op.Spawned? || op.Adopted? {
      ReportSpawn(risk, r, op, c);
    } else {
      OthersKeepReasons(risk, r, op);
    }
  }

  lemma PruneKeepsReasons(p: Pruning, s: State, c: string)
    ensures Prune(p, s, c).lastReason == s.lastReason
  {
    var ids := Surplus(p, s, c);
    PruneToKeepsReasons(p, s, c, ids, |ids|);
  }

  lemma {:induction false} PruneToKeepsReasons(p: Pruning, s: State, c: string, ids: seq<string>, n: nat)
    requires n <= |ids|
    ensures PruneTo(p, s, c, ids, n).lastReason == s.lastReason
  {
    if n > 0 { PruneToKeepsReasons(p, s, c, ids, n - 1); }
  }

  lemma {:induction false} SilenceKeeps(risk: Option<Limits>, r: Run, ops: seq<Op>, c: string)
    requires Possible(risk, r, ops) && SilentOn(risk, r, ops, c)
    ensures LastReason(After(risk, r, ops).s, c) == LastReason(r.s, c)
    decreases |ops|
  {
    hide Next, Enabled, WordOf, LastReason;
    if ops != [] {
      ReportStep(risk, r, ops[0], c);
      SilenceKeeps(risk, Next(risk, r, ops[0]), ops[1..], c);
    }
  }

  /** last_spawn_reason and the events tell one story: whatever happened before, and whatever other
      controllers do after, as long as no later event is about a spawn of c, last_spawn_reason gives
      the reason the latest such event gave, and nothing if it told of a success. */
  lemma LastReasonIsLatest(risk: Option<Limits>, r: Run, op: Op, r': Run, later: seq<Op>, c: string)
    requires Enabled(r, op) && r' == Next(risk, r, op) && WordOf(risk, r, op, c).Some?
    requires Possible(risk, r', later) && SilentOn(risk, r', later, c)
    ensures LastReason(After(risk, r', later).s, c) == WordOf(risk, r, op, c).value
  {
    hide Next, Enabled, WordOf;
    ReportStep(risk, r, op, c);
    SilenceKeeps(risk, r', later, c);
  }
}
