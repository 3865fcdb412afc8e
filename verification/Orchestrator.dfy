/** The orchestrator's executor registry: admission, adoption, rollback on throttle, and pruning. */
module Orchestrator {
  import opened OrderedDicts
  import opened Executors
  import opened Risk

  datatype Reason = Killed | Blocked(block: Block) | ExecuteThrottled | FailedToStart

  /** `banked` has every registered controller. With the engine attached its limits are passed along,
      and `engaged` is its kill-switch store. */
  datatype State = State(
    executors: Dict<string, Exec>,
    lastReason: map<string, Reason>,
    banked: map<string, Counts>,
    killed: bool,
    engaged: bool)

  predicate IsKilled(risk: Option<Limits>, s: State) { s.killed || (risk.Some? && s.engaged) }

  // ----- listing -----------------------------------------------------------

  predicate Listed(e: Exec, c: string, terminated: bool) { e.controller == c && e.phase.Terminated? == terminated }

  /** The first n ids in registry order that belong to c and are, or are not, terminated. */
  function ListTo(order: seq<string>, at: map<string, Exec>, c: string, terminated: bool, n: nat): seq<string>
    requires n <= |order|
  {
    if n == 0 then []
    else
      var before, id := ListTo(order, at, c, terminated, n - 1), order[n - 1];
      if id in at && Listed(at[id], c, terminated) then before + [id] else before
  }

  function List(d: Dict<string, Exec>, c: string, terminated: bool): seq<string> {
    ListTo(d.order, d.at, c, terminated, |d.order|)
  }

  // ----- spawning ----------------------------------------------------------

  /** What the risk gate says of a spawn request now. */
  function Gate(lim: Limits, s: State, c: string, q: Request, telemetry: Telemetry): Option<Block> {
    PreExecutor(lim, s.engaged, q, telemetry.(executorCount := |List(s.executors, c, false)|))
  }

  function SpawnVerdict(risk: Option<Limits>, s: State, c: string, q: Option<Request>,
                        telemetry: Telemetry): Option<Reason> {
    if IsKilled(risk, s) then Some(Killed)
    else if risk.Some? && q.Some? then
      var block := Gate(risk.value, s, c, q.value, telemetry);
      if block.Some? then Some(Blocked(block.value)) else None
    else None
  }

  /** spawn up to its await: rejected, or registered with on_create in flight. */
  function SpawnBegin(risk: Option<Limits>, s: State, id: string, e: Exec, q: Option<Request>,
                      telemetry: Telemetry): State {
    var verdict := SpawnVerdict(risk, s, e.controller, q, telemetry);
    if verdict.Some? then s.(lastReason := s.lastReason[e.controller := verdict.value])
    else s.(executors := s.executors.Put(id, e))
  }

  /** How on_create came back. */
  datatype Creation = Ready | Throttled | ExecutorFailed

  function SpawnEnd(s: State, id: string, c: string, result: Creation): State {
    match result
    case Ready => s.(lastReason := s.lastReason - {c})
    case Throttled => s.(executors := s.executors.Remove(id), lastReason := s.lastReason[c := ExecuteThrottled])
    case ExecutorFailed => s.(lastReason := s.lastReason[c := FailedToStart])
  }

  function Adopt(s: State, id: string, e: Exec): State {
    s.(executors := s.executors.Put(id, e), lastReason := s.lastReason - {e.controller})
  }

  // ----- what is emitted ---------------------------------------------------

  datatype Notice =
    | SpawnDone(id: string, c: string)
    | SpawnRejected(id: string, c: string, reason: Reason)
    | SpawnFailed(id: string, c: string)
    | KillSwitchEngaged

  function SpawnNotices(risk: Option<Limits>, s: State, id: string, c: string, q: Option<Request>,
                        telemetry: Telemetry): seq<Notice> {
    var verdict := SpawnVerdict(risk, s, c, q, telemetry);
    if verdict.Some? then [SpawnRejected(id, c, verdict.value)] else []
  }

  function EndNotices(id: string, c: string, result: Creation): seq<Notice> {
    match result
    case Ready => [SpawnDone(id, c)]
    case Throttled => [SpawnRejected(id, c, ExecuteThrottled)]
    case ExecutorFailed => [SpawnFailed(id, c)]
  }

  /** What a notice says of a controller's latest spawn: why it failed, or that it did not. */
  function Says(n: Notice, c: string): Option<Option<Reason>> {
    match n
    case SpawnDone(_, k) => if k == c then Some(None) else None
    case SpawnRejected(_, k, reason) => if k == c then Some(Some(reason)) else None
    case SpawnFailed(_, k) => if k == c then Some(Some(FailedToStart)) else None
    case KillSwitchEngaged => None
  }

  // ----- controllers -------------------------------------------------------

  /** spawn_controller registers a fresh controller, with nothing banked, unless killed. */
  function RegisterController(risk: Option<Limits>, s: State, c: string): State {
    if IsKilled(risk, s) then s else s.(banked := s.banked[c := Counts(0, 0, 0)])
  }

  // ----- pruning -----------------------------------------------------------

  datatype Verdict = Keep | Release | Raises

  /** How bank_executor_counts fares on an executor: a call that raises may have banked some part. */
  datatype Banking = Whole | Raised(part: Counts) {
    function Of(counts: Counts): Counts { if Whole? then counts else part }
  }

  /** What prune_terminated is called with, besides the controller. */
  datatype Pruning = Pruning(eligible: Option<set<string>>, keep: nat, predicated: Option<string -> Verdict>,
                             bank: string -> Banking)

  /** Stable insertion, newest termination first. */
  function Insert(at: map<string, Exec>, s: seq<string>, id: string): (r: seq<string>)
    requires id in at && forall k :: k in s ==> k in at
    ensures multiset(r) == multiset(s) + multiset{id}
    ensures forall k :: k in r <==> k in s || k == id
  {
    if s == [] || at[s[|s| - 1]].terminatedAt >= at[id].terminatedAt then s + [id]
    else
      assert s == s[..|s| - 1] + [s[|s| - 1]];
      Insert(at, s[..|s| - 1], id) + [s[|s| - 1]]
  }

  /** Python's stable sort by terminated_at, reversed, of the first n ids. */
  function Newest(at: map<string, Exec>, s: seq<string>, n: nat): (r: seq<string>)
    requires n <= |s| && forall k :: k in s ==> k in at
    ensures multiset(r) == multiset(s[..n])
    ensures forall k :: k in r <==> k in s[..n]
  {
    if n == 0 then []
    else
      assert s[..n] == s[..n - 1] + [s[n - 1]];
      Insert(at, Newest(at, s, n - 1), s[n - 1])
  }

  predicate Drops(p: Pruning, id: string, e: Exec) {
    && (p.eligible.Some? ==> id in p.eligible.value)
    && !MayStillRest(e)
    && (p.predicated.Some? ==> p.predicated.value(id) == Release)
  }

  function PruneOne(p: Pruning, s: State, c: string, id: string): State {
    if id !in s.executors.at || !Drops(p, id, s.executors.at[id]) then s
    else
      s.(executors := s.executors.Remove(id),
         banked := if c in s.banked
                   then s.banked[c := s.banked[c].Plus(p.bank(id).Of(s.executors.at[id].counts))] else s.banked)
  }

  function PruneTo(p: Pruning, s: State, c: string, ids: seq<string>, n: nat): State
    requires n <= |ids|
  {
    if n == 0 then s else PruneOne(p, PruneTo(p, s, c, ids, n - 1), c, ids[n - 1])
  }

  /** The terminated executors of c, newest first. */
  function Candidates(s: State, c: string): (ids: seq<string>)
    ensures forall id :: id in ids ==> id in s.executors.at
  {
    ListFacts(s.executors, c, true);
    var ids := List(s.executors, c, true);
    Newest(s.executors.at, ids, |ids|)
  }

  /** Those beyond the newest `keep`. */
  function Surplus(p: Pruning, s: State, c: string): seq<string> {
    var ids := Candidates(s, c);
    if |ids| <= p.keep then [] else ids[p.keep..]
  }

  function Prune(p: Pruning, s: State, c: string): State {
    PruneTo(p, s, c, Surplus(p, s, c), |Surplus(p, s, c)|)
  }

  // ----- facts about listing -----------------------------------------------

  lemma {:induction false} ListToFacts(order: seq<string>, at: map<string, Exec>, c: string, terminated: bool, n: nat)
    requires n <= |order| && NoDup(order)
    ensures var r := ListTo(order, at, c, terminated, n);
            && NoDup(r) && |r| <= n
            && (forall id :: id in r <==> id in order[..n] && id in at && Listed(at[id], c, terminated))
  {
    if n > 0 {
      ListToFacts(order, at, c, terminated, n - 1);
      assert order[..n] == order[..n - 1] + [order[n - 1]];
      assert order[n - 1] !in order[..n - 1];
    }
  }

  lemma ListFacts(d: Dict<string, Exec>, c: string, terminated: bool)
    ensures NoDup(List(d, c, terminated))
    ensures forall id :: id in List(d, c, terminated) <==> id in d.at && Listed(d.at[id], c, terminated)
    ensures forall id :: id in d.at ==>
              (id in List(d, c, terminated) <==>
                 d.at[id].controller == c && (terminated <==> d.at[id].phase == Terminated))
  {
    hide ListTo, OrderedDict.Valid;
    DictKeys(d);
    ListToFacts(d.order, d.at, c, terminated, |d.order|);
    assert d.order[..|d.order|] == d.order;
  }

  // ----- the class ---------------------------------------------------------

  class Registry {
    const risk: Option<Limits>
    const records: bool
    /** Everything handed to the event bus. */
    var emitted: seq<Notice>
    var executors: Dict<string, Exec>
    var lastReason: map<string, Reason>
    var banked: map<string, Counts>
    var killed: bool
    var engaged: bool

    ghost function Now(): State reads this { State(executors, lastReason, banked, killed, engaged) }

    function Stamped(e: Exec): Exec { if records then e.(recorded := true) else e }

    constructor (risk: Option<Limits>, records: bool)
      ensures this.risk == risk && this.records == records && emitted == []
              && Now() == State(Empty<string, Exec>(), map[], map[], false, false)
    {
      this.risk, this.records, emitted := risk, records, [];
      executors, lastReason, banked, killed, engaged := Empty(), map[], map[], false, false;
    }

    method KillSwitchOn()
      modifies this
      ensures Now() == old(Now()).(killed := true, engaged := old(engaged) || risk.Some?)
      ensures IsKilled(risk, Now()) && emitted == old(emitted) + [KillSwitchEngaged]
    {
      killed := true;
      if risk.Some? { engaged := true; }
      emitted := emitted + [KillSwitchEngaged];
    }

    method KillSwitchOff()
      modifies this
      ensures Now() == old(Now()).(killed := false, engaged := old(engaged) && risk.None?)
      ensures !IsKilled(risk, Now()) && emitted == old(emitted)
    {
      killed := false;
      if risk.Some? { engaged := false; }
    }

    method ListOf(c: string, terminated: bool) returns (ids: seq<string>)
      ensures ids == List(executors, c, terminated)
    {
      hide OrderedDict.Valid;
      DictKeys(executors);
      ids := [];
      for i := 0 to |executors.order|
        invariant ids == ListTo(executors.order, executors.at, c, terminated, i)
      {
        var id := executors.order[i];
        if Listed(executors.at[id], c, terminated) { ids := ids + [id]; }
      }
    }

    method BeginSpawn(id: string, e: Exec, q: Option<Request>, telemetry: Telemetry) returns (admitted: bool)
      modifies this
      ensures Now() == SpawnBegin(risk, old(Now()), id, Stamped(e), q, telemetry)
      ensures emitted == old(emitted) + SpawnNotices(risk, old(Now()), id, e.controller, q, telemetry)
      ensures admitted ==> id in executors.at && executors.at[id] == e.(recorded := records || e.recorded)
      ensures admitted == SpawnVerdict(risk, old(Now()), e.controller, q, telemetry).None?
    {
      if killed || (risk.Some? && engaged) {
        lastReason := lastReason[e.controller := Killed];
        emitted := emitted + [SpawnRejected(id, e.controller, Killed)];
        return false;
      }
      if risk.Some? && q.Some? {
        var open := ListOf(e.controller, false);
        var block := PreExecutor(risk.value, engaged, q.value, telemetry.(executorCount := |open|));
        if block.Some? {
          lastReason := lastReason[e.controller := Blocked(block.value)];
          emitted := emitted + [SpawnRejected(id, e.controller, Blocked(block.value))];
          return false;
        }
      }
      executors := executors.Put(id, Stamped(e));
      return true;
    }

    method EndSpawn(id: string, c: string, result: Creation) returns (ok: bool)
      modifies this`executors, this`lastReason, this`emitted
      ensures Now() == SpawnEnd(old(Now()), id, c, result) && ok == result.Ready?
      ensures emitted == old(emitted) + EndNotices(id, c, result)
    {
      hide OrderedDict.Valid, OrderedDict.Remove;
      match result {
        case Throttled =>
          executors, lastReason := executors.Remove(id), lastReason[c := ExecuteThrottled];
          emitted := emitted + [SpawnRejected(id, c, ExecuteThrottled)];
        case ExecutorFailed =>
          lastReason := lastReason[c := FailedToStart];
          emitted := emitted + [SpawnFailed(id, c)];
        case Ready =>
          lastReason := lastReason - {c};
          emitted := emitted + [SpawnDone(id, c)];
      }
      return result.Ready?;
    }

    method AdoptPlaced(id: string, e: Exec)
      modifies this`executors, this`lastReason, this`emitted
      ensures id in executors.at && executors.at[id] == e.(recorded := records || e.recorded)
      ensures Now() == Adopt(old(Now()), id, Stamped(e)) && emitted == old(emitted) + [SpawnDone(id, e.controller)]
    {
      executors, lastReason := executors.Put(id, Stamped(e)), lastReason - {e.controller};
      emitted := emitted + [SpawnDone(id, e.controller)];
    }

    method BeginController(c: string) returns (admitted: bool)
      modifies this
      ensures Now() == RegisterController(risk, old(Now()), c) && admitted == !IsKilled(risk, old(Now()))
    {
      if killed || (risk.Some? && engaged) { return false; }
      banked := banked[c := Counts(0, 0, 0)];
      return true;
    }

    method PruneIfDue(c: string, p: Pruning, id: string) returns (dropped: bool)
      requires id in executors.at
      modifies this`executors, this`banked
      ensures Now() == PruneOne(p, old(Now()), c, id)
      ensures |executors.order| == |old(executors).order| - if dropped then 1 else 0
    {
      hide OrderedDict.Valid, MayStillRest;
      dropped := false;
      var ex := executors.at[id];
      if p.eligible.Some? && id !in p.eligible.value { return; }
      var rests := OrderMayStillRest(ex);
      if rests { return; }
      if p.predicated.Some? && p.predicated.value(id) != Release { return; }
      if c in banked {
        banked := banked[c := banked[c].Plus(p.bank(id).Of(ex.counts))];
      }
      RemoveShrinks(executors, id);
      executors := executors.Remove(id);
      dropped := true;
    }

    method PruneTerminated(c: string, p: Pruning) returns (pruned: nat)
      modifies this`executors, this`banked
      ensures Now() == Prune(p, old(Now()), c)
      ensures pruned == |old(executors).order| - |executors.order|
    {
      hide OrderedDict.Valid, PruneOne, List, Newest;
      var terminated := ListOf(c, true);
      ListFacts(executors, c, true);
      var ids := Newest(executors.at, terminated, |terminated|);
      pruned := 0;
      if |ids| <= p.keep { return; }
      ghost var surplus := Surplus(p, Now(), c);
      for i := p.keep to |ids|
        invariant Now() == PruneTo(p, old(Now()), c, surplus, i - p.keep)
        invariant pruned == |old(executors).order| - |executors.order|
      {
        assert surplus[i - p.keep] == ids[i];
        if ids[i] in executors.at {
          var dropped := PruneIfDue(c, p, ids[i]);
          if dropped { pruned := pruned + 1; }
        } else {
          PruneAbsent(p, Now(), c, ids[i]);
        }
      }
    }
  }

  lemma PruneAbsent(p: Pruning, s: State, c: string, id: string)
    requires id !in s.executors.at
    ensures PruneOne(p, s, c, id) == s
  {
  }
}
