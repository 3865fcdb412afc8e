/** The executor base class: its one-way life and its retry loop. */
module Executors {
  import opened OrderedDicts

  datatype Phase = Created | Active | Terminated

  datatype CloseType = TakeProfit | StopLoss | TimeLimit | TrailingStop | EarlyStop | Completed | Failed

  /** An order attribute of an executor: not there, empty, an order of unknown state, or known. */
  datatype Handle = NoAttribute | NoOrder | NoState | Known(terminal: bool)

  datatype Counts = Counts(placed: int, filled: int, cancelled: int) {
    function Plus(c: Counts): Counts { Counts(placed + c.placed, filled + c.filled, cancelled + c.cancelled) }
  }

  /** `recorded` says that fills are mirrored to the trade recorder. */
  datatype Exec = Exec(controller: string, phase: Phase, closeType: Option<CloseType>, terminatedAt: real,
                       handles: seq<Handle>, counts: Counts, recorded: bool) {
    function Activate(): Exec { if phase.Created? then this.(phase := Active) else this }

    function Terminate(close: CloseType, now: real): Exec {
      if phase.Terminated? then this else this.(phase := Terminated, closeType := Some(close), terminatedAt := now)
    }
  }

  /** Whether a venue order of the executor might still rest. */
  predicate MayStillRest(e: Exec) {
    || (exists i :: 0 <= i < |e.handles| && e.handles[i] == Known(false))
    || (e.closeType == Some(Failed) && forall i :: 0 <= i < |e.handles| ==> e.handles[i].NoAttribute?)
  }

  /** The scan over order, close_order and entry_order. */
  method OrderMayStillRest(e: Exec) returns (rests: bool)
    ensures rests == MayStillRest(e)
    ensures !rests <==> Settled(e)
  {
    var hasHandle := false;
    for i := 0 to |e.handles|
      invariant hasHandle <==> exists j :: 0 <= j < i && !e.handles[j].NoAttribute?
      invariant forall j :: 0 <= j < i ==> e.handles[j] != Known(false)
    {
      if e.handles[i].NoAttribute? { continue; }
      hasHandle := true;
      if e.handles[i].Known? && !e.handles[i].terminal { return true; }
    }
    return e.closeType == Some(Failed) && !hasHandle;
  }

  /** No order of e is known to be open, and if e failed it at least has an order attribute. */
  predicate Settled(e: Exec) {
    && (forall i :: 0 <= i < |e.handles| && e.handles[i].Known? ==> e.handles[i].terminal)
    && (e.closeType == Some(Failed) ==> exists i :: 0 <= i < |e.handles| && !e.handles[i].NoAttribute?)
  }

  lemma SettledIff(e: Exec)
    ensures Settled(e) <==> !MayStillRest(e)
  {
    if !Settled(e) && exists i :: 0 <= i < |e.handles| && e.handles[i].Known? && !e.handles[i].terminal {
      var i :| 0 <= i < |e.handles| && e.handles[i].Known? && !e.handles[i].terminal;
      assert e.handles[i] == Known(false);
    }
  }

  /** Life goes one way, and the first termination fixes how and when it ended. */
  predicate Evolves(e: Exec, e': Exec) {
    && e'.controller == e.controller
    && (e.phase.Terminated? ==>
          e'.phase.Terminated? && e'.closeType == e.closeType && e'.terminatedAt == e.terminatedAt)
    && (e.phase.Active? ==> !e'.phase.Created?)
  }

  lemma LifeEvolves(e: Exec, close: CloseType, now: real)
    ensures Evolves(e, e.Activate()) && Evolves(e, e.Terminate(close, now))
    ensures e.phase.Created? ==> e.Activate() == e.(phase := Active)
    ensures !e.phase.Terminated? ==>
              e.Terminate(close, now) == e.(phase := Terminated, closeType := Some(close), terminatedAt := now)
    ensures e.Activate().Terminate(close, now).phase.Terminated?
    ensures e.Terminate(close, now).Activate() == e.Terminate(close, now)
    ensures forall c, t :: e.Terminate(close, now).Terminate(c, t) == e.Terminate(close, now)
  {
  }

  /** What code of a concrete executor does to it: the base class's two transitions, and its own
      bookkeeping of orders and counts. */
  datatype Move = Activated | Ended(close: CloseType, now: real) | Progressed(handles: seq<Handle>, counts: Counts)

  function Made(e: Exec, m: Move): Exec {
    match m
    case Activated => e.Activate()
    case Ended(close, now) => e.Terminate(close, now)
    case Progressed(handles, counts) => e.(handles := handles, counts := counts)
  }

  function MadeAll(e: Exec, moves: seq<Move>): Exec {
    if moves == [] then e else Made(MadeAll(e, moves[..|moves| - 1]), moves[|moves| - 1])
  }

  /** What one more move does: activation and the first termination as above, and bookkeeping of orders
      and counts at any time. */
  lemma OneMoveMore(e: Exec, moves: seq<Move>, m: Move)
    ensures var was, is' := MadeAll(e, moves), MadeAll(e, moves + [m]);
            && (m.Progressed? ==> is' == was.(handles := m.handles, counts := m.counts))
            && (m.Activated? ==> is' == if was.phase.Created? then was.(phase := Active) else was)
            && (m.Ended? ==> is' == if was.phase.Terminated? then was
                                    else was.(phase := Terminated, closeType := Some(m.close), terminatedAt := m.now))
            && MadeAll(e, []) == e
  {
    assert (moves + [m])[..|moves|] == moves;
  }

  /** Whatever an executor's code does through the base class, its life goes one way. */
  lemma {:induction false} MovesEvolve(e: Exec, moves: seq<Move>)
    ensures Evolves(e, MadeAll(e, moves))
  {
    if moves != [] { MovesEvolve(e, moves[..|moves| - 1]); }
  }

  // ----- the retry loop ----------------------------------------------------

  const MAX_ATTEMPTS: nat := 3

  datatype Outcome<T> = Done(value: T) | Throttled | Error

  /** How many of the first `attempts` tries end in an adapter error before one that does not. */
  function Errors<T>(op: nat -> Outcome<T>, from: nat, attempts: nat): nat
    decreases attempts
  {
    if attempts == 0 || !op(from).Error? then 0 else 1 + Errors(op, from + 1, attempts - 1)
  }

  /** Those tries are errors, and the next one, if there is one left, is not. */
  lemma {:induction false} ErrorsFirst<T>(op: nat -> Outcome<T>, from: nat, attempts: nat)
    ensures var n := Errors(op, from, attempts);
            && n <= attempts && (forall i :: from <= i < from + n ==> op(i).Error?)
            && (n < attempts ==> !op(from + n).Error?)
    decreases attempts
  {
    if attempts > 0 { ErrorsFirst(op, from + 1, attempts - 1); }
  }

  datatype Guarded<T> = Returned(value: T) | Deferred | Exhausted

  class ExecutorBase {
    var state: Exec
    var retries: nat

    constructor (state: Exec)
      ensures this.state == state && retries == 0
    {
      this.state, retries := state, 0;
    }

    /** The first try that is not an error decides, and a throttle defers without a retry or a
        termination; only MAX_ATTEMPTS errors in a row terminate the executor, as FAILED unless other
        code ended it during one of the suspensions, where `others` says what that code does: number
        2i is the wait for try i, and 2i + 1 the backoff sleep after it. */
    method Guard<T>(op: nat -> Outcome<T>, others: (nat, Exec) -> Exec, now: real) returns (r: Guarded<T>)
      requires forall i, e :: Evolves(e, others(i, e))
      modifies this
      ensures var n := Errors(op, 0, MAX_ATTEMPTS);
              var found := Meanwhile(others, old(state), if n < MAX_ATTEMPTS then 2 * n + 1 else 2 * MAX_ATTEMPTS - 1);
              && n <= MAX_ATTEMPTS && retries == old(retries) + n
              && (n == MAX_ATTEMPTS <==> r == Exhausted)
              && state == (if n == MAX_ATTEMPTS then found.Terminate(Failed, now) else found)
              && Evolves(old(state), state)
              && (r == Exhausted <==> op(0).Error? && op(1).Error? && op(2).Error?)
              && (n < MAX_ATTEMPTS ==> !op(n).Error? && r == if op(n).Done? then Returned(op(n).value) else Deferred)
    {
      var attempt := 0;
      while attempt < MAX_ATTEMPTS
        invariant attempt <= MAX_ATTEMPTS
        invariant Errors(op, 0, MAX_ATTEMPTS) == attempt + Errors(op, attempt, MAX_ATTEMPTS - attempt)
        invariant retries == old(retries) + attempt
        invariant state == Meanwhile(others, old(state),
                                     if attempt < MAX_ATTEMPTS then 2 * attempt else 2 * attempt - 1)
      {
        state := others(2 * attempt, state);
        MeanwhileEvolves(others, old(state), 2 * attempt + 1);
        match op(attempt) {
          case Done(v) => return Returned(v);
          case Throttled => return Deferred;
          case Error => retries := retries + 1;
        }
        if attempt < MAX_ATTEMPTS - 1 { state := others(2 * attempt + 1, state); }
        attempt := attempt + 1;
      }
      MeanwhileEvolves(others, old(state), 2 * MAX_ATTEMPTS - 1);
      state := state.Terminate(Failed, now);
      return Exhausted;
    }
  }

  /** The executor after n suspensions. */
  function Meanwhile(others: (nat, Exec) -> Exec, e: Exec, n: nat): Exec {
    if n == 0 then e else others(n - 1, Meanwhile(others, e, n - 1))
  }

  /** One suspension, two, and one more after any number. */
  lemma Suspensions(others: (nat, Exec) -> Exec, e: Exec, n: nat)
    ensures Meanwhile(others, e, 0) == e
    ensures Meanwhile(others, e, n + 1) == others(n, Meanwhile(others, e, n))
    ensures Meanwhile(others, e, 1) == others(0, e) && Meanwhile(others, e, 2) == others(1, others(0, e))
  {
    assert Meanwhile(others, e, 1) == others(0, e);
  }

  lemma {:induction false} MeanwhileEvolves(others: (nat, Exec) -> Exec, e: Exec, n: nat)
    requires forall i, x :: Evolves(x, others(i, x))
    ensures Evolves(e, Meanwhile(others, e, n))
  {
    if n > 0 { MeanwhileEvolves(others, e, n - 1); }
  }
}
