/** The orchestrator's event bus: a ring-buffer log and a bounded queue that drops its oldest event. */
module EventBus {

  /** The last n elements. */
  function Last<E>(s: seq<E>, n: nat): seq<E> { if |s| <= n then s else s[|s| - n..] }

  datatype Bus<E> = Bus(log: seq<E>, queue: seq<E>, overflows: nat)

  function Emitted<E>(logLimit: nat, queueLimit: nat, b: Bus<E>, e: E): Bus<E>
    requires queueLimit >= 1
  {
    var full := |b.queue| >= queueLimit;
    Bus(Last(b.log + [e], logLimit),
        (if full then b.queue[1..] else b.queue) + [e],
        if full then b.overflows + 1 else b.overflows)
  }

  /** queue.get() by a consumer; an empty queue makes it wait. */
  function Taken<E>(b: Bus<E>): Bus<E> { if b.queue == [] then b else b.(queue := b.queue[1..]) }

  function AtLeastOne(n: int): nat { if n > 1 then n else 1 }

  class Emitter<E> {
    const logLimit: nat
    const queueLimit: nat
    var log: seq<E>
    var queue: seq<E>
    var overflows: nat

    ghost predicate Valid() reads this { logLimit >= 1 && queueLimit >= 1 }

    ghost function State(): Bus<E> reads this { Bus(log, queue, overflows) }

    constructor (eventLogLimit: int, eventQueueLimit: int)
      ensures Valid() && State() == Bus([], [], 0)
      ensures logLimit == AtLeastOne(eventLogLimit) && queueLimit == AtLeastOne(eventQueueLimit)
      ensures eventLogLimit < 1 ==> logLimit == 1
      ensures eventLogLimit >= 1 ==> logLimit == eventLogLimit
      ensures eventQueueLimit < 1 ==> queueLimit == 1
      ensures eventQueueLimit >= 1 ==> queueLimit == eventQueueLimit
    {
      logLimit, queueLimit := AtLeastOne(eventLogLimit), AtLeastOne(eventQueueLimit);
      log, queue, overflows := [], [], 0;
    }

    method Emit(e: E)
      requires Valid()
      modifies this
      ensures State() == Emitted(logLimit, queueLimit, old(State()), e)
    {
      log := log + [e];
      if |log| > logLimit { log := log[|log| - logLimit..]; }
      if |queue| < queueLimit {
        queue := queue + [e];
      } else {
        queue := queue[1..];
        queue := queue + [e];
        overflows := overflows + 1;
      }
    }

    method Next() returns (e: E)
      requires queue != []
      modifies this`queue
      ensures e == old(queue[0]) && State() == Taken(old(State()))
    {
      e := queue[0];
      queue := queue[1..];
    }

    method DrainEvents() returns (out: seq<E>)
      modifies this`queue
      ensures out == old(queue) && queue == []
    {
      out := [];
      while queue != []
        invariant out + queue == old(queue)
        decreases |queue|
      {
        out := out + [queue[0]];
        queue := queue[1..];
      }
    }
  }
}

/** What consumers see of everything ever emitted. */
module EventBusRuns {
  import opened EventBus

  datatype Op<E> = Emit(event: E) | Take | Drain

  /** The bus with the ghost history of emissions and, for each event handed out, its place in it. */
  datatype Run<E> = Run(bus: Bus<E>, history: seq<E>, got: seq<E>, places: seq<nat>)

  function TakeOne<E>(r: Run<E>): Run<E>
    requires |r.bus.queue| <= |r.history|
  {
    if r.bus.queue == [] then r
    else Run(Taken(r.bus), r.history, r.got + [r.bus.queue[0]], r.places + [|r.history| - |r.bus.queue|])
  }

  function TakeAll<E>(r: Run<E>): Run<E>
    requires |r.bus.queue| <= |r.history|
    decreases |r.bus.queue|
  {
    if r.bus.queue == [] then r else TakeAll(TakeOne(r))
  }

  function Step<E>(logLimit: nat, queueLimit: nat, r: Run<E>, op: Op<E>): Run<E>
    requires queueLimit >= 1 && |r.bus.queue| <= |r.history|
  {
    match op
    case Emit(e) => r.(bus := Emitted(logLimit, queueLimit, r.bus, e), history := r.history + [e])
    case Take => TakeOne(r)
    case Drain => TakeAll(r)
  }

  /** The log is the newest part of the history. */
  ghost predicate LogNewest<E>(logLimit: nat, history: seq<E>, log: seq<E>) {
    && |log| == (if |history| < logLimit then |history| else logLimit)
    && log == history[|history| - |log|..]
  }

  ghost predicate Accounted<E>(logLimit: nat, queueLimit: nat, r: Run<E>) {
    && LogNewest(logLimit, r.history, r.bus.log)
    && QueueAccounted(queueLimit, r.bus.queue, r.bus.overflows, r.history, r.got, r.places)
  }

  ghost predicate QueueAccounted<E>(queueLimit: nat, queue: seq<E>, overflows: nat, history: seq<E>,
                                    got: seq<E>, places: seq<nat>) {
    var n, first := |history|, |history| - |queue|;
    // the queue is the newest part of the history
    && |queue| <= queueLimit && first >= 0
    && queue == history[first..]
    // consumers got a subsequence of the history, in order
    && |got| == |places|
    && (forall i :: 0 <= i < |places| ==> places[i] < first && got[i] == history[places[i]])
    && (forall i, j :: 0 <= i < j < |places| ==> places[i] < places[j])
    // nothing else is lost but what the overflow counter says, and never a recent event
    && n == |got| + overflows + |queue|
    && (forall p :: 0 <= p < first && p !in places ==> n - p > queueLimit)
  }

  lemma LogEmitted<E>(logLimit: nat, history: seq<E>, log: seq<E>, e: E)
    requires LogNewest(logLimit, history, log)
    ensures LogNewest(logLimit, history + [e], Last(log + [e], logLimit))
  {
  }

  lemma Queued<E>(limit: nat, queue: seq<E>, overflows: nat, history: seq<E>, got: seq<E>, places: seq<nat>, e: E)
    requires |queue| < limit && QueueAccounted(limit, queue, overflows, history, got, places)
    ensures QueueAccounted(limit, queue + [e], overflows, history + [e], got, places)
  {
  }

  lemma Overflowed<E>(limit: nat, queue: seq<E>, overflows: nat, history: seq<E>, got: seq<E>, places: seq<nat>, e: E)
    requires |queue| == limit >= 1 && QueueAccounted(limit, queue, overflows, history, got, places)
    ensures QueueAccounted(limit, queue[1..] + [e], overflows + 1, history + [e], got, places)
  {
  }

  lemma EmitAccounted<E>(logLimit: nat, queueLimit: nat, r: Run<E>, e: E)
    requires queueLimit >= 1 && Accounted(logLimit, queueLimit, r)
    ensures Accounted(logLimit, queueLimit,
                      r.(bus := Emitted(logLimit, queueLimit, r.bus, e), history := r.history + [e]))
  {
    hide Last, LogNewest;
    var b := r.bus;
    LogEmitted(logLimit, r.history, b.log, e);
    if |b.queue| < queueLimit {
      Queued(queueLimit, b.queue, b.overflows, r.history, r.got, r.places, e);
    } else {
      Overflowed(queueLimit, b.queue, b.overflows, r.history, r.got, r.places, e);
    }
  }

  lemma TakeAccounted<E>(logLimit: nat, queueLimit: nat, r: Run<E>)
    requires Accounted(logLimit, queueLimit, r)
    ensures Accounted(logLimit, queueLimit, TakeOne(r))
  {
    if r.bus.queue != [] {
      var r' := TakeOne(r);
      var first := |r.history| - |r.bus.queue|;
      assert r.bus.queue[0] == r.history[first];
      assert r'.places[|r.places|] == first;
      assert forall p :: p in r.places ==> p in r'.places;
    }
  }

  lemma QueueFits<E>(logLimit: nat, queueLimit: nat, r: Run<E>)
    requires Accounted(logLimit, queueLimit, r)
    ensures |r.bus.queue| <= |r.history|
  {
  }

  lemma {:induction false} DrainAccounted<E>(logLimit: nat, queueLimit: nat, r: Run<E>)
    requires Accounted(logLimit, queueLimit, r)
    ensures Accounted(logLimit, queueLimit, TakeAll(r)) && TakeAll(r).bus.queue == []
    ensures TakeAll(r).got == r.got + r.bus.queue
    decreases |r.bus.queue|
  {
    hide Accounted;
    QueueFits(logLimit, queueLimit, r);
    if r.bus.queue == [] {
      assert r.got + r.bus.queue == r.got;
    } else {
      TakeAccounted(logLimit, queueLimit, r);
      DrainAccounted(logLimit, queueLimit, TakeOne(r));
      assert r.got + [r.bus.queue[0]] + r.bus.queue[1..] == r.got + r.bus.queue;
    }
  }

  function RunOps<E>(logLimit: nat, queueLimit: nat, ops: seq<Op<E>>): (r: Run<E>)
    requires queueLimit >= 1
    ensures Accounted(logLimit, queueLimit, r)
  {
    if ops == [] then Run(Bus([], [], 0), [], [], [])
    else
      var before, op := RunOps(logLimit, queueLimit, ops[..|ops| - 1]), ops[|ops| - 1];
      match op {
        case Emit(e) => EmitAccounted(logLimit, queueLimit, before, e); Step(logLimit, queueLimit, before, op)
        case Take => TakeAccounted(logLimit, queueLimit, before); Step(logLimit, queueLimit, before, op)
        case Drain => DrainAccounted(logLimit, queueLimit, before); Step(logLimit, queueLimit, before, op)
      }
  }

  /** Until the queue first overflows, consumers have everything: got then queued is the history. */
  lemma NothingLostWithoutOverflow<E>(logLimit: nat, queueLimit: nat, ops: seq<Op<E>>)
    requires queueLimit >= 1 && RunOps(logLimit, queueLimit, ops).bus.overflows == 0
    ensures var r := RunOps(logLimit, queueLimit, ops); r.got + r.bus.queue == r.history
  {
    var r := RunOps(logLimit, queueLimit, ops);
    var first := |r.history| - |r.bus.queue|;
    Contiguous(r.places, first);
    assert r.got == r.history[..first];
  }

  /** n increasing places below n are all of them. */
  lemma {:induction false} Contiguous(places: seq<nat>, n: nat)
    requires |places| == n && (n > 0 ==> places[n - 1] < n)
    requires forall i, j :: 0 <= i < j < n ==> places[i] < places[j]
    ensures forall i :: 0 <= i < n ==> places[i] == i
  {
    if n > 1 {
      assert places[n - 2] < places[n - 1];
      Contiguous(places[..n - 1], n - 1);
      assert forall i :: 0 <= i < n - 1 ==> places[i] == places[..n - 1][i];
    }
  }
}
