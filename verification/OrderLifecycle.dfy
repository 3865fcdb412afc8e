/** The stream-driven order lifecycle store: per digest a state, a change sequence and a freshness
    stamp, fed by events that may carry only a tag. */
module OrderLifecycle {
  import opened OrderedDicts
  import OrderTags
  import Text

  const MAX_ENTRIES: nat := 8192

  datatype OrderState = Open | PartiallyFilled | Filled | Cancelled | Rejected {
    predicate Terminal() { this in {Filled, Cancelled, Rejected} }
  }

  datatype Entry = Entry(state: OrderState, seqNo: nat, lastEvent: real, tag: Option<int>)

  type Store = Dict<string, Entry>

  /** The lifecycle store next to the tag registry that resolves its events. */
  datatype World = World(store: Store, tags: OrderTags.Registry)

  /** The state an order_update's reason stands for, whatever its case and surrounding space. (No
      character outside ASCII lowers to a letter of these words.) */
  function ReasonState(reason: Option<string>): Option<OrderState> {
    var word := if reason.Some? then Text.Lower(Text.Strip(reason.value)) else "";
    if word == "placed" || word == "open" then Some(Open)
    else if word == "filled" then Some(Filled)
    else if word == "cancelled" || word == "canceled" then Some(Cancelled)
    else if word == "rejected" then Some(Rejected)
    else None
  }

  function Put(s: Store, digest: string, e: Entry): Store { Touch(s, digest, e).Trim(MAX_ENTRIES) }

  function Seed(s: Store, digest: string, state: OrderState, tag: Option<int>): Store {
    if digest == "" then s
    else if digest !in s.at then Put(s, digest, Entry(state, 0, 0.0, tag))
    else
      var e := s.at[digest];
      Put(s, digest, e.(state := state, tag := if tag.Some? then tag else e.tag))
  }

  /** The entry after one applied event. */
  function Bump(s: Store, digest: string, state: Option<OrderState>, tag: Option<int>, now: real): Entry {
    var e := if digest in s.at then s.at[digest] else Entry(Open, 0, 0.0, tag);
    Entry(if state.Some? && !e.state.Terminal() then state.value else e.state,
          e.seqNo + 1, now, if tag.Some? then tag else e.tag)
  }

  /** The digest an event is about: its own, else the one bound to its tag. */
  function EventDigest(tags: OrderTags.Registry, digest: Option<string>, tag: Option<int>): (d: Option<string>)
    ensures d.Some? ==> d.value != ""
  {
    var d := if OrderTags.Truthy(digest) || tag.None? then digest
             else match OrderTags.ResolveTag(tags, tag) case Some(m) => m.digest case None => None;
    if OrderTags.Truthy(d) then d else None
  }

  function OrderUpdate(w: World, digest: Option<string>, reason: Option<string>, tag: Option<int>, now: real): World {
    match EventDigest(w.tags, digest, tag)
    case None => w
    case Some(d) =>
      World(Put(w.store, d, Bump(w.store, d, ReasonState(reason), tag, now)),
            OrderTags.Bind(w.tags, tag, Some(d)))
  }

  function FillState(s: Store, digest: string): OrderState {
    if digest in s.at && s.at[digest].state.Terminal() then s.at[digest].state else PartiallyFilled
  }

  function Fill(w: World, tag: Option<int>, digest: Option<string>, now: real): World {
    match EventDigest(w.tags, digest, tag)
    case None => w
    case Some(d) => w.(store := Put(w.store, d, Bump(w.store, d, Some(FillState(w.store, d)), tag, now)))
  }

  function Forget(s: Store, digest: Option<string>): Store {
    if OrderTags.Truthy(digest) then s.Remove(digest.value) else s
  }

  predicate Fresh(e: Entry, ttl: real, now: real) {
    e.state.Terminal() || (e.lastEvent > 0.0 && now - e.lastEvent <= ttl)
  }

  // ----- the module as it mutates its store --------------------------------

  class LifecycleStore {
    var store: Store
    const tags: OrderTags.TagStore
    const trustTtl: real

    ghost function State(): World reads this, tags { World(store, tags.State()) }

    constructor (tags: OrderTags.TagStore, trustTtl: real)
      ensures this.tags == tags && this.trustTtl == trustTtl && store == Empty()
    {
      this.tags, this.trustTtl, store := tags, trustTtl, Empty();
    }

    method EvictIfNeeded()
      modifies this
      ensures store == old(store).Trim(MAX_ENTRIES)
    {
      hide OrderedDict.Valid, OrderedDict.PopFirst;
      while |store.order| > MAX_ENTRIES
        invariant store.Trim(MAX_ENTRIES) == old(store).Trim(MAX_ENTRIES)
        decreases |store.order|
      {
        store := store.PopFirst();
      }
    }

    method SeedEntry(digest: string, state: OrderState, tag: Option<int>)
      modifies this
      ensures store == Seed(old(store), digest, state, tag)
    {
      hide OrderedDict.Valid, OrderedDict.Put, OrderedDict.MoveToEnd, OrderedDict.Trim;
      if digest == "" { return; }
      if digest !in store.at {
        store := store.Put(digest, Entry(state, 0, 0.0, tag));
      } else {
        var entry := store.at[digest].(state := state);
        if tag.Some? { entry := entry.(tag := tag); }
        store := store.Put(digest, entry);
      }
      store := store.MoveToEnd(digest);
      EvictIfNeeded();
    }

    method TouchEntry(digest: string, state: Option<OrderState>, tag: Option<int>, now: real) returns (copy: Entry)
      modifies this
      ensures copy == Bump(old(store), digest, state, tag, now)
      ensures store == Put(old(store), digest, copy)
    {
      hide OrderedDict.Valid, OrderedDict.Put, OrderedDict.MoveToEnd, OrderedDict.Trim;
      var entry := if digest in store.at then store.at[digest] else Entry(Open, 0, 0.0, tag);
      entry := entry.(seqNo := entry.seqNo + 1, lastEvent := now);
      if tag.Some? { entry := entry.(tag := tag); }
      if state.Some? && !entry.state.Terminal() { entry := entry.(state := state.value); }
      store := store.Put(digest, entry);
      store := store.MoveToEnd(digest);
      EvictIfNeeded();
      copy := entry;
    }

    method ApplyOrderUpdate(digest: Option<string>, reason: Option<string>, tag: Option<int>, now: real)
      modifies this, tags
      ensures State() == OrderUpdate(old(State()), digest, reason, tag, now)
    {
      hide OrderedDict.Valid, Put, Bump, OrderTags.Evict, OrderTags.Link;
      var d := EventDigest(OrderTags.Registry(tags.counter, tags.byTag, tags.digestToTag), digest, tag);
      if d.None? { return; }
      var _ := TouchEntry(d.value, ReasonState(reason), tag, now);
      if tag.Some? { tags.BindDigest(tag, d); }
    }

    method ApplyFill(tag: Option<int>, digest: Option<string>, now: real)
      modifies this
      ensures State() == Fill(old(State()), tag, digest, now)
    {
      var d := EventDigest(OrderTags.Registry(tags.counter, tags.byTag, tags.digestToTag), digest, tag);
      if d.None? { return; }
      var next := PartiallyFilled;
      if d.value in store.at && store.at[d.value].state.Terminal() { next := store.at[d.value].state; }
      var _ := TouchEntry(d.value, Some(next), tag, now);
    }

    method Get(digest: Option<string>, now: real) returns (entry: Option<Entry>, isFresh: bool)
      ensures entry == if OrderTags.Truthy(digest) && digest.value in store.at
                       then Some(store.at[digest.value]) else None
      ensures isFresh == (entry.Some? && Fresh(entry.value, trustTtl, now))
    {
      entry, isFresh := None, false;
      if OrderTags.Truthy(digest) && digest.value in store.at {
        entry, isFresh := Some(store.at[digest.value]), Fresh(store.at[digest.value], trustTtl, now);
      }
    }

    method ForgetEntry(digest: Option<string>)
      modifies this
      ensures store == Forget(old(store), digest)
    {
      if OrderTags.Truthy(digest) { store := store.Remove(digest.value); }
    }
  }
}

/** Whole-run guarantees of the lifecycle store. */
module LifecycleRuns {
  import opened OrderedDicts
  import opened OrderLifecycle
  import OrderTags
  import OrderTagRuns

  datatype Op =
    | SeedOp(sdigest: string, state: OrderState, stag: Option<int>)
    | UpdateOp(udigest: Option<string>, reason: Option<string>, utag: Option<int>, unow: real)
    | FillOp(ftag: Option<int>, fdigest: Option<string>, fnow: real)
    | ForgetOp(digest: Option<string>)
    | TagOp(top: OrderTagRuns.Op)

  function Step(w: World, op: Op): World {
    match op
    case SeedOp(d, s, t) => w.(store := Seed(w.store, d, s, t))
    case UpdateOp(d, r, t, now) => OrderUpdate(w, d, r, t, now)
    case FillOp(t, d, now) => Fill(w, t, d, now)
    case ForgetOp(d) => w.(store := Forget(w.store, d))
    case TagOp(o) => w.(tags := OrderTagRuns.Step(w.tags, o))
  }

  function Run(w: World, ops: seq<Op>): World
    decreases |ops|
  {
    if ops == [] then w else Run(Step(w, ops[0]), ops[1..])
  }

  /** The digest whose entry an operation is about. */
  function Hit(w: World, op: Op): Option<string> {
    match op
    case SeedOp(d, _, _) => if d == "" then None else Some(d)
    case UpdateOp(d, _, t, _) => EventDigest(w.tags, d, t)
    case FillOp(t, d, _) => EventDigest(w.tags, d, t)
    case _ => None
  }

  /** What an operation says of its digest: an event, with the state it stands for, if any, and its
      time; or a seed. */
  datatype Report =
    | Heard(state: Option<OrderState>, at: real, tag: Option<int>)
    | Seeded(seed: OrderState, tag: Option<int>)

  function ReportOf(op: Op): Report {
    match op
    case SeedOp(_, state, tag) => Seeded(state, tag)
    case UpdateOp(_, reason, tag, now) => Heard(ReasonState(reason), now, tag)
    case FillOp(tag, _, now) => Heard(Some(PartiallyFilled), now, tag)
    case _ => Heard(None, 0.0, None)
  }

  /** What the run says of d, in order. */
  function History(w: World, ops: seq<Op>, d: string): seq<Report>
    decreases |ops|
  {
    if ops == [] then []
    else (if Hit(w, ops[0]) == Some(d) then [ReportOf(ops[0])] else []) + History(Step(w, ops[0]), ops[1..], d)
  }

  function Events(h: seq<Report>): nat {
    if h == [] then 0 else Events(h[..|h| - 1]) + if h[|h| - 1].Heard? then 1 else 0
  }

  function LastHeard(before: real, h: seq<Report>): real {
    if h == [] then before else if h[|h| - 1].Heard? then h[|h| - 1].at else LastHeard(before, h[..|h| - 1])
  }

  /** The latest tag a report gave, if any. */
  function LastTag(before: Option<int>, h: seq<Report>): Option<int> {
    if h == [] then before else if h[|h| - 1].tag.Some? then h[|h| - 1].tag else LastTag(before, h[..|h| - 1])
  }

  predicate Unseeded(h: seq<Report>) { forall i :: 0 <= i < |h| ==> h[i].Heard? }

  /** Where one report takes a state: an event never out of a terminal one, a seed anywhere. */
  function Taken(state: OrderState, r: Report): OrderState {
    match r
    case Seeded(s, _) => s
    case Heard(s, _, _) => if !state.Terminal() && s.Some? then s.value else state
  }

  function Settled(state: OrderState, h: seq<Report>): OrderState {
    if h == [] then state else Taken(Settled(state, h[..|h| - 1]), h[|h| - 1])
  }

  predicate Ends(r: Report) { r.Heard? && r.state.Some? && r.state.value.Terminal() }

  lemma {:induction false} SettledFrom(state: OrderState, first: seq<Report>, rest: seq<Report>)
    ensures Settled(state, first + rest) == Settled(Settled(state, first), rest)
    ensures Events(first + rest) == Events(first) + Events(rest)
    ensures forall t :: LastHeard(t, first + rest) == LastHeard(LastHeard(t, first), rest)
    ensures forall t :: LastTag(t, first + rest) == LastTag(LastTag(t, first), rest)
    decreases |rest|
  {
    if rest == [] {
      assert first + rest == first;
    } else {
      var all := first + rest;
      assert all[..|all| - 1] == first + rest[..|rest| - 1];
      SettledFrom(state, first, rest[..|rest| - 1]);
    }
  }

  /** Without seeds a terminal state stays. */
  lemma {:induction false} TerminalStays(state: OrderState, h: seq<Report>)
    requires state.Terminal() && Unseeded(h)
    ensures Settled(state, h) == state
  {
    if h != [] { TerminalStays(state, h[..|h| - 1]); }
  }

  /** Without seeds the first report of a terminal state decides for good. */
  lemma FirstTerminalDecides(state: OrderState, h: seq<Report>, i: nat)
    requires !state.Terminal() && Unseeded(h)
    requires i < |h| && Ends(h[i]) && forall j :: 0 <= j < i ==> !Ends(h[j])
    ensures Settled(state, h) == h[i].state.value
  {
    var first, rest := h[..i + 1], h[i + 1..];
    assert h == first + rest && first[..i] == h[..i];
    SettledFrom(state, first, rest);
    NeverTerminal(state, h[..i]);
    TerminalStays(h[i].state.value, rest);
  }

  /** No report after the i-th names a state. */
  ghost predicate NamedLast(h: seq<Report>, i: nat) {
    i < |h| && h[i].Heard? && h[i].state.Some? && forall j :: i < j < |h| ==> h[j].Heard? && h[j].state.None?
  }

  lemma {:induction false} NeverTerminal(state: OrderState, h: seq<Report>)
    requires !state.Terminal() && Unseeded(h) && forall j :: 0 <= j < |h| ==> !Ends(h[j])
    ensures !Settled(state, h).Terminal()
  {
    if h != [] {
      assert !Ends(h[|h| - 1]);
      NeverTerminal(state, h[..|h| - 1]);
    }
  }

  /** Without one, the last report that names a state does. */
  lemma {:induction false} LastKnownDecides(state: OrderState, h: seq<Report>, i: nat)
    requires !state.Terminal() && Unseeded(h) && forall j :: 0 <= j < |h| ==> !Ends(h[j])
    requires NamedLast(h, i)
    ensures Settled(state, h) == h[i].state.value
    decreases |h|
  {
    hide OrderState.Terminal;
    var n := |h| - 1;
    if i == n {
      NeverTerminal(state, h[..n]);
    } else {
      LastKnownDecides(state, h[..n], i);
    }
  }

  /** A seed starts the state afresh: from the last one on, the state is where the events since take
      the seeded one, whatever was known before. */
  lemma SeedStartsAfresh(state: OrderState, h: seq<Report>, i: nat)
    requires i < |h| && h[i].Seeded?
    ensures Settled(state, h) == Settled(h[i].seed, h[i + 1..])
  {
    var first, rest := h[..i + 1], h[i + 1..];
    assert h == first + rest;
    SettledFrom(state, first, rest);
  }

  /** Every digest seeded or hit in the run. */
  function TouchedDigests(w: World, ops: seq<Op>): set<string>
    decreases |ops|
  {
    if ops == [] then {}
    else
      (match Hit(w, ops[0]) case Some(d) => {d} case None => {})
      + TouchedDigests(Step(w, ops[0]), ops[1..])
  }

  /** No operation of the run forgets d. */
  predicate Remembered(ops: seq<Op>, d: string) {
    forall i :: 0 <= i < |ops| && ops[i].ForgetOp? ==> ops[i].digest != Some(d)
  }

  // ----- one step ----------------------------------------------------------

  ghost predicate TrackedAs(s: Store, d: string, e: Entry, busy: set<string>) {
    d in s.at && s.at[d] == e && AfterOnly(s.order, d, busy)
  }

  /** Putting k leaves d tracked while fewer than MAX_ENTRIES digests are busy. */
  lemma PutTracks(s: Store, k: string, v: Entry, d: string, e: Entry, busy: set<string>)
    requires TrackedAs(s, d, e, busy) && (k == d || k in busy) && |busy| < MAX_ENTRIES
    ensures TrackedAs(Put(s, k, v), d, if k == d then v else e, busy)
  {
    hide OrderedDict.Valid, Touched, OrderedDict.Trim, OrderedDict.Put, OrderedDict.MoveToEnd;
    DictKeys(s);
    TouchOrder(s, k, v);
    AfterOnlyTouched(s.order, k, d, busy);
    WorkingSetSurvives(Touch(s, k, v), d, busy, MAX_ENTRIES);
  }

  ghost predicate Advances(e: Entry, e': Entry, h: seq<Report>) {
    && e'.seqNo == e.seqNo + Events(h)
    && (h == [] ==> e' == e)
    && e'.state == Settled(e.state, h)
    && e'.lastEvent == LastHeard(e.lastEvent, h)
    && e'.tag == LastTag(e.tag, h)
  }

  lemma AdvancesTwice(e: Entry, m: Entry, e': Entry, first: seq<Report>, rest: seq<Report>)
    requires Advances(e, m, first) && Advances(m, e', rest)
    ensures Advances(e, e', first + rest)
  {
    SettledFrom(e.state, first, rest);
  }

  lemma OneReport(state: OrderState, before: real, r: Report)
    ensures Settled(state, [r]) == Taken(state, r)
    ensures Events([r]) == if r.Heard? then 1 else 0
    ensures forall t :: LastTag(t, [r]) == if r.tag.Some? then r.tag else t
    ensures LastHeard(before, [r]) == if r.Heard? then r.at else before
  {
    assert [r][..0] == [];
  }

  /** What an operation about k puts there. */
  function Written(w: World, op: Op, k: string): Entry {
    match op
    case SeedOp(_, state, tag) =>
      if k !in w.store.at then Entry(state, 0, 0.0, tag)
      else w.store.at[k].(state := state, tag := if tag.Some? then tag else w.store.at[k].tag)
    case UpdateOp(_, reason, tag, now) => Bump(w.store, k, ReasonState(reason), tag, now)
    case FillOp(tag, _, now) => Bump(w.store, k, Some(FillState(w.store, k)), tag, now)
    case _ => Entry(Open, 0, 0.0, None)
  }

  lemma StepStore(w: World, op: Op)
    requires !op.ForgetOp?
    ensures Step(w, op).store
         == match Hit(w, op) case Some(k) => Put(w.store, k, Written(w, op, k)) case None => w.store
  {
    hide OrderedDict.Valid, OrderLifecycle.Put, Bump;
  }

  lemma WrittenAdvances(w: World, op: Op, d: string)
    requires Hit(w, op) == Some(d) && d in w.store.at
    ensures Advances(w.store.at[d], Written(w, op, d), [ReportOf(op)])
  {
    hide OrderedDict.Valid, Settled, Events, LastHeard, LastTag, ReasonState;
    OneReport(w.store.at[d].state, w.store.at[d].lastEvent, ReportOf(op));
  }

  lemma NoAdvance(e: Entry)
    ensures Advances(e, e, [])
  {
  }

  lemma StepTracks(w: World, op: Op, d: string, e: Entry, busy: set<string>) returns (e': Entry)
    requires TrackedAs(w.store, d, e, busy) && |busy| < MAX_ENTRIES
    requires op.ForgetOp? ==> op.digest != Some(d)
    requires Hit(w, op).Some? ==> Hit(w, op).value in busy + {d}
    ensures TrackedAs(Step(w, op).store, d, e', busy)
    ensures Advances(e, e', if Hit(w, op) == Some(d) then [ReportOf(op)] else [])
  {
    hide OrderedDict.Valid, OrderLifecycle.Put, AfterOnly, Advances, Written, Hit;
    e' := e;
    NoAdvance(e);
    if op.ForgetOp? {
      NoHit(w, op);
      if OrderTags.Truthy(op.digest) { AfterOnlyWithout(w.store.order, op.digest.value, d, busy); }
    } else {
      StepStore(w, op);
      if Hit(w, op).Some? {
        var k := Hit(w, op).value;
        PutTracks(w.store, k, Written(w, op, k), d, e, busy);
        if k == d {
          WrittenAdvances(w, op, d);
          e' := Written(w, op, d);
        }
      }
    }
  }

  lemma NoHit(w: World, op: Op)
    requires op.ForgetOp?
    ensures Hit(w, op).None?
  {
  }

  lemma {:induction false} RunTracks(w: World, ops: seq<Op>, d: string, e: Entry, busy: set<string>) returns (e': Entry)
    requires TrackedAs(w.store, d, e, busy) && |busy| < MAX_ENTRIES
    requires Remembered(ops, d) && TouchedDigests(w, ops) <= busy + {d}
    ensures TrackedAs(Run(w, ops).store, d, e', busy)
    ensures Advances(e, e', History(w, ops, d))
    decreases |ops|
  {
    hide OrderedDict.Valid, AfterOnly, Step, Advances;
    e' := e;
    if ops == [] {
      NoAdvance(e);
    } else {
      var m := StepTracks(w, ops[0], d, e, busy);
      e' := RunTracks(Step(w, ops[0]), ops[1..], d, m, busy);
      AdvancesTwice(e, m, e', if Hit(w, ops[0]) == Some(d) then [ReportOf(ops[0])] else [],
                    History(Step(w, ops[0]), ops[1..], d));
    }
  }

  lemma {:induction false} UnseededEvents(h: seq<Report>)
    ensures Events(h) == 0 && Unseeded(h) ==> h == []
  {
  }

  /** Over any run that does not forget d and touches fewer than 8192 other digests since d's last
      touch, d stays tracked. Its sequence number rises by exactly one per event about it, seeds or
      not. Its state is where the history takes it, its tag the latest it was given. And unless it is
      seeded on the way: the number is unchanged exactly when there was no event, and then so is the
      whole entry; a terminal state is final; and it is fresh when terminal or for the trusted time
      after the latest event. */
  lemma SeqDetectsEveryEvent(w: World, ops: seq<Op>, d: string, others: set<string>)
    requires d in w.store.at && AfterOnly(w.store.order, d, others)
    requires Remembered(ops, d)
    requires TouchedDigests(w, ops) <= others + {d} && |others| < 8192
    ensures d in Run(w, ops).store.at
    ensures var e, e', h := w.store.at[d], Run(w, ops).store.at[d], History(w, ops, d);
            && e'.seqNo == e.seqNo + Events(h)
            && e'.state == Settled(e.state, h)
            && e'.tag == LastTag(e.tag, h)
            && (forall ttl, now :: Fresh(e', ttl, now) <==>
                  e'.state.Terminal() || (LastHeard(e.lastEvent, h) > 0.0 && now - LastHeard(e.lastEvent, h) <= ttl))
            && (Unseeded(h) ==>
                  && (e'.seqNo == e.seqNo <==> h == [])
                  && (e'.seqNo == e.seqNo ==> e' == e)
                  && (e.state.Terminal() ==> e'.state == e.state && forall ttl, now :: Fresh(e', ttl, now)))
  {
    hide OrderedDict.Valid, AfterOnly, TouchedDigests, Run;
    var e' := RunTracks(w, ops, d, w.store.at[d], others);
    var h := History(w, ops, d);
    UnseededEvents(h);
    if Unseeded(h) && w.store.at[d].state.Terminal() { TerminalStays(w.store.at[d].state, h); }
  }

  /** Seeding is the exception: on a tracked terminal order the state survives exactly when the
      seed repeats it. */
  lemma SeedKeepsTerminalIff(s: Store, d: string, state: OrderState, tag: Option<int>)
    requires d in s.at && d != "" && s.at[d].state.Terminal() && |s.order| <= MAX_ENTRIES
    ensures d in Seed(s, d, state, tag).at
    ensures Seed(s, d, state, tag).at[d].state == s.at[d].state <==> state == s.at[d].state
    ensures Seed(s, d, state, tag).at[d].seqNo == s.at[d].seqNo
  {
  }

  /** A seed is no event: a new entry starts at sequence 0 and is fresh only if it is terminal. */
  lemma SeedIsNotFresh(s: Store, d: string, state: OrderState, tag: Option<int>, ttl: real, now: real)
    requires d !in s.at && d != "" && |s.order| <= MAX_ENTRIES
    ensures d in Seed(s, d, state, tag).at
    ensures Seed(s, d, state, tag).at[d] == Entry(state, 0, 0.0, tag)
    ensures Fresh(Seed(s, d, state, tag).at[d], ttl, now) <==> state.Terminal()
  {
    PutShows(s, d, Entry(state, 0, 0.0, tag));
  }

  // ----- what a reason stands for ------------------------------------------

  /** None of the words the store knows. */
  ghost predicate Unknown(reason: Option<string>) {
    reason.Some? ==>
      && !Text.Spells(reason.value, "placed") && !Text.Spells(reason.value, "open")
      && !Text.Spells(reason.value, "filled") && !Text.Spells(reason.value, "rejected")
      && !Text.Spells(reason.value, "cancelled") && !Text.Spells(reason.value, "canceled")
  }

  lemma ReasonWords(reason: Option<string>)
    ensures Unknown(reason) ==> ReasonState(reason) == None
    ensures reason.Some? ==>
              && (Text.Spells(reason.value, "placed") ==> ReasonState(reason) == Some(Open))
              && (Text.Spells(reason.value, "open") ==> ReasonState(reason) == Some(Open))
              && (Text.Spells(reason.value, "filled") ==> ReasonState(reason) == Some(Filled))
              && (Text.Spells(reason.value, "cancelled") ==> ReasonState(reason) == Some(Cancelled))
              && (Text.Spells(reason.value, "canceled") ==> ReasonState(reason) == Some(Cancelled))
              && (Text.Spells(reason.value, "rejected") ==> ReasonState(reason) == Some(Rejected))
  {
    hide Text.Strip, Text.Lower, Text.Spells;
    if reason.Some? {
      var s := reason.value;
      Text.SpellsIff(s, "placed");
      Text.SpellsIff(s, "open");
      Text.SpellsIff(s, "filled");
      Text.SpellsIff(s, "cancelled");
      Text.SpellsIff(s, "canceled");
      Text.SpellsIff(s, "rejected");
    }
  }

  /** An order_update about a tracked open order, whatever case its reason is in and whatever space is
      around it: placed and open leave it Open, filled makes it Filled, cancelled (or canceled)
      Cancelled, rejected Rejected, and any other reason, or none, leaves the state as it was. */
  lemma ReasonDecides(w: World, op: Op, d: string)
    requires op.UpdateOp? && Hit(w, op) == Some(d) && |w.store.order| <= MAX_ENTRIES
    requires d in w.store.at && (w.store.at[d].state == Open || w.store.at[d].state == PartiallyFilled)
    ensures d in Step(w, op).store.at
    ensures var state := Step(w, op).store.at[d].state;
            && (Unknown(op.reason) ==> state == w.store.at[d].state)
            && (op.reason.Some? ==>
                  && (Text.Spells(op.reason.value, "placed") || Text.Spells(op.reason.value, "open") ==> state == Open)
                  && (Text.Spells(op.reason.value, "filled") ==> state == Filled)
                  && (Text.Spells(op.reason.value, "cancelled") || Text.Spells(op.reason.value, "canceled") ==>
                        state == Cancelled)
                  && (Text.Spells(op.reason.value, "rejected") ==> state == Rejected))
  {
    hide ReasonState, Unknown, Text.Spells, Put, OrderedDict.Valid, OrderTags.Bind;
    ReasonWords(op.reason);
    StepStore(w, op);
    PutShows(w.store, d, Written(w, op, d));
  }

  /** A filled, cancelled or rejected order stays so whatever events say of it, and is always fresh; an
      open or partially filled one is partially filled after a fill, and fresh for the trusted time
      after it was last heard of. */
  lemma ClosedStays(w: World, op: Op, d: string, ttl: real, now: real)
    requires (op.UpdateOp? || op.FillOp?) && Hit(w, op) == Some(d) && |w.store.order| <= MAX_ENTRIES
    requires d in w.store.at
    ensures d in Step(w, op).store.at
    ensures var e, e' := w.store.at[d], Step(w, op).store.at[d];
            if e.state == Filled || e.state == Cancelled || e.state == Rejected
            then e'.state == e.state && Fresh(e', ttl, now)
            else && (op.FillOp? ==> e'.state == PartiallyFilled)
                 && (Fresh(e, ttl, now) <==> e.lastEvent > 0.0 && now - e.lastEvent <= ttl)
  {
    hide ReasonState, Put, OrderedDict.Valid, OrderTags.Bind;
    StepStore(w, op);
    PutShows(w.store, d, Written(w, op, d));
  }

  /** The first event about an unknown digest makes it an entry at sequence 1, in the state the event
      stands for, or Open; a fill makes it partially filled. */
  lemma FirstEvent(w: World, op: Op, d: string)
    requires (op.UpdateOp? || op.FillOp?) && Hit(w, op) == Some(d) && |w.store.order| <= MAX_ENTRIES
    requires d !in w.store.at
    ensures d in Step(w, op).store.at
    ensures Step(w, op).store.at[d] ==
              if op.FillOp? then Entry(PartiallyFilled, 1, op.fnow, op.ftag)
              else Entry(if ReasonState(op.reason).Some? then ReasonState(op.reason).value else Open,
                         1, op.unow, op.utag)
  {
    hide ReasonState, Put, OrderedDict.Valid, OrderTags.Bind;
    StepStore(w, op);
    PutShows(w.store, d, Written(w, op, d));
  }

  /** An event that names its digest is about that digest, whatever its tag is bound to, and a tag
      counts only when no digest is named. */
  lemma OwnDigestWins(w: World, op: Op)
    requires op.UpdateOp? || op.FillOp?
    ensures var digest := if op.UpdateOp? then op.udigest else op.fdigest;
            var tag := if op.UpdateOp? then op.utag else op.ftag;
            Hit(w, op) == if digest.Some? && digest.value != "" then digest
                          else if tag.Some? && tag.value in w.tags.byTag.at
                                  && w.tags.byTag.at[tag.value].digest != Some("")
                          then w.tags.byTag.at[tag.value].digest else None
  {
  }

  /** A forgotten digest is gone, and no other entry changes. */
  lemma Forgotten(w: World, digest: Option<string>)
    ensures Step(w, ForgetOp(digest)).tags == w.tags
    ensures Step(w, ForgetOp(digest)).store.at
            == if digest.Some? && digest.value != "" then w.store.at - {digest.value} else w.store.at
  {
  }

  // ----- events that carry only a tag --------------------------------------

  lemma PutShows(s: Store, d: string, v: Entry)
    requires |s.order| <= MAX_ENTRIES
    ensures d in Put(s, d, v).at && Put(s, d, v).at[d] == v
  {
    DictKeys(s);
    TouchOrder(s, d, v);
  }

  /** s' is s with v at d, short of the oldest entry if d is new to a full store. */
  ghost predicate OnlyPuts(s: Store, s': Store, d: string, v: Entry) {
    s'.at == if d !in s.at && |s.order| == MAX_ENTRIES then s.at[d := v] - {s.order[0]} else s.at[d := v]
  }

  lemma PutOnlyPuts(s: Store, d: string, v: Entry)
    requires |s.order| <= MAX_ENTRIES
    ensures OnlyPuts(s, Put(s, d, v), d, v) && |Put(s, d, v).order| <= MAX_ENTRIES
  {
    TouchOrder(s, d, v);
  }

  predicate TagOnly(op: Op, t: int) {
    (op.UpdateOp? && op.udigest.None? && op.utag == Some(t)) || (op.FillOp? && op.fdigest.None? && op.ftag == Some(t))
  }

  /** With agreeing indexes, an event that carries only a tag bumps the entry of the digest bound to
      it, or makes it at sequence 1, and nothing else; the pair stays bound and the indexes agreeing. */
  lemma TagOnlyEvent(w: World, t: int, d: string, op: Op)
    requires OrderTagRuns.Agree(w.tags) && OrderTagRuns.Bounded(w.tags) && |w.store.order| <= MAX_ENTRIES
    requires d in w.tags.digestToTag.at && w.tags.digestToTag.at[d] == t && TagOnly(op, t)
    ensures var w' := Step(w, op);
            && Hit(w, op) == Some(d)
            && OnlyPuts(w.store, w'.store, d, Written(w, op, d))
            && Written(w, op, d).seqNo == (if d in w.store.at then w.store.at[d].seqNo else 0) + 1
            && OrderTagRuns.Agree(w'.tags)
            && d in w'.tags.digestToTag.at && w'.tags.digestToTag.at[d] == t
  {
    hide OrderedDict.Valid, OrderTags.Bind, Put, OnlyPuts;
    StepStore(w, op);
    PutOnlyPuts(w.store, d, Written(w, op, d));
    OrderTagRuns.BindKeepsAgreementIff(w.tags, t, d);
    OrderTagRuns.BindInPlace(w.tags, t, d);
  }

  /** An event that carries only a tag is dropped exactly when no digest is bound to that tag. */
  lemma TagOnlyDroppedIff(w: World, t: int, op: Op)
    requires |w.store.order| <= MAX_ENTRIES && TagOnly(op, t)
    ensures Step(w, op) == w <==> t !in w.tags.byTag.at || !OrderTags.Truthy(w.tags.byTag.at[t].digest)
  {
    hide OrderedDict.Valid, OrderTags.Bind, Put;
    StepStore(w, op);
    if t in w.tags.byTag.at && OrderTags.Truthy(w.tags.byTag.at[t].digest) {
      PutShows(w.store, w.tags.byTag.at[t].digest.value, Written(w, op, w.tags.byTag.at[t].digest.value));
    }
  }

  // ----- disciplined runs --------------------------------------------------

  /** Binds, also those an order_update makes, give no tag a second digest and no digest a second tag. */
  predicate Disciplined(w: World, op: Op) {
    && (op.TagOp? ==> OrderTagRuns.Clean(w.tags, op.top))
    && (op.UpdateOp? && op.utag.Some? && OrderTags.Truthy(op.udigest) ==>
          OrderTagRuns.CleanBind(w.tags, op.utag.value, op.udigest.value))
  }

  ghost predicate DisciplinedRun(w: World, ops: seq<Op>)
    decreases |ops|
  {
    ops == [] || (Disciplined(w, ops[0]) && DisciplinedRun(Step(w, ops[0]), ops[1..]))
  }

  ghost predicate WorldSound(w: World) {
    OrderTagRuns.Agree(w.tags) && OrderTagRuns.Bounded(w.tags) && |w.store.order| <= MAX_ENTRIES
  }

  lemma StoreStaysBounded(w: World, op: Op)
    requires |w.store.order| <= MAX_ENTRIES
    ensures |Step(w, op).store.order| <= MAX_ENTRIES
  {
    hide OrderedDict.Valid, OrderLifecycle.Put, Written, OnlyPuts;
    if op.ForgetOp? {
      if OrderTags.Truthy(op.digest) { DictKeys(w.store); WithoutElems(w.store.order, op.digest.value); }
    } else {
      StepStore(w, op);
      if Hit(w, op).Some? { PutOnlyPuts(w.store, Hit(w, op).value, Written(w, op, Hit(w, op).value)); }
    }
  }

  lemma TagsStaySound(w: World, op: Op)
    requires OrderTagRuns.Agree(w.tags) && OrderTagRuns.Bounded(w.tags) && Disciplined(w, op)
    ensures OrderTagRuns.Agree(Step(w, op).tags) && OrderTagRuns.Bounded(Step(w, op).tags)
  {
    hide OrderedDict.Valid, OrderTags.Bind, OrderLifecycle.Put, OrderTagRuns.Step, OrderTagRuns.Bounded;
    match op {
      case TagOp(o) =>
        OrderTagRuns.StepBounds(w.tags, o);
        OrderTagRuns.CleanStepAgrees(w.tags, o);
      case UpdateOp(dg, _, t, _) =>
        var d := EventDigest(w.tags, dg, t);
        if t.None? { NoTagNoBind(w.tags, d); } else if d.Some? { BindStaysSound(w.tags, t.value, d.value); }
      case _ =>
    }
  }

  lemma NoTagNoBind(r: OrderTags.Registry, d: Option<string>)
    ensures OrderTags.Bind(r, None, d) == r
  {
  }

  lemma BindStaysSound(r: OrderTags.Registry, t: int, d: string)
    requires OrderTagRuns.Agree(r) && OrderTagRuns.Bounded(r) && d != "" && OrderTagRuns.CleanBind(r, t, d)
    ensures OrderTagRuns.Agree(OrderTags.Bind(r, Some(t), Some(d)))
            && OrderTagRuns.Bounded(OrderTags.Bind(r, Some(t), Some(d)))
  {
    hide OrderedDict.Valid, OrderTags.Bind, OrderTagRuns.Bounded;
    OrderTagRuns.BindKeepsAgreementIff(r, t, d);
    OrderTagRuns.StepBounds(r, OrderTagRuns.BindOp(Some(t), Some(d)));
  }

  lemma {:induction false} DisciplinedRunsAgree(w: World, ops: seq<Op>)
    requires WorldSound(w) && DisciplinedRun(w, ops)
    ensures WorldSound(Run(w, ops))
    decreases |ops|
  {
    hide Step, Disciplined;
    if ops != [] {
      TagsStaySound(w, ops[0]);
      StoreStaysBounded(w, ops[0]);
      DisciplinedRunsAgree(Step(w, ops[0]), ops[1..]);
    }
  }

  const START := World(Empty<string, Entry>(), OrderTags.CLEARED)

  /** After every disciplined run from empty stores, an event that carries only a tag bumps exactly
      the entry of the digest bound to that tag. */
  lemma TagOnlyEventAfterAnyRun(ops: seq<Op>, w: World, t: int, d: string, op: Op)
    requires DisciplinedRun(START, ops) && w == Run(START, ops)
    requires d in w.tags.digestToTag.at && w.tags.digestToTag.at[d] == t && TagOnly(op, t)
    ensures OnlyPuts(w.store, Step(w, op).store, d, Written(w, op, d))
    ensures Written(w, op, d).seqNo == (if d in w.store.at then w.store.at[d].seqNo else 0) + 1
  {
    hide Step, Disciplined, Run, DisciplinedRun, OnlyPuts, Written;
    DisciplinedRunsAgree(START, ops);
    TagOnlyEvent(w, t, d, op);
  }
}
