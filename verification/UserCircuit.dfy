/** The per-user error circuit: breakers under (user, network), bounded by dropping the quietest. */
module UserCircuit {
  import opened OrderedDicts
  import opened Breakers
  import Text

  type User = (int, string)

  function LastFailure(b: Breaker): real {
    if b.failures == [] then 0.0 else b.failures[|b.failures| - 1]
  }

  /** Of the first n users in table order, the first whose last failure is oldest. */
  function Quietest(order: seq<User>, at: map<User, Breaker>, n: nat): (u: User)
    requires 0 < n <= |order| && forall i :: 0 <= i < |order| ==> order[i] in at
    ensures u in at && forall i :: 0 <= i < n ==> LastFailure(at[u]) <= LastFailure(at[order[i]])
  {
    if n == 1 then order[0]
    else
      var u := Quietest(order, at, n - 1);
      if LastFailure(at[order[n - 1]]) < LastFailure(at[u]) then order[n - 1] else u
  }

  function Oldest(d: Dict<User, Breaker>): (u: User)
    requires d.order != []
    ensures u in d.at && forall k :: k in d.at ==> LastFailure(d.at[u]) <= LastFailure(d.at[k])
  {
    DictKeys(d);
    Quietest(d.order, d.at, |d.order|)
  }

  /** There is nobody to drop for a new user: only a cap of 0 or less does that, and then the minimum
      of nothing raises. */
  predicate Refuses(cap: int, d: Dict<User, Breaker>, user: User) { |d.order| >= cap && user !in d.at && d.order == [] }

  predicate Evicts(cap: int, d: Dict<User, Breaker>, user: User) { |d.order| >= cap && user !in d.at && d.order != [] }

  /** The table with room for `user`. */
  function Room(cap: int, d: Dict<User, Breaker>, user: User): (r: Dict<User, Breaker>)
    ensures user in d.at ==> r == d
    ensures user !in d.at ==> user !in r.at
  {
    if Evicts(cap, d, user) then d.Remove(Oldest(d)) else d
  }

  function FailUser(cfg: Config, cap: int, d: Dict<User, Breaker>, user: User, now: real): Dict<User, Breaker> {
    if Refuses(cap, d, user) then d
    else
      var room := Room(cap, d, user);
      room.Put(user, Fail(cfg, BreakerAt(room.at, user), now))
  }

  function SucceedUser(cfg: Config, d: Dict<User, Breaker>, user: User): Dict<User, Breaker> {
    if user in d.at then d.Put(user, Succeed(cfg, d.at[user])) else d
  }

  function KeyOf(userId: int, network: Option<string>): User {
    (userId, Text.Lower(if network.None? || network.value == "" then "mainnet" else network.value))
  }

  /** Networks are told apart without regard to case, and none, or an empty name, is mainnet. */
  lemma KeysTellApart(u: int, n: Option<string>, v: int, m: string)
    ensures KeyOf(u, None) == KeyOf(u, Some("")) == KeyOf(u, Some("MainNet")) == (u, "mainnet")
    ensures m != "" && (forall i :: 0 <= i < |m| ==> !('A' <= m[i] <= 'Z')) ==>
              (KeyOf(u, n) == KeyOf(v, Some(m)) <==>
                 u == v && Text.SameLetters(if n.Some? && n.value != "" then n.value else "mainnet", m))
  {
    hide Text.Lower;
    assert Text.Lower("MainNet") == "mainnet" by { Text.LowerIs("MainNet", "mainnet"); }
    assert Text.Lower("mainnet") == "mainnet" by { Text.LowerIs("mainnet", "mainnet"); }
    if m != "" && forall i :: 0 <= i < |m| ==> !('A' <= m[i] <= 'Z') {
      Text.LowerIs(m, m);
      Text.LowerIs(if n.Some? && n.value != "" then n.value else "mainnet", m);
    }
  }

  /** What is kept of an error's text. */
  function Cut(error: string): string { if |error| <= 220 then error else error[..220] }

  /** The latest error texts after a failure: an evicted user's goes with the user. */
  function ErrorsAfter(cap: int, d: Dict<User, Breaker>, errors: map<User, string>, user: User,
                       error: string): map<User, string> {
    var kept := if Evicts(cap, d, user) then errors - {Oldest(d)} else errors;
    if error == "" then kept else kept[user := Cut(error)]
  }

  class CircuitTable {
    const cfg: Config
    const cap: int
    var states: Dict<User, Breaker>
    var errors: map<User, string>

    /** Only tracked users have an error text. */
    ghost predicate Valid() reads this { errors.Keys <= states.at.Keys }

    constructor (threshold: int, window: real, cooldown: real, cap: int)
      ensures cfg == Config(threshold, window, cooldown, true) && this.cap == cap
      ensures Valid() && states == Empty<User, Breaker>()
    {
      cfg, this.cap, states, errors := Config(threshold, window, cooldown, true), cap, Empty(), map[];
    }

    method FindQuietest() returns (oldest: User)
      requires states.order != []
      ensures oldest in states.at && oldest == Oldest(states)
    {
      hide OrderedDict.Valid, LastFailure;
      DictKeys(states);
      var order, at := states.order, states.at;
      oldest := order[0];
      for i := 1 to |order|
        invariant oldest in at && oldest == Quietest(order, at, i)
      {
        if LastFailure(at[order[i]]) < LastFailure(at[oldest]) { oldest := order[i]; }
      }
    }

    method RecordFailure(userId: int, network: Option<string>, error: string, now: real) returns (raised: bool)
      requires Valid()
      modifies this
      ensures Valid()
      ensures var user := KeyOf(userId, network);
              && raised == Refuses(cap, old(states), user)
              && states == FailUser(cfg, cap, old(states), user, now)
              && errors == if raised then old(errors) else ErrorsAfter(cap, old(states), old(errors), user, error)
    {
      hide OrderedDict.Valid, Oldest, Fail, LastFailure;
      var user := KeyOf(userId, network);
      if |states.order| >= cap && user !in states.at {
        if states.order == [] { return true; }
        var oldest := FindQuietest();
        states, errors := states.Remove(oldest), errors - {oldest};
      }
      if user !in states.at { states := states.Put(user, NEW); }
      var state := Breakers.RecordFailure(cfg, states.at[user], now);
      PutTwice(Room(cap, old(states), user), states, user, state);
      states := states.Put(user, state);
      if error != "" { errors := errors[user := Cut(error)]; }
      return false;
    }

    method RecordSuccess(userId: int, network: Option<string>)
      requires Valid() && cfg.successCloses
      modifies this`states
      ensures Valid()
      ensures var user := KeyOf(userId, network);
              && states == SucceedUser(cfg, old(states), user)
              && (user in states.at ==> forall now :: now >= 0.0 ==> !IsOpen(states.at[user], now))
    {
      var user := KeyOf(userId, network);
      if user in states.at {
        states := states.Put(user, states.at[user].(failures := [], openUntil := 0.0));
      }
    }

    method Open(userId: int, network: Option<string>, now: real) returns (open: bool)
      ensures var user := KeyOf(userId, network); open == (user in states.at && IsOpen(states.at[user], now))
    {
      var user := KeyOf(userId, network);
      open := user in states.at && now < states.at[user].openUntil;
    }

    method LastError(userId: int, network: Option<string>) returns (error: string)
      requires Valid()
      ensures var user := KeyOf(userId, network); error == if user in errors then errors[user] else ""
    {
      var user := KeyOf(userId, network);
      error := if user in states.at && user in errors then errors[user] else "";
    }
  }

  /** Inserting a fresh breaker and then updating it is inserting the updated one. */
  lemma PutTwice(room: Dict<User, Breaker>, d: Dict<User, Breaker>, user: User, b: Breaker)
    requires d == if user in room.at then room else room.Put(user, NEW)
    ensures d.Put(user, b) == room.Put(user, b)
  {
    assert room.at[user := NEW][user := b] == room.at[user := b];
  }
}

/** Exactly when evictions change whether a user's circuit is open. */
module UserCircuitRuns {
  import opened OrderedDicts
  import opened Breakers
  import opened UserCircuit

  function Step(cfg: Config, cap: int, d: Dict<User, Breaker>, e: Keyed<User>): Dict<User, Breaker> {
    match e.event
    case Failed(t) => FailUser(cfg, cap, d, e.key, t)
    case Succeeded => SucceedUser(cfg, d, e.key)
  }

  function RunUsers(cfg: Config, cap: int, es: seq<Keyed<User>>): Dict<User, Breaker> {
    if es == [] then Empty() else Step(cfg, cap, RunUsers(cfg, cap, es[..|es| - 1]), es[|es| - 1])
  }

  /** Failure times are nonnegative and nondecreasing, the last at most `now`. */
  predicate InOrder(es: seq<Keyed<User>>, now: real)
    decreases |es|
  {
    es == [] || match es[|es| - 1].event
                case Failed(t) => 0.0 <= t <= now && InOrder(es[..|es| - 1], t)
                case Succeeded => InOrder(es[..|es| - 1], now)
  }

  /** The step evicts nobody, or a user silent for longer than the window and the cooldown. */
  predicate EvictsQuiet(cfg: Config, cap: int, d: Dict<User, Breaker>, e: Keyed<User>) {
    e.event.Failed? && Evicts(cap, d, e.key) ==>
      var last := LastFailure(d.at[Oldest(d)]);
      last + cfg.window < e.event.at && last + cfg.cooldown <= e.event.at
  }

  predicate EvictionsQuiet(cfg: Config, cap: int, es: seq<Keyed<User>>) {
    es == [] || (EvictsQuiet(cfg, cap, RunUsers(cfg, cap, es[..|es| - 1]), es[|es| - 1])
                 && EvictionsQuiet(cfg, cap, es[..|es| - 1]))
  }

  /** Earlier failures matter: one alone does not open a breaker, and open breakers stay so for a while. */
  predicate Counts(cfg: Config) { cfg.threshold >= 2 && cfg.cooldown > 0.0 }

  /** A breaker as good as none from `now` on: it is not open, and no failure in the window counts. */
  predicate Forgettable(cfg: Config, b: Breaker, now: real) {
    b.openUntil <= now && (Counts(cfg) ==> Since(b.failures, now - cfg.window) == [])
  }

  /** The step does not evict u, or u's breaker is forgettable. */
  predicate Spares(cfg: Config, cap: int, d: Dict<User, Breaker>, e: Keyed<User>, u: User) {
    e.event.Failed? && Evicts(cap, d, e.key) && u == Oldest(d) ==> Forgettable(cfg, d.at[u], e.event.at)
  }

  predicate Spared(cfg: Config, cap: int, es: seq<Keyed<User>>, u: User) {
    es == [] || (Spares(cfg, cap, RunUsers(cfg, cap, es[..|es| - 1]), es[|es| - 1], u)
                 && Spared(cfg, cap, es[..|es| - 1], u))
  }

  /** Two breakers that no query or failure at `now` or later can tell apart. */
  predicate Same(cfg: Config, a: Breaker, b: Breaker, now: real) {
    && (Counts(cfg) ==> Since(a.failures, now - cfg.window) == Since(b.failures, now - cfg.window))
    && (a.openUntil == b.openUntil || (a.openUntil <= now && b.openUntil <= now))
  }

  lemma SameLater(cfg: Config, a: Breaker, b: Breaker, s: real, t: real)
    requires Same(cfg, a, b, s) && s <= t
    ensures Same(cfg, a, b, t)
  {
    hide Since;
    SinceSince(a.failures, s - cfg.window, t - cfg.window);
    SinceSince(b.failures, s - cfg.window, t - cfg.window);
  }

  lemma SameFail(cfg: Config, a: Breaker, b: Breaker, now: real)
    requires Same(cfg, a, b, now)
    ensures Same(cfg, Fail(cfg, a, now), Fail(cfg, b, now), now)
  {
  }

  /** Failures are no later than the last one, which bounds the open period. */
  ghost predicate Paced(cfg: Config, b: Breaker) {
    && (forall i :: 0 <= i < |b.failures| ==> 0.0 <= b.failures[i] <= LastFailure(b))
    && b.openUntil <= LastFailure(b) + cfg.cooldown
  }

  lemma {:induction false} SinceFacts(ts: seq<real>, cutoff: real)
    ensures forall x :: x in Since(ts, cutoff) <==> x in ts && x >= cutoff
  {
    if ts != [] {
      SinceFacts(ts[..|ts| - 1], cutoff);
      assert ts == ts[..|ts| - 1] + [ts[|ts| - 1]];
    }
  }

  lemma PacedFail(cfg: Config, b: Breaker, now: real)
    requires Paced(cfg, b) && LastFailure(b) <= now && now >= 0.0
    ensures Paced(cfg, Fail(cfg, b, now)) && LastFailure(Fail(cfg, b, now)) == now
  {
    SinceFacts(b.failures, now - cfg.window);
    var kept := Since(b.failures, now - cfg.window);
    forall i | 0 <= i < |kept| ensures 0.0 <= kept[i] <= now { assert kept[i] in kept; }
  }

  /** A user silent for longer than the window and the cooldown is forgettable. */
  lemma QuietIsForgettable(cfg: Config, b: Breaker, now: real)
    requires Paced(cfg, b)
    requires LastFailure(b) + cfg.window < now && LastFailure(b) + cfg.cooldown <= now
    ensures Forgettable(cfg, b, now)
  {
    SinceNone(b.failures, now - cfg.window);
  }

  lemma {:induction false} SinceNone(ts: seq<real>, cutoff: real)
    requires forall i :: 0 <= i < |ts| ==> ts[i] < cutoff
    ensures Since(ts, cutoff) == []
  {
    if ts != [] { SinceNone(ts[..|ts| - 1], cutoff); }
  }

  lemma {:induction false} TablePaced(cfg: Config, cap: int, es: seq<Keyed<User>>, now: real, u: User)
    requires cap > 0 && cfg.successCloses && cfg.cooldown >= 0.0 && now >= 0.0 && InOrder(es, now)
    ensures var b := BreakerAt(RunUsers(cfg, cap, es).at, u); Paced(cfg, b) && LastFailure(b) <= now
    decreases |es|
  {
    hide Fail, OrderedDict.Valid, Oldest, LastFailure, Paced;
    if es == [] {
      NewPaced(cfg);
    } else {
      var init, e := es[..|es| - 1], es[|es| - 1];
      NewPaced(cfg);
      match e.event {
        case Failed(t) =>
          TablePaced(cfg, cap, init, t, u);
          PacedFail(cfg, BreakerAt(RunUsers(cfg, cap, init).at, u), t);
        case Succeeded =>
          TablePaced(cfg, cap, init, now, u);
      }
    }
  }

  lemma NewPaced(cfg: Config)
    requires cfg.cooldown >= 0.0
    ensures Paced(cfg, NEW) && LastFailure(NEW) == 0.0
  {
  }

  lemma {:induction false} QuietSpares(cfg: Config, cap: int, es: seq<Keyed<User>>, now: real, u: User)
    requires cap > 0 && cfg.successCloses && cfg.cooldown >= 0.0 && now >= 0.0
    requires InOrder(es, now) && EvictionsQuiet(cfg, cap, es)
    ensures Spared(cfg, cap, es, u)
    decreases |es|
  {
    hide Fail, OrderedDict.Valid, Oldest, LastFailure, Paced, Since, Forgettable;
    if es != [] {
      var init, e := es[..|es| - 1], es[|es| - 1];
      var before := if e.event.Failed? then e.event.at else now;
      QuietSpares(cfg, cap, init, before, u);
      var d := RunUsers(cfg, cap, init);
      if e.event.Failed? && Evicts(cap, d, e.key) && u == Oldest(d) {
        TablePaced(cfg, cap, init, before, u);
        QuietIsForgettable(cfg, d.at[u], before);
      }
    }
  }

  /** The bounded table and the unbounded history agree on a user, up to what can be asked, as long as
      it is only ever evicted when forgettable. */
  lemma {:induction false} TableTracks(cfg: Config, cap: int, es: seq<Keyed<User>>, now: real, u: User)
    requires cap > 0 && cfg.successCloses && cfg.window >= 0.0 && cfg.cooldown >= 0.0 && now >= 0.0
    requires InOrder(es, now) && Spared(cfg, cap, es, u)
    ensures Same(cfg, BreakerAt(RunUsers(cfg, cap, es).at, u), Breakers.Run(cfg, HistoryOf(es, u)), now)
    decreases |es|
  {
    hide Fail, OrderedDict.Valid, Oldest, LastFailure, Same, Forgettable, Since;
    if es == [] {
      SameRefl(cfg, NEW, now);
    } else {
      var init, e := es[..|es| - 1], es[|es| - 1];
      var h := HistoryOf(init, u);
      var d, full := RunUsers(cfg, cap, init), Breakers.Run(cfg, h);
      HistoryGrows(cfg, es, u);
      DictKeys(d);
      match e.event {
        case Failed(t) =>
          TableTracks(cfg, cap, init, t, u);
          if e.key == u {
            SameFail(cfg, BreakerAt(d.at, u), full, t);
            SameLater(cfg, Fail(cfg, BreakerAt(d.at, u), t), Fail(cfg, full, t), t, now);
          } else {
            if u in d.at && |d.order| >= cap && e.key !in d.at && u == Oldest(d) {
              ForgettableIsNew(cfg, d.at[u], full, t);
              SameLater(cfg, NEW, full, t, now);
            } else {
              SameLater(cfg, BreakerAt(d.at, u), full, t, now);
            }
          }
        case Succeeded =>
          TableTracks(cfg, cap, init, now, u);
          SameRefl(cfg, NEW, now);
      }
    }
  }

  lemma ForgettableIsNew(cfg: Config, v: Breaker, full: Breaker, now: real)
    requires now >= 0.0 && Same(cfg, v, full, now)
    ensures Forgettable(cfg, v, now) <==> Forgettable(cfg, full, now)
    ensures Forgettable(cfg, full, now) <==> Same(cfg, NEW, full, now)
  {
  }

  lemma SameRefl(cfg: Config, b: Breaker, now: real)
    ensures Same(cfg, b, b, now)
  {
  }

  lemma HistoryGrows(cfg: Config, es: seq<Keyed<User>>, u: User)
    requires es != []
    ensures var init, e := es[..|es| - 1], es[|es| - 1];
            Breakers.Run(cfg, HistoryOf(es, u)) ==
              if e.key != u then Breakers.Run(cfg, HistoryOf(init, u))
              else if e.event.Failed? then Fail(cfg, Breakers.Run(cfg, HistoryOf(init, u)), e.event.at)
              else Succeed(cfg, Breakers.Run(cfg, HistoryOf(init, u)))
  {
    hide Fail;
    var h, e := HistoryOf(es[..|es| - 1], u), es[|es| - 1];
    assert (h + [e.event])[..|h|] == h;
    assert h + [] == h;
  }

  lemma {:induction false} UserChronological(es: seq<Keyed<User>>, now: real, u: User)
    requires InOrder(es, now)
    ensures Chronological(HistoryOf(es, u), now)
    decreases |es|
  {
    if es != [] {
      var h, e := HistoryOf(es[..|es| - 1], u), es[|es| - 1];
      var t := if e.event.Failed? then e.event.at else now;
      UserChronological(es[..|es| - 1], t, u);
      if e.key == u { assert (h + [e.event])[..|h|] == h; } else { ChronologicalLater(h, t, now); assert h + [] == h; }
    }
  }

  lemma {:induction false} ChronologicalLater(h: seq<Event>, s: real, t: real)
    requires Chronological(h, s) && s <= t
    ensures Chronological(h, t)
    decreases |h|
  {
    if h != [] && h[|h| - 1].Succeeded? { ChronologicalLater(h[..|h| - 1], s, t); }
  }

  /** While a user is only evicted when forgettable, its circuit is open exactly when its own full
      history says so: within one cooldown of an opening by the rule since the last success. */
  lemma EvictionInvisible(cfg: Config, cap: int, es: seq<Keyed<User>>, now: real, u: User)
    requires cap > 0 && cfg.successCloses && cfg.window >= 0.0 && cfg.cooldown >= 0.0 && now >= 0.0
    requires InOrder(es, now) && Spared(cfg, cap, es, u)
    ensures var o, open := Openings(cfg, HistoryOf(es, u)), IsOpen(BreakerAt(RunUsers(cfg, cap, es).at, u), now);
            && (open <==> IsOpen(Breakers.Run(cfg, HistoryOf(es, u)), now))
            && (open <==> exists i :: 0 <= i < |o| && o[i] <= now < o[i] + cfg.cooldown)
            && CooldownApart(o, cfg.cooldown, now)
  {
    hide Breakers.Run, Openings, HistoryOf, RunUsers, InOrder, Spared, Chronological, CooldownApart;
    TableTracks(cfg, cap, es, now, u);
    UserChronological(es, now, u);
    OpenExactlyInPeriods(cfg, HistoryOf(es, u), now);
  }

  // ----- error texts -------------------------------------------------------

  /** What happened to a user, a failure with its error text. */
  datatype Noted = Noted(what: Keyed<User>, error: string)

  function Bare(ns: seq<Noted>): (es: seq<Keyed<User>>)
    ensures |es| == |ns|
  {
    seq(|ns|, i requires 0 <= i < |ns| => ns[i].what)
  }

  function Errors(cfg: Config, cap: int, ns: seq<Noted>): map<User, string> {
    if ns == [] then map[]
    else
      var n, last := |ns| - 1, ns[|ns| - 1];
      var d, before := RunUsers(cfg, cap, Bare(ns[..n])), Errors(cfg, cap, ns[..n]);
      if last.what.event.Succeeded? || Refuses(cap, d, last.what.key) then before
      else ErrorsAfter(cap, d, before, last.what.key, last.error)
  }

  /** The last error text u gave since it was last evicted, its first 220 characters. */
  function LatestError(cfg: Config, cap: int, ns: seq<Noted>, u: User): string {
    if ns == [] then ""
    else
      var n, last := |ns| - 1, ns[|ns| - 1];
      var d, before := RunUsers(cfg, cap, Bare(ns[..n])), LatestError(cfg, cap, ns[..n], u);
      if last.what.event.Succeeded? then before
      else if last.what.key == u && last.error != "" && (u in d.at || cap > 0) then
        if |last.error| > 220 then last.error[..220] else last.error
      else if last.what.key !in d.at && |d.order| >= cap && d.order != [] && u == Oldest(d) then ""
      else before
  }

  /** What last_error gives is the latest error text of the user, until it is evicted. */
  lemma {:induction false} ErrorsAreLatest(cfg: Config, cap: int, ns: seq<Noted>, u: User)
    ensures var e := Errors(cfg, cap, ns); (if u in e then e[u] else "") == LatestError(cfg, cap, ns, u)
  {
    hide Fail, OrderedDict.Valid, Oldest, RunUsers;
    if ns != [] {
      ErrorsAreLatest(cfg, cap, ns[..|ns| - 1], u);
      if cap <= 0 { NoRoomNoTable(cfg, cap, Bare(ns[..|ns| - 1])); }
    }
  }

  // ----- exactly which evictions matter -------------------------------------

  function RunFrom(cfg: Config, b: Breaker, h: seq<Event>): Breaker {
    if h == [] then b
    else match h[|h| - 1]
         case Failed(t) => Fail(cfg, RunFrom(cfg, b, h[..|h| - 1]), t)
         case Succeeded => Succeed(cfg, RunFrom(cfg, b, h[..|h| - 1]))
  }

  /** Failures of h come in order between `start` and `now`. */
  predicate Between(start: real, h: seq<Event>, now: real)
    decreases |h|
  {
    if h == [] then start <= now
    else match h[|h| - 1]
         case Failed(t) => t <= now && Between(start, h[..|h| - 1], t)
         case Succeeded => Between(start, h[..|h| - 1], now)
  }

  lemma {:induction false} SameFrom(cfg: Config, a: Breaker, b: Breaker, start: real, h: seq<Event>, now: real)
    requires Same(cfg, a, b, start) && Between(start, h, now) && cfg.successCloses
    ensures Same(cfg, RunFrom(cfg, a, h), RunFrom(cfg, b, h), now)
    decreases |h|
  {
    hide Fail, Same, Since;
    if h == [] {
      SameLater(cfg, a, b, start, now);
    } else {
      var init := h[..|h| - 1];
      match h[|h| - 1] {
        case Failed(t) =>
          SameFrom(cfg, a, b, start, init, t);
          SameFail(cfg, RunFrom(cfg, a, init), RunFrom(cfg, b, init), t);
          SameLater(cfg, RunFrom(cfg, a, h), RunFrom(cfg, b, h), t, now);
        case Succeeded =>
          SameFrom(cfg, a, b, start, init, now);
          SameRefl(cfg, NEW, now);
      }
    }
  }

  /** n failures at one time. */
  function Burst(t: real, n: nat): seq<Event> { if n == 0 then [] else Burst(t, n - 1) + [Failed(t)] }

  lemma FailureAdds(cfg: Config, b: Breaker, t: real)
    requires cfg.window >= 0.0 && |Since(b.failures, t - cfg.window)| + 1 < cfg.threshold
    ensures Fail(cfg, b, t).openUntil == b.openUntil
    ensures |Since(Fail(cfg, b, t).failures, t - cfg.window)| == |Since(b.failures, t - cfg.window)| + 1
  {
    hide Since;
    SinceSince(b.failures, t - cfg.window, t - cfg.window);
    SinceSnoc(Since(b.failures, t - cfg.window), t, t - cfg.window);
  }

  lemma {:induction false} AfterBurst(cfg: Config, b: Breaker, t: real, n: nat)
    requires b.openUntil <= t && cfg.window >= 0.0
    requires |Since(b.failures, t - cfg.window)| + n < cfg.threshold
    ensures Between(t, Burst(t, n), t)
    ensures var r := RunFrom(cfg, b, Burst(t, n));
            r.openUntil == b.openUntil && |Since(r.failures, t - cfg.window)| == |Since(b.failures, t - cfg.window)| + n
  {
    hide Since, Fail;
    if n > 0 {
      AfterBurst(cfg, b, t, n - 1);
      BurstLength(t, n - 1);
      assert Burst(t, n)[..n - 1] == Burst(t, n - 1);
      FailureAdds(cfg, RunFrom(cfg, b, Burst(t, n - 1)), t);
    }
  }

  lemma {:induction false} BurstLength(t: real, n: nat)
    ensures |Burst(t, n)| == n
  {
    if n > 0 { BurstLength(t, n - 1); }
  }

  /** A breaker that is no longer open opens at the first failure that reaches the threshold. */
  lemma NextOpens(cfg: Config, b: Breaker, h: seq<Event>, t: real)
    requires cfg.cooldown > 0.0 && Between(t, h, t) && RunFrom(cfg, b, h).openUntil <= t
    requires |Since(RunFrom(cfg, b, h).failures, t - cfg.window)| + 1 >= cfg.threshold
    ensures Between(t, h + [Failed(t)], t) && IsOpen(RunFrom(cfg, b, h + [Failed(t)]), t)
  {
    hide Since;
    assert (h + [Failed(t)])[..|h|] == h;
  }

  /** What can be told of a user whose breaker is b: nothing, or an open circuit. */
  ghost predicate LikeNew(cfg: Config, b: Breaker, t: real) {
    forall h: seq<Event>, now: real ::
      Between(t, h, now) ==> IsOpen(RunFrom(cfg, NEW, h), now) == IsOpen(RunFrom(cfg, b, h), now)
  }

  /** Being forgettable is exact: otherwise some failures of the user, at the same time, and a query
      tell the breaker from a new one. */
  lemma ForgettableIff(cfg: Config, b: Breaker, t: real)
    requires t >= 0.0 && cfg.window >= 0.0 && cfg.successCloses
    ensures Forgettable(cfg, b, t) <==> LikeNew(cfg, b, t)
  {
    hide Since, RunFrom;
    if Forgettable(cfg, b, t) {
      SinceNothing(t - cfg.window);
      forall h: seq<Event>, now: real | Between(t, h, now)
        ensures IsOpen(RunFrom(cfg, NEW, h), now) == IsOpen(RunFrom(cfg, b, h), now)
      {
        SameFrom(cfg, NEW, b, t, h, now);
      }
    } else if b.openUntil > t {
      RunFromNothing(cfg, b, t);
      RunFromNothing(cfg, NEW, t);
      assert Between(t, [], t) && IsOpen(RunFrom(cfg, b, []), t) && !IsOpen(RunFrom(cfg, NEW, []), t);
    } else {
      var seen := |Since(b.failures, t - cfg.window)|;
      SinceNothing(t - cfg.window);
      var n := if seen >= cfg.threshold then 0 else cfg.threshold - seen - 1;
      BurstReaches(cfg, b, t, n);
      NextOpens(cfg, b, Burst(t, n), t);
      AfterBurst(cfg, NEW, t, n + 1);
    }
  }

  lemma RunFromNothing(cfg: Config, b: Breaker, t: real)
    ensures RunFrom(cfg, b, []) == b && Between(t, [], t)
  {
  }

  lemma SinceNothing(cutoff: real)
    ensures Since([], cutoff) == []
  {
  }

  lemma BurstReaches(cfg: Config, b: Breaker, t: real, n: nat)
    requires b.openUntil <= t && cfg.window >= 0.0
    requires var seen := |Since(b.failures, t - cfg.window)|;
             n == if seen >= cfg.threshold then 0 else cfg.threshold - seen - 1
    ensures var r := RunFrom(cfg, b, Burst(t, n));
            Between(t, Burst(t, n), t) && r.openUntil <= t && |Since(r.failures, t - cfg.window)| + 1 >= cfg.threshold
  {
    hide Since;
    if n > 0 { AfterBurst(cfg, b, t, n); }
  }

  /** A user's own events. */
  function Mine(u: User, h: seq<Event>): (r: seq<Keyed<User>>)
    ensures |r| == |h|
  {
    seq(|h|, i requires 0 <= i < |h| => Keyed(u, h[i]))
  }

  /** While only u acts, u is not evicted, and both its breaker and its history go on as they are. */
  lemma {:induction false} OwnEvents(cfg: Config, cap: int, es: seq<Keyed<User>>, u: User, h: seq<Event>)
    requires cap > 0 && cfg.successCloses
    ensures BreakerAt(RunUsers(cfg, cap, es + Mine(u, h)).at, u)
            == RunFrom(cfg, BreakerAt(RunUsers(cfg, cap, es).at, u), h)
    ensures Breakers.Run(cfg, HistoryOf(es + Mine(u, h), u)) == RunFrom(cfg, Breakers.Run(cfg, HistoryOf(es, u)), h)
  {
    hide Fail, OrderedDict.Valid, Oldest, LastFailure, HistoryOf, Breakers.Run;
    if h == [] {
      assert es + Mine(u, h) == es;
    } else {
      var init, all := h[..|h| - 1], es + Mine(u, h);
      OwnEvents(cfg, cap, es, u, init);
      assert all[..|all| - 1] == es + Mine(u, init) && all[|all| - 1] == Keyed(u, h[|h| - 1]);
      HistoryGrows(cfg, all, u);
    }
  }

  /** The table says of u's circuit what u's full history says. */
  predicate AnswersAsHistory(cfg: Config, cap: int, es: seq<Keyed<User>>, u: User, now: real) {
    IsOpen(BreakerAt(RunUsers(cfg, cap, es).at, u), now) == IsOpen(Breakers.Run(cfg, HistoryOf(es, u)), now)
  }

  /** The exact condition for an eviction to change an answer: whatever the evicted user does next and
      whenever its circuit is asked for, the table answers as the full history would if and only if
      the evicted breaker is neither open now nor has failures that still count. */
  lemma EvictionMattersIff(cfg: Config, cap: int, es: seq<Keyed<User>>, e: Keyed<User>)
    requires cap > 0 && cfg.successCloses && cfg.window >= 0.0 && cfg.cooldown >= 0.0
    requires e.event.Failed? && e.event.at >= 0.0 && InOrder(es, e.event.at)
    requires Evicts(cap, RunUsers(cfg, cap, es), e.key)
    requires Spared(cfg, cap, es, Oldest(RunUsers(cfg, cap, es)))
    ensures var d, t := RunUsers(cfg, cap, es), e.event.at;
            var u := Oldest(d);
            Forgettable(cfg, d.at[u], t) <==>
            forall h: seq<Event>, now: real ::
              Between(t, h, now) ==> AnswersAsHistory(cfg, cap, es + [e] + Mine(u, h), u, now)
  {
    hide Fail, OrderedDict.Valid, Oldest, HistoryOf, RunUsers, Breakers.Run, Forgettable, Same, Since, Spared, InOrder,
         RunFrom, Between, IsOpen, Mine;
    var d, t := RunUsers(cfg, cap, es), e.event.at;
    var u := Oldest(d);
    var full := Breakers.Run(cfg, HistoryOf(es, u));
    TableTracks(cfg, cap, es, t, u);
    ForgettableIsNew(cfg, d.at[u], full, t);
    ForgettableIff(cfg, full, t);
    EvictedIsNew(cfg, cap, es, e);
    forall h: seq<Event>, now: real | Between(t, h, now)
      ensures AnswersAsHistory(cfg, cap, es + [e] + Mine(u, h), u, now)
              <==> IsOpen(RunFrom(cfg, NEW, h), now) == IsOpen(RunFrom(cfg, full, h), now)
    {
      OwnEvents(cfg, cap, es + [e], u, h);
    }
  }

  lemma EvictedIsNew(cfg: Config, cap: int, es: seq<Keyed<User>>, e: Keyed<User>)
    requires cap > 0 && e.event.Failed? && Evicts(cap, RunUsers(cfg, cap, es), e.key)
    ensures var u := Oldest(RunUsers(cfg, cap, es));
            && BreakerAt(RunUsers(cfg, cap, es + [e]).at, u) == NEW
            && Breakers.Run(cfg, HistoryOf(es + [e], u)) == Breakers.Run(cfg, HistoryOf(es, u))
  {
    hide Fail, OrderedDict.Valid, Oldest, LastFailure, HistoryOf, Breakers.Run;
    assert (es + [e])[..|es|] == es;
    HistoryGrows(cfg, es + [e], Oldest(RunUsers(cfg, cap, es)));
  }

  /** The users that ever failed. */
  ghost function Failing(es: seq<Keyed<User>>): set<User> {
    set i | 0 <= i < |es| && es[i].event.Failed? :: es[i].key
  }

  /** With no more distinct failing users than the cap, nobody is ever evicted. */
  lemma {:induction false} FewUsersNoEviction(cfg: Config, cap: int, es: seq<Keyed<User>>)
    requires cap > 0 && |Failing(es)| <= cap
    ensures EvictionsQuiet(cfg, cap, es)
    ensures RunUsers(cfg, cap, es).at.Keys <= Failing(es)
  {
    hide Fail, OrderedDict.Valid, Oldest, LastFailure;
    if es != [] {
      var init, e := es[..|es| - 1], es[|es| - 1];
      var d := RunUsers(cfg, cap, init);
      assert Failing(es) == Failing(init) + (if e.event.Failed? then {e.key} else {}) by {
        assert es == init + [e];
      }
      SubsetCard(Failing(init), Failing(es));
      FewUsersNoEviction(cfg, cap, init);
      if e.event.Failed? && e.key !in d.at {
        Cardinality(d);
        SubsetCard(d.at.Keys + {e.key}, Failing(es));
      }
    }
  }

  lemma Cardinality(d: Dict<User, Breaker>)
    ensures |d.order| == |d.at.Keys|
  {
  }

  /** The table never outgrows its cap. */
  lemma {:induction false} TableBounded(cfg: Config, cap: int, es: seq<Keyed<User>>)
    requires cap > 0
    ensures |RunUsers(cfg, cap, es).order| <= cap
  {
    hide Fail, Oldest, LastFailure;
    if es != [] {
      var init, e := es[..|es| - 1], es[|es| - 1];
      TableBounded(cfg, cap, init);
      var d := RunUsers(cfg, cap, init);
      DictKeys(d);
      if e.event.Failed? && |d.order| >= cap && e.key !in d.at {
        RemoveShrinks(d, Oldest(d));
      }
    }
  }

  /** Without room for anybody nobody is ever tracked. */
  lemma {:induction false} NoRoomNoTable(cfg: Config, cap: int, es: seq<Keyed<User>>)
    requires cap <= 0
    ensures RunUsers(cfg, cap, es) == Empty<User, Breaker>()
  {
    hide Fail, OrderedDict.Put;
    if es != [] { NoRoomNoTable(cfg, cap, es[..|es| - 1]); }
  }
}
