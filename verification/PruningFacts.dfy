/** What prune_terminated drops, exactly, and what it leaves of the order counts. */
module PruningFacts {
  import opened OrderedDicts
  import opened DictSums
  import opened Executors
  import opened Orchestrator

  // ----- newest first ------------------------------------------------------

  /** a was terminated later than b, or at the same time and registered earlier. */
  predicate Ahead(at: map<string, Exec>, ids: seq<string>, a: string, b: string)
    requires a in ids && b in ids && a in at && b in at
  {
    || at[a].terminatedAt > at[b].terminatedAt
    || (at[a].terminatedAt == at[b].terminatedAt && IndexOf(ids, a) < IndexOf(ids, b))
  }

  ghost predicate Ordered(at: map<string, Exec>, ids: seq<string>, r: seq<string>) {
    && (forall i :: 0 <= i < |r| ==> r[i] in ids && r[i] in at)
    && forall i, j :: 0 <= i < j < |r| ==> Ahead(at, ids, r[i], r[j])
  }

  lemma OrderedSnoc(at: map<string, Exec>, ids: seq<string>, r: seq<string>, x: string)
    requires Ordered(at, ids, r) && x in ids && x in at
    requires forall i :: 0 <= i < |r| ==> Ahead(at, ids, r[i], x)
    ensures Ordered(at, ids, r + [x])
  {
    hide IndexOf, Ahead;
    var more := r + [x];
    forall i, j | 0 <= i < j < |more| ensures Ahead(at, ids, more[i], more[j]) {
      if j < |r| { assert Ahead(at, ids, r[i], r[j]); }
    }
  }

  lemma OrderedInit(at: map<string, Exec>, ids: seq<string>, r: seq<string>)
    requires Ordered(at, ids, r) && r != []
    ensures Ordered(at, ids, r[..|r| - 1])
    ensures forall i :: 0 <= i < |r| - 1 ==> Ahead(at, ids, r[i], r[|r| - 1])
  {
    hide IndexOf, Ahead;
    var init := r[..|r| - 1];
    forall i, j | 0 <= i < j < |init| ensures Ahead(at, ids, init[i], init[j]) { assert Ahead(at, ids, r[i], r[j]); }
  }

  lemma OrderedIn(at: map<string, Exec>, ids: seq<string>, r: seq<string>)
    requires Ordered(at, ids, r)
    ensures forall k :: k in r ==> k in at && k in ids
  {
    hide IndexOf, Ahead;
    forall k | k in r ensures k in at && k in ids { var i :| 0 <= i < |r| && r[i] == k; }
  }

  lemma {:induction false} InsertOrdered(at: map<string, Exec>, ids: seq<string>, r: seq<string>, id: string)
    requires Ordered(at, ids, r) && id in ids && id in at
    requires forall i :: 0 <= i < |r| ==> r[i] in ids && IndexOf(ids, r[i]) < IndexOf(ids, id)
    ensures forall k :: k in r ==> k in at
    ensures Ordered(at, ids, Insert(at, r, id))
  {
    hide IndexOf, Ordered;
    OrderedIn(at, ids, r);
    if r != [] {
      var init, last := r[..|r| - 1], r[|r| - 1];
      OrderedInit(at, ids, r);
      if at[last].terminatedAt < at[id].terminatedAt {
        InsertOrdered(at, ids, init, id);
        var rest := Insert(at, init, id);
        forall i | 0 <= i < |rest| ensures rest[i] in ids && rest[i] in at && Ahead(at, ids, rest[i], last) {
          assert rest[i] in rest;
          if rest[i] != id {
            var j :| 0 <= j < |init| && init[j] == rest[i];
            assert Ahead(at, ids, r[j], last);
          }
        }
        OrderedSnoc(at, ids, rest, last);
        return;
      }
      forall i | 0 <= i < |r| ensures Ahead(at, ids, r[i], id) {
        if i < |r| - 1 { assert Ahead(at, ids, r[i], last); }
      }
    }
    OrderedSnoc(at, ids, r, id);
  }

  lemma {:induction false} IndexOfOwn(ids: seq<string>, i: nat)
    requires NoDup(ids) && i < |ids|
    ensures IndexOf(ids, ids[i]) == i
  {
  }

  lemma {:induction false} NewestOrdered(at: map<string, Exec>, ids: seq<string>, n: nat)
    requires NoDup(ids) && n <= |ids| && forall k :: k in ids ==> k in at
    ensures Ordered(at, ids, Newest(at, ids, n))
  {
    hide Ordered, Insert, NoDup, IndexOf;
    if n == 0 {
      NothingOrdered(at, ids);
    } else {
      NewestOrdered(at, ids, n - 1);
      var r := Newest(at, ids, n - 1);
      forall i | 0 <= i < |r| ensures r[i] in ids && IndexOf(ids, r[i]) < IndexOf(ids, ids[n - 1]) {
        assert r[i] in ids[..n - 1];
        EarlierIn(ids, n - 1, r[i]);
      }
      InsertOrdered(at, ids, r, ids[n - 1]);
    }
  }

  lemma EarlierIn(ids: seq<string>, n: nat, x: string)
    requires NoDup(ids) && n < |ids| && x in ids[..n]
    ensures x in ids && IndexOf(ids, x) < IndexOf(ids, ids[n])
  {
    var j :| 0 <= j < n && ids[..n][j] == x;
    IndexOfOwn(ids, j);
    IndexOfOwn(ids, n);
  }

  lemma NothingOrdered(at: map<string, Exec>, ids: seq<string>)
    ensures Ordered(at, ids, [])
  {
  }

  /** The terminated executors of c that are ahead of one of them. */
  ghost function AheadOf(s: State, c: string, id: string): set<string>
    requires id in List(s.executors, c, true)
  {
    ListFacts(s.executors, c, true);
    set x | x in List(s.executors, c, true) && Ahead(s.executors.at, List(s.executors, c, true), x, id)
  }

  /** In a sequence in strict order, what is ahead of an element is exactly what precedes it. */
  lemma RankIsPosition(at: map<string, Exec>, ids: seq<string>, r: seq<string>, p: nat, ahead: set<string>)
    requires Ordered(at, ids, r) && NoDup(r) && p < |r| && (forall k :: k in ids <==> k in r)
    requires forall k :: k in ids ==> k in at
    requires forall x :: x in ahead <==> x in ids && Ahead(at, ids, x, r[p])
    ensures |ahead| == p
  {
    hide IndexOf;
    NoDupCard(r[..p]);
    forall x ensures x in ahead <==> x in r[..p] {
      if x in r[..p] {
        var i :| 0 <= i < p && r[..p][i] == x;
        assert Ahead(at, ids, r[i], r[p]);
        assert r[i] in r;
      } else if x in ids {
        var i :| 0 <= i < |r| && r[i] == x;
        if i > p { assert Ahead(at, ids, r[p], r[i]); }
      }
    }
    assert ahead == Elems(r[..p]);
  }

  // ----- what is dropped ---------------------------------------------------

  lemma {:induction false} PruneToDrops(p: Pruning, s: State, c: string, ids: seq<string>, n: nat, id: string)
    requires n <= |ids|
    ensures var r := PruneTo(p, s, c, ids, n);
            && (id in r.executors.at <==> id in s.executors.at && !(id in ids[..n] && Drops(p, id, s.executors.at[id])))
            && (id in r.executors.at ==> r.executors.at[id] == s.executors.at[id])
  {
    hide Drops, OrderedDict.Valid;
    if n > 0 {
      PruneToDrops(p, s, c, ids, n - 1, id);
      PruneToDrops(p, s, c, ids, n - 1, ids[n - 1]);
      assert ids[..n] == ids[..n - 1] + [ids[n - 1]];
    }
  }

  lemma CandidatesFacts(s: State, c: string)
    ensures NoDup(Candidates(s, c))
    ensures forall k :: k in Candidates(s, c) <==> k in List(s.executors, c, true)
    ensures forall k :: k in List(s.executors, c, true) ==> k in s.executors.at
    ensures Ordered(s.executors.at, List(s.executors, c, true), Candidates(s, c))
  {
    hide Ordered, Insert, List;
    ListFacts(s.executors, c, true);
    var ids := List(s.executors, c, true);
    assert ids[..|ids|] == ids;
    NewestOrdered(s.executors.at, ids, |ids|);
    MultisetNoDup(ids, Newest(s.executors.at, ids, |ids|));
  }

  lemma MultisetNoDup(a: seq<string>, b: seq<string>)
    requires NoDup(a) && multiset(a) == multiset(b)
    ensures NoDup(b)
  {
    NoDupCard(a);
    NoDupCard(b);
    assert |multiset(a)| == |a| && |multiset(b)| == |b|;
    assert forall x :: x in a <==> x in multiset(a);
    assert forall x :: x in b <==> x in multiset(b);
    assert Elems(a) == Elems(b);
  }

  /** Pruning drops an executor exactly when it is a terminated one of the controller, eligible, with
      no order that may rest, released by the predicate, and `keep` others that terminated no earlier
      come before it; every other executor is left as it was. */
  lemma DroppedIff(p: Pruning, s: State, c: string, id: string)
    requires id in s.executors.at
    ensures var r, e := Prune(p, s, c), s.executors.at[id];
            && (id !in r.executors.at <==>
                  && e.controller == c && e.phase == Terminated && id in List(s.executors, c, true)
                  && (p.eligible.Some? ==> id in p.eligible.value)
                  && Settled(e)
                  && (p.predicated.Some? ==> p.predicated.value(id) == Release)
                  && |AheadOf(s, c, id)| >= p.keep)
            && (id in r.executors.at ==> r.executors.at[id] == e)
  {
    hide Settled, MayStillRest, Ordered, PruneTo, List, Ahead, Candidates;
    SettledIff(s.executors.at[id]);
    ListFacts(s.executors, c, true);
    var ids, surplus := Candidates(s, c), Surplus(p, s, c);
    CandidatesFacts(s, c);
    PruneToDrops(p, s, c, surplus, |surplus|, id);
    assert surplus[..|surplus|] == surplus;
    if id in ids {
      var i :| 0 <= i < |ids| && ids[i] == id;
      RankIsPosition(s.executors.at, List(s.executors, c, true), ids, i, AheadOf(s, c, id));
      InSuffix(ids, p.keep, i);
    } else {
      SurplusFrom(ids, p.keep, surplus);
    }
  }

  lemma InSuffix(ids: seq<string>, keep: nat, i: nat)
    requires NoDup(ids) && i < |ids|
    ensures ids[i] in (if |ids| <= keep then [] else ids[keep..]) <==> i >= keep
  {
    if |ids| > keep && i >= keep { assert ids[keep..][i - keep] == ids[i]; }
  }

  lemma SurplusFrom(ids: seq<string>, keep: nat, surplus: seq<string>)
    requires surplus == if |ids| <= keep then [] else ids[keep..]
    ensures forall k :: k in surplus ==> k in ids
  {
  }

  /** x is a terminated executor of c no older than id. */
  predicate NoOlder(at: map<string, Exec>, c: string, x: string, id: string) {
    && x in at && id in at && at[x].controller == c && at[x].phase == Terminated
    && at[x].terminatedAt >= at[id].terminatedAt
  }

  /** The newest `keep` survive: whatever is dropped leaves `keep` terminated executors of the same
      controller behind that terminated no earlier. */
  lemma NewestSurvive(p: Pruning, s: State, c: string, id: string) returns (kept: set<string>)
    requires id in s.executors.at && id !in Prune(p, s, c).executors.at
    ensures |kept| == p.keep && id !in kept
    ensures forall x :: x in kept ==> x in Prune(p, s, c).executors.at && NoOlder(s.executors.at, c, x, id)
  {
    hide Settled, Prune, List, Candidates, OrderedDict.Valid, NoDup, IndexOf;
    var ids := Candidates(s, c);
    CandidatesFacts(s, c);
    DroppedIff(p, s, c, id);
    ListFacts(s.executors, c, true);
    var i :| 0 <= i < |ids| && ids[i] == id;
    RankIsPosition(s.executors.at, List(s.executors, c, true), ids, i, AheadOf(s, c, id));
    kept := Elems(ids[..p.keep]);
    PrefixCard(ids, p.keep);
    forall x | x in kept
      ensures x in Prune(p, s, c).executors.at && NoOlder(s.executors.at, c, x, id) && x != id
    {
      var j :| 0 <= j < p.keep && ids[..p.keep][j] == x;
      OneSurvives(p, s, c, ids, j, i);
    }
  }

  lemma PrefixCard(ids: seq<string>, n: nat)
    requires NoDup(ids) && n <= |ids|
    ensures |Elems(ids[..n])| == n
  {
    NoDupCard(ids[..n]);
  }

  lemma OneSurvives(p: Pruning, s: State, c: string, ids: seq<string>, j: nat, i: nat)
    requires ids == Candidates(s, c) && j < i < |ids| && j < p.keep
    ensures ids[j] in Prune(p, s, c).executors.at && NoOlder(s.executors.at, c, ids[j], ids[i]) && ids[j] != ids[i]
  {
    hide Settled, Prune, Candidates, List, OrderedDict.Valid, IndexOf;
    CandidatesFacts(s, c);
    ListFacts(s.executors, c, true);
    assert Ahead(s.executors.at, List(s.executors, c, true), ids[j], ids[i]);
    RankIsPosition(s.executors.at, List(s.executors, c, true), ids, j, AheadOf(s, c, ids[j]));
    DroppedIff(p, s, c, ids[j]);
  }

  // ----- order counts ------------------------------------------------------

  /** One of the figures of order_counts: placed, filled or cancelled. */
  datatype Figure = Placed | Filled | Cancelled

  function Value(f: Figure, k: Counts): real {
    match f
    case Placed => k.placed as real
    case Filled => k.filled as real
    case Cancelled => k.cancelled as real
  }

  function Share(f: Figure, c: string): Exec -> real {
    (e: Exec) => if e.controller == c then Value(f, e.counts) else 0.0
  }

  /** order_counts of controller c: banked plus everything still registered. */
  function OrderCount(f: Figure, s: State, c: string): real {
    (if c in s.banked then Value(f, s.banked[c]) else 0.0) + Sum(s.executors, Share(f, c))
  }

  /** What of an executor's counts bank_executor_counts banks: all, or the part it got to. */
  function Banked(b: Banking, counts: Counts): Counts { match b case Whole => counts case Raised(part) => part }

  /** What dropping e costs: its figure, less what of it was banked. */
  function Cost(f: Figure, p: Pruning, s: State, c: string, id: string): real {
    if id in s.executors.at && Drops(p, id, s.executors.at[id]) then
      var e := s.executors.at[id];
      Value(f, e.counts) - if c in s.banked then Value(f, Banked(p.bank(id), e.counts)) else 0.0
    else 0.0
  }

  /** What goes missing over the drops. */
  function Lost(f: Figure, p: Pruning, s: State, c: string, ids: seq<string>, n: nat): real
    requires n <= |ids|
  {
    if n == 0 then 0.0 else Lost(f, p, s, c, ids, n - 1) + Cost(f, p, PruneTo(p, s, c, ids, n - 1), c, ids[n - 1])
  }

  lemma PruneOneCounts(f: Figure, p: Pruning, s: State, c: string, id: string, who: string)
    requires id in s.executors.at ==> s.executors.at[id].controller == c
    ensures OrderCount(f, PruneOne(p, s, c, id), who)
            == OrderCount(f, s, who) - if who == c then Cost(f, p, s, c, id) else 0.0
  {
    hide Drops, OrderedDict.Valid, SumOver, Sum;
    SumRemove(s.executors, id, Share(f, who));
  }

  lemma {:induction false} PruneToCounts(f: Figure, p: Pruning, s: State, c: string, ids: seq<string>, n: nat,
                                         who: string)
    requires n <= |ids| && forall k :: k in ids && k in s.executors.at ==> s.executors.at[k].controller == c
    ensures OrderCount(f, PruneTo(p, s, c, ids, n), who)
         == OrderCount(f, s, who) - if who == c then Lost(f, p, s, c, ids, n) else 0.0
  {
    hide Drops, OrderedDict.Valid, OrderCount, PruneOne, Share, Cost;
    if n > 0 {
      PruneToCounts(f, p, s, c, ids, n - 1, who);
      PruneToDrops(p, s, c, ids, n - 1, ids[n - 1]);
      PruneOneCounts(f, p, PruneTo(p, s, c, ids, n - 1), c, ids[n - 1], who);
    }
  }

  /** No banking call raises. */
  ghost predicate BanksAll(p: Pruning) { forall id :: p.bank(id).Whole? }

  /** Pruning leaves every controller's order counts as they were, except for exactly what belonged to
      dropped executors and was not banked. */
  lemma CountsConserved(f: Figure, p: Pruning, s: State, c: string, who: string)
    ensures var ids := Surplus(p, s, c);
            OrderCount(f, Prune(p, s, c), who)
            == OrderCount(f, s, who) - if who == c then Lost(f, p, s, c, ids, |ids|) else 0.0
    ensures c in s.banked && BanksAll(p) ==> OrderCount(f, Prune(p, s, c), who) == OrderCount(f, s, who)
  {
    hide OrderCount, PruneTo, List, Candidates, Lost, Drops;
    var ids := Surplus(p, s, c);
    CandidatesFacts(s, c);
    ListFacts(s.executors, c, true);
    SurplusFrom(Candidates(s, c), p.keep, ids);
    PruneToCounts(f, p, s, c, ids, |ids|, who);
    if c in s.banked && BanksAll(p) { NothingLost(f, p, s, c, ids, |ids|); }
  }

  lemma {:induction false} NothingLost(f: Figure, p: Pruning, s: State, c: string, ids: seq<string>, n: nat)
    requires n <= |ids| && c in s.banked && BanksAll(p)
    ensures Lost(f, p, s, c, ids, n) == 0.0 && c in PruneTo(p, s, c, ids, n).banked
  {
    hide Drops, OrderedDict.Valid, Value;
    if n > 0 { NothingLost(f, p, s, c, ids, n - 1); }
  }
}
