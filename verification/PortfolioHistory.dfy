/** Portfolio history rows and their retention: every sample for 7 days, one an hour for 30, one a
    day for a year. Timestamps are microseconds of UTC. */
module PortfolioHistory {
  import opened OrderedDicts

  const HOUR := 3_600_000_000
  const DAY := 24 * HOUR

  datatype Row = Row(user: int, network: string, ts: int, payload: string)

  /** A retention bucket: a calendar hour and a calendar day are numbered since the epoch. */
  datatype Bucket = Sample(ts: int) | Hourly(hour: int) | Daily(day: int)

  type Key = (int, string, Bucket)

  function DayOf(ts: int): int { ts / DAY }

  function BucketOf(ts: int, now: int): Option<Bucket> {
    var age := now - ts;
    if age <= 7 * DAY then Some(Sample(ts))
    else if age <= 30 * DAY then Some(Hourly(ts / HOUR))
    else if age <= 365 * DAY then Some(Daily(DayOf(ts)))
    else None
  }

  function KeyOf(r: Row, now: int): Option<Key> {
    match BucketOf(r.ts, now) case Some(b) => Some((r.user, r.network, b)) case None => None
  }

  type Kept = Dict<Key, Row>

  function Keep(kept: Kept, r: Row, now: int): Kept {
    match KeyOf(r, now)
    case None => kept
    case Some(k) => if k !in kept.at || r.ts > kept.at[k].ts then kept.Put(k, r) else kept
  }

  function KeepAll(rows: seq<Row>, now: int): Kept {
    if rows == [] then Empty() else Keep(KeepAll(rows[..|rows| - 1], now), rows[|rows| - 1], now)
  }

  function Values(kept: Kept): seq<Row> {
    DictKeys(kept);
    seq(|kept.order|, i requires 0 <= i < |kept.order| => kept.at[kept.order[i]])
  }

  // ----- sorted(rows, key=(user, ts)) --------------------------------------

  predicate Before(a: Row, b: Row) { a.user < b.user || (a.user == b.user && a.ts < b.ts) }

  /** Insert behind every row that is not later: a stable sort. */
  function Insert(rows: seq<Row>, r: Row): seq<Row> {
    if rows == [] || !Before(r, rows[|rows| - 1]) then rows + [r]
    else Insert(rows[..|rows| - 1], r) + [rows[|rows| - 1]]
  }

  function Sorted(rows: seq<Row>): seq<Row> {
    if rows == [] then [] else Insert(Sorted(rows[..|rows| - 1]), rows[|rows| - 1])
  }

  function Prune(rows: seq<Row>, now: int): seq<Row> { Sorted(Values(KeepAll(rows, now))) }

  class HistoryRepository {
    var rows: seq<Row>

    constructor ()
      ensures rows == []
    {
      rows := [];
    }

    method Record(row: Row)
      modifies this
      ensures rows == old(rows) + [row]
    {
      rows := rows + [row];
    }

    method PruneRows(now: int) returns (removed: int)
      modifies this
      ensures rows == Prune(old(rows), now)
      ensures removed == |old(rows)| - |rows|
    {
      hide OrderedDict.Valid, OrderedDict.Put, BucketOf;
      var kept: Kept := Empty();
      for i := 0 to |rows|
        invariant rows == old(rows) && kept == KeepAll(rows[..i], now)
      {
        assert rows[..i + 1][..i] == rows[..i];
        var bucket := BucketOf(rows[i].ts, now);
        if bucket.Some? {
          var key := (rows[i].user, rows[i].network, bucket.value);
          if key !in kept.at || rows[i].ts > kept.at[key].ts { kept := kept.Put(key, rows[i]); }
        }
      }
      assert rows[..|rows|] == rows;
      var before := |rows|;
      rows := Sorted(Values(kept));
      removed := before - |rows|;
    }
  }
}

/** What pruning keeps, once and over whole runs. */
module RetentionRuns {
  import opened OrderedDicts
  import opened PortfolioHistory

  // ----- one prune ---------------------------------------------------------

  /** The dictionary holds, per bucket, a newest row of that bucket. */
  ghost predicate NewestPerBucket(rows: seq<Row>, kept: Kept, now: int) {
    && (forall k :: k in kept.at ==> kept.at[k] in rows && KeyOf(kept.at[k], now) == Some(k))
    && (forall r :: r in rows && KeyOf(r, now).Some? ==>
          KeyOf(r, now).value in kept.at && kept.at[KeyOf(r, now).value].ts >= r.ts)
  }

  lemma {:induction false} KeepsNewest(rows: seq<Row>, now: int)
    ensures NewestPerBucket(rows, KeepAll(rows, now), now)
  {
    hide OrderedDict.Valid, OrderedDict.Put, KeyOf;
    if rows != [] {
      var init := rows[..|rows| - 1];
      KeepsNewest(init, now);
      assert forall r :: r in rows <==> r in init || r == rows[|rows| - 1];
    }
  }

  lemma {:induction false} InsertElems(rows: seq<Row>, r: Row)
    ensures forall x :: x in Insert(rows, r) <==> x in rows || x == r
    ensures |Insert(rows, r)| == |rows| + 1
  {
    if !(rows == [] || !Before(r, rows[|rows| - 1])) {
      InsertElems(rows[..|rows| - 1], r);
      assert rows == rows[..|rows| - 1] + [rows[|rows| - 1]];
    }
  }

  lemma {:induction false} SortedElems(rows: seq<Row>)
    ensures forall x :: x in Sorted(rows) <==> x in rows
    ensures |Sorted(rows)| == |rows|
  {
    if rows != [] {
      SortedElems(rows[..|rows| - 1]);
      InsertElems(Sorted(rows[..|rows| - 1]), rows[|rows| - 1]);
      assert rows == rows[..|rows| - 1] + [rows[|rows| - 1]];
    }
  }

  lemma ValuesElems(kept: Kept)
    ensures forall x :: x in Values(kept) <==> exists k :: k in kept.at && kept.at[k] == x
    ensures |Values(kept)| == |kept.order|
  {
    DictKeys(kept);
    forall k | k in kept.at ensures kept.at[k] in Values(kept) {
      assert Values(kept)[IndexOf(kept.order, k)] == kept.at[k];
    }
  }

  /** A prune invents nothing, keeps a newest row for every bucket with a row young enough, and
      keeps nothing else: of two survivors, no two share a bucket. */
  lemma PruneKeepsNewest(rows: seq<Row>, now: int)
    ensures forall r :: r in Prune(rows, now) ==> r in rows && KeyOf(r, now).Some?
    ensures forall r :: r in Prune(rows, now) ==>
              forall o :: o in rows && KeyOf(o, now) == KeyOf(r, now) ==> o.ts <= r.ts
    ensures forall o :: o in rows && KeyOf(o, now).Some? ==>
              exists r :: r in Prune(rows, now) && KeyOf(r, now) == KeyOf(o, now) && r.ts >= o.ts
    ensures Apart(Prune(rows, now), now)
  {
    hide OrderedDict.Valid, KeepAll, Values, Sorted, KeyOf;
    var kept := KeepAll(rows, now);
    KeepsNewest(rows, now);
    ValuesElems(kept);
    SortedElems(Values(kept));
    forall o | o in rows && KeyOf(o, now).Some?
      ensures exists r :: r in Prune(rows, now) && KeyOf(r, now) == KeyOf(o, now) && r.ts >= o.ts
    {
      assert kept.at[KeyOf(o, now).value] in Prune(rows, now);
    }
    ValuesApart(rows, now);
    SortedApart(Values(kept), now);
  }

  /** The row that survives for a given one. */
  lemma SurvivorOf(rows: seq<Row>, o: Row, now: int) returns (r: Row)
    requires o in rows && KeyOf(o, now).Some?
    ensures r in Prune(rows, now) && KeyOf(r, now) == KeyOf(o, now) && r.ts >= o.ts
  {
    hide *;
    PruneKeepsNewest(rows, now);
    r :| r in Prune(rows, now) && KeyOf(r, now) == KeyOf(o, now) && r.ts >= o.ts;
  }

  /** No two rows share a bucket. */
  ghost predicate Apart(rows: seq<Row>, now: int) {
    forall i, j :: 0 <= i < j < |rows| ==> KeyOf(rows[i], now) != KeyOf(rows[j], now)
  }

  lemma ValuesApart(rows: seq<Row>, now: int)
    ensures Apart(Values(KeepAll(rows, now)), now)
  {
    hide OrderedDict.Valid, KeepAll, KeyOf;
    KeepsNewest(rows, now);
    DictKeys(KeepAll(rows, now));
  }

  lemma {:induction false} InsertApart(rows: seq<Row>, r: Row, now: int)
    requires Apart(rows, now) && forall x :: x in rows ==> KeyOf(x, now) != KeyOf(r, now)
    ensures Apart(Insert(rows, r), now)
  {
    hide KeyOf;
    if !(rows == [] || !Before(r, rows[|rows| - 1])) {
      var init, last := rows[..|rows| - 1], rows[|rows| - 1];
      InsertApart(init, r, now);
      InsertElems(init, r);
      assert forall i :: 0 <= i < |Insert(init, r)| ==> Insert(init, r)[i] in Insert(init, r);
      forall x | x in Insert(init, r) ensures KeyOf(x, now) != KeyOf(last, now) {
        if x in init { var i :| 0 <= i < |init| && init[i] == x; assert rows[i] == x; }
      }
    }
  }

  lemma {:induction false} SortedApart(rows: seq<Row>, now: int)
    requires Apart(rows, now)
    ensures Apart(Sorted(rows), now)
  {
    hide KeyOf;
    if rows != [] {
      var init := rows[..|rows| - 1];
      SortedApart(init, now);
      SortedElems(init);
      forall x | x in Sorted(init) ensures KeyOf(x, now) != KeyOf(rows[|rows| - 1], now) {
        var i :| 0 <= i < |init| && init[i] == x;
        assert rows[i] == x;
      }
      InsertApart(Sorted(init), rows[|rows| - 1], now);
    }
  }

  // ----- by the calendar ---------------------------------------------------

  /** An hour and a day of the calendar, in microseconds of UTC. */
  const ONE_HOUR := 3_600_000_000
  const ONE_DAY := 86_400_000_000

  predicate Aged(r: Row, now: int, over: int, upTo: int) { over * ONE_DAY < now - r.ts <= upTo * ONE_DAY }

  predicate SameOwner(a: Row, b: Row) { a.user == b.user && a.network == b.network }

  /** Of one user and network: one row an hour beyond 7 days, one a day beyond 30, none beyond 365. */
  ghost predicate Thinned(rows: seq<Row>, now: int) {
    && (forall i, j :: 0 <= i < j < |rows| && SameOwner(rows[i], rows[j]) ==>
          && (Aged(rows[i], now, 7, 30) && Aged(rows[j], now, 7, 30) ==> rows[i].ts / ONE_HOUR != rows[j].ts / ONE_HOUR)
          && (Aged(rows[i], now, 30, 365) && Aged(rows[j], now, 30, 365) ==>
              rows[i].ts / ONE_DAY != rows[j].ts / ONE_DAY))
    && (forall r :: r in rows ==> now - r.ts <= 365 * ONE_DAY)
  }

  lemma ApartIsThinned(rows: seq<Row>, now: int)
    requires Apart(rows, now) && forall r :: r in rows ==> KeyOf(r, now).Some?
    ensures Thinned(rows, now)
  {
    forall r | r in rows ensures now - r.ts <= 365 * ONE_DAY { assert KeyOf(r, now).Some?; }
    forall i, j | 0 <= i < j < |rows| && SameOwner(rows[i], rows[j])
      ensures Aged(rows[i], now, 7, 30) && Aged(rows[j], now, 7, 30) ==> rows[i].ts / ONE_HOUR != rows[j].ts / ONE_HOUR
      ensures Aged(rows[i], now, 30, 365) && Aged(rows[j], now, 30, 365) ==>
              rows[i].ts / ONE_DAY != rows[j].ts / ONE_DAY
    {
      assert KeyOf(rows[i], now) != KeyOf(rows[j], now);
    }
  }

  /** The newest row of o's hour, or day, of the same user and network, is there. */
  ghost predicate Represented(rows: seq<Row>, o: Row, span: int)
    requires span != 0
  {
    exists r :: r in rows && SameOwner(r, o) && r.ts / span == o.ts / span && r.ts >= o.ts
  }

  /** A prune keeps what the policy says, by the calendar: every sample of the last 7 days (of rows at
      distinct times), then one row an hour up to 30 days and one a day up to 365, and each older row
      is represented in its hour or day. */
  lemma RetentionPolicy(rows: seq<Row>, now: int)
    ensures Thinned(Prune(rows, now), now)
    ensures forall r :: r in rows && DistinctTimes(rows) && now - r.ts <= 7 * ONE_DAY ==> r in Prune(rows, now)
    ensures forall r :: r in rows && Aged(r, now, 7, 30) ==> Represented(Prune(rows, now), r, ONE_HOUR)
    ensures forall r :: r in rows && Aged(r, now, 30, 365) ==> Represented(Prune(rows, now), r, ONE_DAY)
  {
    hide Prune, Thinned, Represented, Aged, DistinctTimes;
    PrunedIsThinned(rows, now);
    forall o | o in rows
      ensures DistinctTimes(rows) && now - o.ts <= 7 * ONE_DAY ==> o in Prune(rows, now)
      ensures Aged(o, now, 7, 30) ==> Represented(Prune(rows, now), o, ONE_HOUR)
      ensures Aged(o, now, 30, 365) ==> Represented(Prune(rows, now), o, ONE_DAY)
    {
      RowIsRepresented(rows, o, now);
    }
  }

  lemma PrunedIsThinned(rows: seq<Row>, now: int)
    ensures Thinned(Prune(rows, now), now)
  {
    hide *;
    PruneKeepsNewest(rows, now);
    ApartIsThinned(Prune(rows, now), now);
  }

  lemma RowIsRepresented(rows: seq<Row>, o: Row, now: int)
    requires o in rows
    ensures DistinctTimes(rows) && now - o.ts <= 7 * ONE_DAY ==> o in Prune(rows, now)
    ensures Aged(o, now, 7, 30) ==> Represented(Prune(rows, now), o, ONE_HOUR)
    ensures Aged(o, now, 30, 365) ==> Represented(Prune(rows, now), o, ONE_DAY)
  {
    hide Prune, KeyOf, Represented;
    if now - o.ts <= 365 * ONE_DAY {
      YoungHasBucket(o, now);
      var r := SurvivorOf(rows, o, now);
      SubsetOf(rows, now);
      SurvivorRepresents(Prune(rows, now), o, r, now);
      if DistinctTimes(rows) && now - o.ts <= 7 * ONE_DAY { assert r in rows && r == o; }
    }
  }

  lemma SurvivorRepresents(rows: seq<Row>, o: Row, r: Row, now: int)
    requires r in rows && KeyOf(o, now).Some? && KeyOf(r, now) == KeyOf(o, now) && r.ts >= o.ts
    ensures SameOwner(r, o) && (now - o.ts <= 7 * ONE_DAY ==> r.ts == o.ts)
    ensures Aged(o, now, 7, 30) ==> Represented(rows, o, ONE_HOUR)
    ensures Aged(o, now, 30, 365) ==> Represented(rows, o, ONE_DAY)
  {
    if Aged(o, now, 7, 30) { assert r.ts / ONE_HOUR == o.ts / ONE_HOUR; }
    if Aged(o, now, 30, 365) { assert r.ts / ONE_DAY == o.ts / ONE_DAY; }
  }

  // ----- idempotence -------------------------------------------------------

  ghost predicate InOrder(rows: seq<Row>) {
    forall i, j :: 0 <= i < j < |rows| ==> !Before(rows[j], rows[i])
  }

  lemma {:induction false} InsertInOrder(rows: seq<Row>, r: Row)
    requires InOrder(rows)
    ensures InOrder(Insert(rows, r))
  {
    if !(rows == [] || !Before(r, rows[|rows| - 1])) {
      var init, last := rows[..|rows| - 1], rows[|rows| - 1];
      InsertInOrder(init, r);
      InsertElems(init, r);
      forall i | 0 <= i < |Insert(init, r)| ensures !Before(last, Insert(init, r)[i]) {
        assert Insert(init, r)[i] in Insert(init, r);
      }
    }
  }

  lemma {:induction false} SortedInOrder(rows: seq<Row>)
    ensures InOrder(Sorted(rows))
  {
    if rows != [] {
      SortedInOrder(rows[..|rows| - 1]);
      InsertInOrder(Sorted(rows[..|rows| - 1]), rows[|rows| - 1]);
    }
  }

  /** What a prune leaves is in order of user and, within a user, of time. */
  lemma PrunedByUserAndTime(rows: seq<Row>, now: int)
    ensures var p := Prune(rows, now);
            forall i, j :: 0 <= i < j < |p| ==>
              p[i].user < p[j].user || (p[i].user == p[j].user && p[i].ts <= p[j].ts)
  {
    hide Sorted, Values, KeepAll;
    SortedInOrder(Values(KeepAll(rows, now)));
  }

  lemma {:induction false} SortedFixed(rows: seq<Row>)
    requires InOrder(rows)
    ensures Sorted(rows) == rows
  {
    if rows != [] {
      var init, last := rows[..|rows| - 1], rows[|rows| - 1];
      SortedFixed(init);
      assert rows == init + [last];
      if init != [] { assert init[|init| - 1] == rows[|rows| - 2]; }
    }
  }

  /** Rows with a bucket each are all kept, in their order. */
  lemma {:induction false} KeepAllApart(rows: seq<Row>, now: int)
    requires Apart(rows, now) && forall r :: r in rows ==> KeyOf(r, now).Some?
    ensures Values(KeepAll(rows, now)) == rows
  {
    hide OrderedDict.Valid, OrderedDict.Put, KeyOf, Values, NewestPerBucket;
    if rows == [] {
      NoValues();
    } else {
      var init, last := rows[..|rows| - 1], rows[|rows| - 1];
      assert last in rows && forall r :: r in init ==> r in rows;
      KeepAllApart(init, now);
      LastIsNew(init, last, now);
      ValuesPut(KeepAll(init, now), KeyOf(last, now).value, last);
      assert rows == init + [last];
    }
  }

  lemma NoValues()
    ensures Values(Empty()) == []
  {
  }

  lemma LastIsNew(init: seq<Row>, last: Row, now: int)
    requires Apart(init + [last], now) && KeyOf(last, now).Some?
    ensures KeyOf(last, now).value !in KeepAll(init, now).at
  {
    hide OrderedDict.Valid, KeyOf, KeepAll;
    KeepsNewest(init, now);
    var all := init + [last];
    forall i | 0 <= i < |init| ensures KeyOf(init[i], now) != KeyOf(last, now) {
      assert all[i] == init[i] && all[|init|] == last;
    }
  }

  lemma ValuesPut(kept: Kept, k: Key, r: Row)
    requires k !in kept.at
    ensures Values(kept.Put(k, r)) == Values(kept) + [r]
  {
    DictKeys(kept);
  }

  /** Pruning twice at one time is pruning once, row for row. */
  lemma PruneIdempotent(rows: seq<Row>, now: int)
    ensures Prune(Prune(rows, now), now) == Prune(rows, now)
  {
    hide OrderedDict.Valid, KeepAll, Values, Sorted, KeyOf;
    var once := Prune(rows, now);
    PruneKeepsNewest(rows, now);
    KeepAllApart(once, now);
    SortedInOrder(Values(KeepAll(rows, now)));
    SortedFixed(once);
  }

  /** Pruning at two times is not pruning at the later one: while the 30-day line crosses an hour,
      a row dropped at the first time would have been a day's survivor at the second. */
  lemma PruneDoesNotCompose(a: Row, b: Row)
    requires a == Row(1, "mainnet", 0, "a") && b == Row(1, "mainnet", 1, "b")
    ensures Prune(Prune([a, b], 20 * DAY), 30 * DAY + 1) != Prune([a, b], 30 * DAY + 1)
  {
    hide Prune, KeyOf;
    var t1, t2 := 20 * DAY, 30 * DAY + 1;
    var once := Prune([a, b], t1);
    assert [a, b][0] == a && [a, b][1] == b && a in [a, b] && b in [a, b];
    StraddlingKeys(a, b);
    NewestOnly([a, b], a, b, t1);
    SubsetOf(once, t2);
    var s := SurvivorOf([a, b], a, t2);
    SubsetOf([a, b], t2);
    assert s == a;
  }

  // ----- pruning at two times ----------------------------------------------

  /** No two rows of one user and network share a timestamp. */
  ghost predicate DistinctTimes(rows: seq<Row>) {
    forall a, b :: a in rows && b in rows && a.user == b.user && a.network == b.network && a.ts == b.ts ==> a == b
  }

  /** r is a newest row of its bucket, which is one the policy keeps. */
  ghost predicate NewestOf(rows: seq<Row>, r: Row, now: int) {
    && r in rows && KeyOf(r, now).Some?
    && forall o :: o in rows && KeyOf(o, now) == KeyOf(r, now) ==> o.ts <= r.ts
  }

  /** Among rows with distinct timestamps the survivors of a prune are the newest of each bucket. */
  lemma SurvivesIff(rows: seq<Row>, r: Row, now: int)
    requires DistinctTimes(rows)
    ensures r in Prune(rows, now) <==> NewestOf(rows, r, now)
  {
    hide Prune, KeyOf, Apart;
    PruneKeepsNewest(rows, now);
    if NewestOf(rows, r, now) {
      var s := SurvivorOf(rows, r, now);
      SubsetOf(rows, now);
      SameKeySameOwner(r, s, now);
    }
  }

  ghost predicate SameRows(a: seq<Row>, b: seq<Row>) { forall r :: r in a <==> r in b }

  /** The first prune drops a, which the second one alone would have kept, in favour of b. */
  ghost predicate LostBetween(rows: seq<Row>, a: Row, b: Row, t1: int, t2: int) {
    a in rows && b in rows && KeyOf(a, t1) == KeyOf(b, t1) && a.ts < b.ts && NewestOf(rows, a, t2)
  }

  lemma KeptLater(r: Row, t1: int, t2: int)
    requires t1 <= t2 && KeyOf(r, t2).Some?
    ensures KeyOf(r, t1).Some?
  {
  }

  lemma LostIsLost(rows: seq<Row>, a: Row, b: Row, t1: int, t2: int)
    requires DistinctTimes(rows) && LostBetween(rows, a, b, t1, t2)
    ensures a in Prune(rows, t2) && a !in Prune(Prune(rows, t1), t2)
  {
    hide Prune, KeyOf, DistinctTimes;
    SurvivesIff(rows, a, t1);
    SurvivesIff(rows, a, t2);
    SubsetOf(Prune(rows, t1), t2);
  }

  /** What nobody loses in between is kept by both prunes or by neither. */
  lemma OthersAgree(rows: seq<Row>, r: Row, t1: int, t2: int)
    requires DistinctTimes(rows) && t1 <= t2 && forall a, b :: !LostBetween(rows, a, b, t1, t2)
    ensures r in Prune(Prune(rows, t1), t2) <==> r in Prune(rows, t2)
  {
    hide Prune, KeyOf;
    var once := Prune(rows, t1);
    SubsetOf(rows, t1);
    SurvivesIff(once, r, t2);
    SurvivesIff(rows, r, t2);
    if NewestOf(rows, r, t2) { NewestSurvivesFirst(rows, r, t1, t2); }
    if NewestOf(once, r, t2) {
      var s := SurvivorOf(rows, r, t2);
      SubsetOf(rows, t2);
      SurvivesIff(rows, s, t2);
      NewestSurvivesFirst(rows, s, t1, t2);
      SameKeySameOwner(r, s, t2);
    }
  }

  lemma SameKeySameOwner(r: Row, s: Row, now: int)
    requires KeyOf(r, now).Some? && KeyOf(r, now) == KeyOf(s, now)
    ensures r.user == s.user && r.network == s.network
  {
  }

  lemma NewestSurvivesFirst(rows: seq<Row>, r: Row, t1: int, t2: int)
    requires DistinctTimes(rows) && t1 <= t2 && NewestOf(rows, r, t2) && forall a, b :: !LostBetween(rows, a, b, t1, t2)
    ensures r in Prune(rows, t1)
  {
    hide Prune, KeyOf;
    KeptLater(r, t1, t2);
    SurvivesIff(rows, r, t1);
    forall b | b in rows && KeyOf(b, t1) == KeyOf(r, t1) ensures b.ts <= r.ts {
      assert !LostBetween(rows, r, b, t1, t2);
    }
  }

  /** Pruning at t1 and again at a later t2 keeps the same rows as pruning at t2 alone exactly when no
      row that is the newest of its bucket at t2 shares its bucket at t1 with a newer one. */
  lemma PrunesComposeIff(rows: seq<Row>, t1: int, t2: int)
    requires DistinctTimes(rows) && t1 <= t2
    ensures SameRows(Prune(Prune(rows, t1), t2), Prune(rows, t2))
            <==> forall a, b :: !LostBetween(rows, a, b, t1, t2)
  {
    hide Prune, KeyOf, DistinctTimes, LostBetween;
    if forall a, b :: !LostBetween(rows, a, b, t1, t2) {
      forall r ensures r in Prune(Prune(rows, t1), t2) <==> r in Prune(rows, t2) { OthersAgree(rows, r, t1, t2); }
    } else {
      var a, b :| LostBetween(rows, a, b, t1, t2);
      LostIsLost(rows, a, b, t1, t2);
    }
  }

  /** Only an hour kept as one bucket at t1 that the 30-day line of t2 cuts in two can lose a row. */
  lemma OnlyStraddlersLose(rows: seq<Row>, a: Row, b: Row, t1: int, t2: int)
    requires t1 <= t2 && LostBetween(rows, a, b, t1, t2)
    ensures a.ts / HOUR == b.ts / HOUR && a.ts < t2 - 30 * DAY <= b.ts && t1 - b.ts > 7 * DAY
  {
    var ka := BucketOf(a.ts, t1).value;
    if ka.Hourly? {
      HourWithinDay(a.ts, b.ts);
    }
  }

  /** So pruning composes whenever the later 30-day line falls on a full hour, and whenever no row is
      between 7 and 30 days old at t1. */
  lemma PrunesCompose(rows: seq<Row>, t1: int, t2: int)
    requires DistinctTimes(rows) && t1 <= t2
    requires (t2 - 30 * DAY) % HOUR == 0 || forall r :: r in rows ==> !(7 * DAY < t1 - r.ts <= 30 * DAY)
    ensures SameRows(Prune(Prune(rows, t1), t2), Prune(rows, t2))
  {
    hide Prune, KeyOf, DistinctTimes, LostBetween;
    forall a, b ensures !LostBetween(rows, a, b, t1, t2) {
      if LostBetween(rows, a, b, t1, t2) {
        OnlyStraddlersLose(rows, a, b, t1, t2);
        StraddlersAreHourly(rows, a, b, t1, t2);
        if (t2 - 30 * DAY) % HOUR == 0 { FullHourSplits(a.ts, b.ts, t2 - 30 * DAY); }
      }
    }
    PrunesComposeIff(rows, t1, t2);
  }

  lemma StraddlersAreHourly(rows: seq<Row>, a: Row, b: Row, t1: int, t2: int)
    requires t1 <= t2 && LostBetween(rows, a, b, t1, t2)
    ensures a in rows && 7 * DAY < t1 - a.ts <= 30 * DAY
  {
    OnlyStraddlersLose(rows, a, b, t1, t2);
  }

  lemma FullHourSplits(a: int, b: int, line: int)
    requires line % HOUR == 0 && a < line <= b
    ensures a / HOUR != b / HOUR
  {
    var h := line / HOUR;
    assert line == HOUR * h;
  }

  lemma StraddlingKeys(a: Row, b: Row)
    requires a == Row(1, "mainnet", 0, "a") && b == Row(1, "mainnet", 1, "b")
    ensures KeyOf(a, 20 * DAY) == KeyOf(b, 20 * DAY) && KeyOf(a, 20 * DAY).Some?
    ensures KeyOf(a, 30 * DAY + 1) == Some((1, "mainnet", Daily(0)))
    ensures KeyOf(b, 30 * DAY + 1) == Some((1, "mainnet", Hourly(0)))
  {
  }

  lemma NewestOnly(rows: seq<Row>, a: Row, b: Row, now: int)
    requires a in rows && b in rows && KeyOf(a, now) == KeyOf(b, now) && a.ts < b.ts
    ensures a !in Prune(rows, now)
  {
    hide *;
    PruneKeepsNewest(rows, now);
  }

  lemma SubsetOf(rows: seq<Row>, now: int)
    ensures forall r :: r in Prune(rows, now) ==> r in rows
  {
    hide *;
    PruneKeepsNewest(rows, now);
  }

  // ----- whole runs --------------------------------------------------------

  datatype Op = RecordOp(row: Row) | PruneOp(now: int)

  function Run(ops: seq<Op>): seq<Row> {
    if ops == [] then []
    else
      var rows := Run(ops[..|ops| - 1]);
      match ops[|ops| - 1]
      case RecordOp(r) => rows + [r]
      case PruneOp(now) => Prune(rows, now)
  }

  /** Some surviving row of the same user, network and calendar day is no older than r. */
  ghost predicate Covered(rows: seq<Row>, r: Row) {
    exists s :: s in rows && s.user == r.user && s.network == r.network && DayOf(s.ts) == DayOf(r.ts) && s.ts >= r.ts
  }

  lemma HourWithinDay(a: int, b: int)
    requires a / HOUR == b / HOUR
    ensures DayOf(a) == DayOf(b)
  {
    DayOfHour(a);
    DayOfHour(b);
  }

  lemma DayOfHour(ts: int)
    ensures DayOf(ts) == (ts / HOUR) / 24
  {
    var h, d := ts / HOUR, (ts / HOUR) / 24;
    assert ts == HOUR * h + ts % HOUR && h == 24 * d + h % 24;
    assert DAY * d <= ts < DAY * (d + 1);
  }

  lemma SameBucketSameDay(r: Row, s: Row, now: int)
    requires KeyOf(r, now).Some? && KeyOf(r, now) == KeyOf(s, now)
    ensures DayOf(r.ts) == DayOf(s.ts) && r.user == s.user && r.network == s.network
  {
    match KeyOf(r, now).value.2
    case Sample(_) =>
    case Hourly(_) => HourWithinDay(r.ts, s.ts);
    case Daily(_) =>
  }

  lemma PruneCovers(rows: seq<Row>, r: Row, now: int)
    requires Covered(rows, r) && now - r.ts <= 365 * DAY
    ensures Covered(Prune(rows, now), r)
  {
    hide Prune, DayOf, KeyOf;
    var s :| s in rows && s.user == r.user && s.network == r.network && DayOf(s.ts) == DayOf(r.ts) && s.ts >= r.ts;
    YoungHasBucket(s, now);
    var t := SurvivorOf(rows, s, now);
    SameBucketSameDay(s, t, now);
  }

  lemma YoungHasBucket(s: Row, now: int)
    ensures KeyOf(s, now).Some? <==> now - s.ts <= 365 * DAY
  {
  }

  /** After any mix of records and prunes at times up to `now`, every row ever recorded that is at
      most 365 days old is covered. */
  lemma {:induction false} RetentionCovers(ops: seq<Op>, r: Row, now: int)
    requires RecordOp(r) in ops && now - r.ts <= 365 * DAY
    requires forall i :: 0 <= i < |ops| && ops[i].PruneOp? ==> ops[i].now <= now
    ensures Covered(Run(ops), r)
  {
    hide DayOf, Prune;
    var init, last := ops[..|ops| - 1], ops[|ops| - 1];
    if last == RecordOp(r) {
      assert Run(ops)[|Run(ops)| - 1] == r;
    } else {
      RetentionCovers(init, r, now);
      if last.PruneOp? {
        PruneCovers(Run(init), r, last.now);
      } else {
        assert forall s :: s in Run(init) ==> s in Run(ops);
      }
    }
  }
}
