/** The relay's event log and its cursor: what a client that keeps its cursor is handed. */
module EventStore {
  import opened OrderedDicts
  import opened Text

  datatype Status = Active | Expired | Closed | Failed

  datatype Session = Session(status: Status, updatedAt: real, lastPolledAt: real)

  type Bytes = seq<bv8>

  /** A stored event; `options` is the JSON list, `sourceMessageId` absent for 0. */
  datatype Row = Row(session: string, text: string, options: Option<seq<string>>, sourceMessageId: Option<int>,
                     photo: Option<Bytes>, mime: Option<string>, createdAt: real)

  /** A photo travels with its type; its bytes are base64 on the wire. */
  datatype Photo = Photo(bytes: Bytes, mime: string)

  datatype Item = Item(id: nat, session: string, text: string, options: Option<seq<string>>,
                       sourceMessageId: Option<int>,
                       photo: Option<Photo>, createdAt: real)

  // ----- strings and numbers -----------------------------------------------

  function NonBlank(options: seq<string>): seq<string> {
    if options == [] then []
    else NonBlank(options[..|options| - 1])
         + (if Blank(options[|options| - 1]) then [] else [options[|options| - 1]])
  }

  /** str(n). */
  function Str(n: nat): (s: string)
    ensures s != [] && forall i :: 0 <= i < |s| ==> '0' <= s[i] <= '9'
  {
    if n < 10 then [(n + '0' as int) as char] else Str(n / 10) + [(n % 10 + '0' as int) as char]
  }

  predicate IsDigit(c: char) { '0' <= c <= '9' }

  /** Digits, with single underscores allowed between them. */
  function Digits(s: string): Option<nat> {
    if s == [] || !IsDigit(s[|s| - 1]) then None
    else
      var d, rest := (s[|s| - 1] as int - '0' as int) as nat, s[..|s| - 1];
      if rest == [] then Some(d)
      else
        var high := Digits(if rest[|rest| - 1] == '_' then rest[..|rest| - 1] else rest);
        if high.Some? then Some(10 * high.value + d) else None
  }

  /** int(s) on ASCII text; None is a ValueError. */
  function Int(s: string): Option<int> {
    var t := Strip(s);
    var signed := t != [] && t[0] in "+-";
    var n := Digits(if signed then t[1..] else t);
    if n.None? then None else Some((if signed && t[0] == '-' then -1 else 1) * n.value)
  }

  /** Where a poll with this cursor starts. */
  function AfterCursor(cursor: Option<string>): int {
    if cursor.None? || cursor.value == "" || Int(cursor.value).None? then 0 else Int(cursor.value).value
  }

  lemma {:induction false} DigitsOfStr(n: nat)
    ensures Digits(Str(n)) == Some(n)
  {
    if n >= 10 {
      DigitsOfStr(n / 10);
      var s := Str(n);
      assert s[..|s| - 1] == Str(n / 10);
    }
  }

  lemma {:induction false} DigitsOnly(s: string)
    requires Digits(s).Some?
    ensures forall i :: 0 <= i < |s| ==> IsDigit(s[i]) || s[i] == '_'
    decreases |s|
  {
    var rest := s[..|s| - 1];
    if rest != [] { DigitsOnly(if rest[|rest| - 1] == '_' then rest[..|rest| - 1] else rest); }
  }

  /** Without a cursor, or with one that holds anything but digits, signs, underscores and space, a poll
      starts at the beginning; a signed one is read with its sign. */
  lemma OtherCursors(s: string, n: nat)
    ensures AfterCursor(None) == 0 && AfterCursor(Some("")) == 0
    ensures (exists i :: 0 <= i < |s| && !IsDigit(s[i]) && !Space(s[i]) && s[i] !in "+-_") ==> AfterCursor(Some(s)) == 0
    ensures AfterCursor(Some("-" + Str(n))) == -(n as int) && AfterCursor(Some("+" + Str(n))) == n
  {
    hide Str, Digits, Space;
    DigitsOfStr(n);
    NoSpaceInNumbers(n);
    assert ("-" + Str(n))[1..] == Str(n) && ("+" + Str(n))[1..] == Str(n);
    if Int(s).Some? { IntCharacters(s); }
  }

  lemma NoSpaceInNumbers(n: nat)
    ensures !Space('-') && !Space('+') && !Space(Str(n)[0]) && !Space(Str(n)[|Str(n)| - 1])
  {
    hide Str;
  }

  lemma IntCharacters(s: string)
    requires Int(s).Some?
    ensures forall i :: 0 <= i < |s| ==> IsDigit(s[i]) || Space(s[i]) || s[i] in "+-_"
  {
    hide Digits, Space, Strip, IsDigit;
    var a, b := StripSplits(s);
    var t := Strip(s);
    var signed := t != [] && t[0] in "+-";
    var u := if signed then t[1..] else t;
    DigitsOnly(u);
    assert s == s[..a] + t + s[b..];
    assert t == (if signed then [t[0]] else []) + u;
  }

  /** The cursor handed out is read back as the id it came from. */
  lemma CursorRoundTrip(n: nat)
    ensures AfterCursor(Some(Str(n))) == n
  {
    hide Str, Digits;
    DigitsOfStr(n);
    assert !Space(Str(n)[0]) && !Space(Str(n)[|Str(n)| - 1]);
  }

  // ----- the store ---------------------------------------------------------

  function StoredRow(session: string, text: Option<string>, options: Option<seq<string>>, messageId: Option<int>,
                     photo: Option<Bytes>, mime: Option<string>, now: real): Row {
    Row(session, if text.Some? then text.value else "",
        if options.Some? && options.value != [] then Some(NonBlank(options.value)) else None,
        if messageId == Some(0) then None else messageId, photo, mime, now)
  }

  function Delivered(id: nat, row: Row): Item {
    var options := if row.options.None? then [] else NonBlank(row.options.value);
    Item(id, row.session, row.text, if options == [] then None else Some(options),
         if row.sourceMessageId == Some(0) then None else row.sourceMessageId,
         if row.photo.None? || row.photo.value == [] then None
         else Some(Photo(row.photo.value,
                         if row.mime.None? || row.mime.value == "" then "image/jpeg" else row.mime.value)),
         row.createdAt)
  }

  ghost predicate Increasing(s: seq<nat>) { forall i, j :: 0 <= i < j < |s| ==> s[i] < s[j] }

  /** The visible ids of a session in (after, top], ascending. */
  function Ids(visible: map<nat, Row>, session: string, after: int, top: nat): seq<nat>
    decreases top
  {
    if top == 0 || top <= after then []
    else Ids(visible, session, after, top - 1)
         + (if top in visible && visible[top].session == session then [top] else [])
  }

  function Take(s: seq<nat>, n: nat): seq<nat> { if |s| <= n then s else s[..n] }

  /** SELECT ... WHERE session AND cursor_id > after ORDER BY cursor_id LIMIT limit; ids start at 1. */
  function Query(visible: map<nat, Row>, session: string, after: int, top: nat, limit: nat): seq<nat> {
    Take(Ids(visible, session, if after < 0 then 0 else after, top), limit)
  }

  lemma {:induction false} IdsFacts(visible: map<nat, Row>, session: string, after: int, top: nat)
    requires after >= 0
    ensures var r := Ids(visible, session, after, top);
            && (forall id :: id in r <==> after < id <= top && id in visible && visible[id].session == session)
            && Increasing(r)
    decreases top
  {
    if top > 0 && top > after {
      IdsFacts(visible, session, after, top - 1);
      var r := Ids(visible, session, after, top - 1);
      assert forall i :: 0 <= i < |r| ==> r[i] in r;
    }
  }

  class RelayStore {
    var visible: map<nat, Row>
    var sessions: map<string, Session>
    var top: nat

    ghost predicate Valid() reads this { forall id :: id in visible ==> 1 <= id <= top }

    constructor ()
      ensures Valid() && visible == map[] && sessions == map[] && top == 0
    {
      visible, sessions, top := map[], map[], 0;
    }

    method StoreEvent(session: string, text: Option<string>, options: Option<seq<string>>, messageId: Option<int>,
                      photo: Option<Bytes>, mime: Option<string>, now: real)
      returns (id: Option<nat>)
      requires Valid()
      modifies this
      ensures Valid()
      ensures id.Some? <==> session in old(sessions) && old(sessions)[session].status.Active?
      ensures id.None? ==> visible == old(visible) && sessions == old(sessions) && top == old(top)
      ensures id.Some? ==>
        && id.value == top == old(top) + 1
        && visible == old(visible)[id.value := StoredRow(session, text, options, messageId, photo, mime, now)]
        && sessions == old(sessions)[session := old(sessions)[session].(updatedAt := now)]
    {
      if session !in sessions || !sessions[session].status.Active? { return None; }
      var stored: Option<seq<string>> := None;
      if options.Some? && options.value != [] {
        var kept: seq<string> := [];
        for i := 0 to |options.value|
          invariant kept == NonBlank(options.value[..i])
        {
          assert options.value[..i + 1][..i] == options.value[..i];
          if !Blank(options.value[i]) { kept := kept + [options.value[i]]; }
        }
        assert options.value[..|options.value|] == options.value;
        stored := Some(kept);
      }
      top := top + 1;
      visible := visible[top := Row(session, if text.Some? then text.value else "", stored,
                                    if messageId == Some(0) then None else messageId, photo, mime, now)];
      sessions := sessions[session := sessions[session].(updatedAt := now)];
      return Some(top);
    }

    method PollEvents(session: string, cursor: Option<string>, limit: nat, now: real)
      returns (events: seq<Item>, next: Option<string>, status: Option<Status>)
      requires Valid()
      modifies this`sessions
      ensures var ids := Query(visible, session, AfterCursor(cursor), top, limit);
              && (session in old(sessions) ==>
                    && |events| == |ids|
                    && (forall i :: 0 <= i < |ids| ==>
                          ids[i] in visible && events[i] == Delivered(ids[i], visible[ids[i]]))
                    && next == if ids == [] then None else Some(Str(ids[|ids| - 1])))
              && (session !in old(sessions) ==> events == [] && next == None && status == None)
      ensures session in old(sessions) ==>
                && status == Some(old(sessions)[session].status)
                && sessions == old(sessions)[session := old(sessions)[session].(lastPolledAt := now)]
    {
      var after := AfterCursor(cursor);
      events, next, status := [], None, None;
      if session !in sessions { return; }
      var ids := Query(visible, session, after, top, limit);
      QueryVisible(visible, session, after, top, limit);
      sessions := sessions[session := sessions[session].(lastPolledAt := now)];
      status := Some(sessions[session].status);
      events, next := Batch(visible, ids);
    }
  }

  /** The loop over the fetched rows. */
  method Batch(visible: map<nat, Row>, ids: seq<nat>) returns (events: seq<Item>, next: Option<string>)
    requires forall i :: 0 <= i < |ids| ==> ids[i] in visible
    ensures |events| == |ids| && forall i :: 0 <= i < |ids| ==> events[i] == Delivered(ids[i], visible[ids[i]])
    ensures next == if ids == [] then None else Some(Str(ids[|ids| - 1]))
  {
    events, next := [], None;
    for i := 0 to |ids|
      invariant |events| == i
      invariant forall j :: 0 <= j < i ==> events[j] == Delivered(ids[j], visible[ids[j]])
      invariant next == if i == 0 then None else Some(Str(ids[i - 1]))
    {
      events := events + [Delivered(ids[i], visible[ids[i]])];
      next := Some(Str(ids[i]));
    }
  }

  /** A negative cursor is no different from none. */
  lemma NegativeStartsOver(visible: map<nat, Row>, session: string, after: int, top: nat, limit: nat)
    requires after <= 0
    ensures Query(visible, session, after, top, limit) == Query(visible, session, 0, top, limit)
  {
  }

  lemma QueryVisible(visible: map<nat, Row>, session: string, after: int, top: nat, limit: nat)
    ensures forall i :: 0 <= i < |Query(visible, session, after, top, limit)| ==>
            Query(visible, session, after, top, limit)[i] in visible
  {
    var from := if after < 0 then 0 else after;
    IdsFacts(visible, session, from, top);
    var ids, all := Query(visible, session, after, top, limit), Ids(visible, session, from, top);
    forall i | 0 <= i < |ids| ensures ids[i] in visible { assert ids[i] == all[i] && all[i] in all; }
  }

  lemma {:induction false} NoneBlank(options: seq<string>)
    ensures forall i :: 0 <= i < |NonBlank(options)| ==> !Blank(NonBlank(options)[i])
  {
    hide Blank;
    if options != [] { NoneBlank(options[..|options| - 1]); }
  }

  /** Of the options exactly those with a character that is no space are kept, in their order. */
  lemma {:induction false} NonBlankKeeps(a: seq<string>, b: seq<string>, option: string)
    ensures NonBlank([option]) == if exists i :: 0 <= i < |option| && !Space(option[i]) then [option] else []
    ensures NonBlank(a + b) == NonBlank(a) + NonBlank(b)
    decreases |b|
  {
    hide Space;
    assert [option][..0] == [] && NonBlank([]) == [];
    if b == [] {
      assert a + b == a;
    } else {
      assert (a + b)[..|a + b| - 1] == a + b[..|b| - 1];
      NonBlankKeeps(a, b[..|b| - 1], option);
    }
  }

  lemma {:induction false} NonBlankIdempotent(s: seq<string>)
    ensures NonBlank(NonBlank(s)) == NonBlank(s)
  {
    hide Blank;
    if s != [] {
      var init, last := NonBlank(s[..|s| - 1]), s[|s| - 1];
      NonBlankIdempotent(s[..|s| - 1]);
      if Blank(last) {
        assert init + [] == init;
      } else {
        assert (init + [last])[..|init|] == init;
      }
    }
  }

  /** What was stored is what is delivered: the text, the options that are not blank (none at all
      when every one is), the source message unless it was 0, and the photo, if it has any bytes, as a
      JPEG unless typed otherwise. */
  lemma ContentRoundTrip(id: nat, session: string, text: Option<string>, options: Option<seq<string>>,
                         messageId: Option<int>,
                         photo: Option<Bytes>, mime: Option<string>, now: real)
    ensures var item := Delivered(id, StoredRow(session, text, options, messageId, photo, mime, now));
            && item.id == id && item.session == session && item.createdAt == now
            && item.text == (match text case Some(t) => t case None => "")
            && item.options == (if options.Some? && NonBlank(options.value) != []
                                then Some(NonBlank(options.value)) else None)
            && item.sourceMessageId == (if messageId == Some(0) then None else messageId)
            && (item.photo.Some? <==> photo.Some? && photo.value != [])
            && (item.photo.Some? ==> item.photo.value.bytes == photo.value
                                     && item.photo.value.mime ==
                                        if mime.Some? && mime.value != "" then mime.value else "image/jpeg")
    ensures var row := StoredRow(session, text, options, messageId, photo, mime, now);
            && row.sourceMessageId != Some(0) && (options == Some([]) ==> row.options == None)
            && (row.options.Some? ==> forall i :: 0 <= i < |row.options.value| ==> !Blank(row.options.value[i]))
  {
    if options.Some? {
      NonBlankIdempotent(options.value);
      NoneBlank(options.value);
    }
  }
}

/** One client of one session, polling while events become visible in any order. */
module EventStoreRuns {
  import opened OrderedDicts
  import opened EventStore

  /** An insert takes its id (Insert) and becomes visible when it commits. */
  datatype Op = Insert(row: Row) | Commit(id: nat) | Poll(limit: nat)

  /** `cursor` is what the client keeps, `got` the ids it was handed, in order; `late` the ids of the
      session that became visible when the client had already moved past them. */
  datatype Run = Run(visible: map<nat, Row>, pending: map<nat, Row>, top: nat,
                     cursor: Option<string>, got: seq<nat>, late: set<nat>)

  const START := Run(map[], map[], 0, None, [], {})

  predicate Enabled(r: Run, op: Op) { op.Commit? ==> op.id in r.pending }

  function Next(session: string, r: Run, op: Op): Run
    requires Enabled(r, op)
  {
    match op
    case Insert(row) => r.(top := r.top + 1, pending := r.pending[r.top + 1 := row])
    case Commit(id) =>
      r.(visible := r.visible[id := r.pending[id]], pending := r.pending - {id},
         late := if r.pending[id].session == session && id <= AfterCursor(r.cursor) then r.late + {id} else r.late)
    case Poll(limit) =>
      var ids := Query(r.visible, session, AfterCursor(r.cursor), r.top, limit);
      r.(got := r.got + ids, cursor := if ids == [] then r.cursor else Some(Str(ids[|ids| - 1])))
  }

  ghost predicate Possible(session: string, ops: seq<Op>)
    decreases |ops|, 0
  {
    ops == [] || (Possible(session, ops[..|ops| - 1]) && Enabled(After(session, ops[..|ops| - 1]), ops[|ops| - 1]))
  }

  function After(session: string, ops: seq<Op>): Run
    requires Possible(session, ops)
    decreases |ops|, 1
  {
    if ops == [] then START else Next(session, After(session, ops[..|ops| - 1]), ops[|ops| - 1])
  }

  predicate Mine(r: Run, session: string, id: nat) { id in r.visible && r.visible[id].session == session }

  ghost predicate Accounted(session: string, r: Run) {
    var at := AfterCursor(r.cursor);
    && at == LastOr(r.got, 0)
    && Increasing(r.got)
    && (forall id :: id in r.visible || id in r.pending ==> 1 <= id <= r.top)
    && (forall id :: id in r.visible ==> id !in r.pending)
    && (forall id: nat :: id in r.got <==> Mine(r, session, id) && id <= at && id !in r.late)
    && (forall id :: id in r.late ==> Mine(r, session, id) && id <= at)
  }

  function LastOr(s: seq<nat>, default: int): int { if s == [] then default else s[|s| - 1] }

  /** A cut of an increasing sequence holds exactly the elements up to its last. */
  lemma TakeFacts(all: seq<nat>, n: nat)
    requires Increasing(all)
    ensures forall id :: id in Take(all, n) <==> id in all && Take(all, n) != [] && id <= LastOr(Take(all, n), 0)
    ensures n >= 1 && Take(all, n) == [] ==> all == []
    ensures |Take(all, n)| <= n && (|Take(all, n)| < n ==> Take(all, n) == all)
  {
    var r := Take(all, n);
    if r != [] {
      forall id | id in all ensures id in r <==> id <= r[|r| - 1] {
        var i :| 0 <= i < |all| && all[i] == id;
        if i < |r| { assert r[i] == id; } else { assert all[|r| - 1] < all[i]; }
      }
    }
  }

  lemma QueryFacts(visible: map<nat, Row>, session: string, after: nat, top: nat, limit: nat)
    requires forall id :: id in visible ==> id <= top
    ensures var r := Query(visible, session, after, top, limit);
            && Increasing(r)
            && (forall id :: id in r <==>
                  after < id <= LastOr(r, after) && id in visible && visible[id].session == session)
            && |r| <= limit
            && (|r| < limit ==> forall id :: id in visible && id > after && visible[id].session == session ==> id in r)
            && (limit >= 1 && r == [] ==> forall id :: id in visible && visible[id].session == session ==> id <= after)
  {
    hide Take, Ids;
    IdsFacts(visible, session, after, top);
    var all := Ids(visible, session, after, top);
    TakeFacts(all, limit);
    TakeIncreases(all, limit);
    var r := Take(all, limit);
    if r != [] { assert r[|r| - 1] in r; }
  }

  lemma TakeIncreases(all: seq<nat>, n: nat)
    requires Increasing(all)
    ensures Increasing(Take(all, n))
  {
  }

  lemma PollAccounted(session: string, r: Run, limit: nat)
    requires Accounted(session, r)
    ensures Accounted(session, Next(session, r, Poll(limit)))
    ensures limit >= 1 && Next(session, r, Poll(limit)).got == r.got ==>
              forall id: nat :: Mine(r, session, id) ==> id <= AfterCursor(r.cursor)
  {
    hide AfterCursor, Query;
    var at := AfterCursor(r.cursor);
    var ids := Query(r.visible, session, at, r.top, limit);
    QueryFacts(r.visible, session, at, r.top, limit);
    var r' := Next(session, r, Poll(limit));
    if ids == [] {
      assert r.got + ids == r.got;
    } else {
      CursorRoundTrip(ids[|ids| - 1]);
      assert forall id :: id in r'.got <==> id in r.got || id in ids;
      forall i, j | 0 <= i < j < |r'.got| ensures r'.got[i] < r'.got[j] {
        if i < |r.got| <= j { assert r.got[i] in r.got && ids[j - |r.got|] in ids; }
      }
      assert ids[0] in ids && ids[|ids| - 1] in ids;
    }
  }

  lemma CommitAccounted(session: string, r: Run, id: nat)
    requires Accounted(session, r) && id in r.pending
    ensures Accounted(session, Next(session, r, Commit(id)))
  {
    hide AfterCursor, LastOr;
  }

  lemma InsertAccounted(session: string, r: Run, row: Row)
    requires Accounted(session, r)
    ensures Accounted(session, Next(session, r, Insert(row)))
  {
    hide AfterCursor, LastOr;
  }

  lemma {:induction false} RunAccounted(session: string, ops: seq<Op>)
    requires Possible(session, ops)
    ensures Accounted(session, After(session, ops))
  {
    hide Accounted, Next;
    if ops == [] {
      StartAccounted(session);
    } else {
      var r, op := After(session, ops[..|ops| - 1]), ops[|ops| - 1];
      RunAccounted(session, ops[..|ops| - 1]);
      match op {
        case Insert(row) => InsertAccounted(session, r, row);
        case Commit(id) => CommitAccounted(session, r, id);
        case Poll(limit) => PollAccounted(session, r, limit);
      }
    }
  }

  lemma StartAccounted(session: string)
    ensures Accounted(session, START)
  {
  }

  /** The session's log so far. */
  function Log(r: Run, session: string): seq<nat> { Ids(r.visible, session, 0, r.top) }

  /** Whatever the order in which events become visible and whatever the limits, the client is handed
      increasing ids, so none twice, and misses of what it has moved past exactly the late ones; and
      once a poll with a limit of at least 1 comes back empty it has everything else. */
  lemma DeliveredExactlyOnce(session: string, ops: seq<Op>, limit: nat)
    requires Possible(session, ops) && limit >= 1
    ensures var r := After(session, ops);
            && Increasing(r.got)
            && (forall id: nat :: Mine(r, session, id) && id <= AfterCursor(r.cursor) ==>
                (id in r.got <==> id !in r.late))
            && (forall id :: id in r.got ==> Mine(r, session, id))
            && (Query(r.visible, session, AfterCursor(r.cursor), r.top, limit) == [] ==>
                  forall id: nat :: Mine(r, session, id) && id !in r.late ==> id in r.got)
  {
    hide AfterCursor, Query;
    RunAccounted(session, ops);
    var r := After(session, ops);
    PollAccounted(session, r, limit);
    assert r.got + [] == r.got;
  }

  ghost predicate AboveMine(r: Run, session: string, id: nat) { forall k: nat :: Mine(r, session, k) ==> k < id }

  /** The session's events become visible in id order. */
  ghost predicate InIdOrder(session: string, ops: seq<Op>)
    requires Possible(session, ops)
  {
    ops == [] ||
    var r, op := After(session, ops[..|ops| - 1]), ops[|ops| - 1];
    && InIdOrder(session, ops[..|ops| - 1])
    && (op.Commit? && r.pending[op.id].session == session ==> AboveMine(r, session, op.id))
  }

  lemma {:induction false} InOrderNeverLate(session: string, ops: seq<Op>)
    requires Possible(session, ops) && InIdOrder(session, ops)
    ensures After(session, ops).late == {}
  {
    hide AfterCursor, Query;
    if ops != [] {
      var init, op := ops[..|ops| - 1], ops[|ops| - 1];
      InOrderNeverLate(session, init);
      RunAccounted(session, init);
      var r := After(session, init);
      if op.Commit? && r.got != [] { assert r.got[|r.got| - 1] in r.got; }
      if op.Commit? { assert 1 <= op.id; }
    }
  }

  /** When events become visible in id order, what the client was handed is always a prefix of the
      session's log, and all of it once a poll comes back empty. */
  lemma DeliveredIsPrefix(session: string, ops: seq<Op>, limit: nat)
    requires Possible(session, ops) && InIdOrder(session, ops) && limit >= 1
    ensures var r := After(session, ops);
            && r.got <= Log(r, session)
            && (Query(r.visible, session, AfterCursor(r.cursor), r.top, limit) == [] ==> r.got == Log(r, session))
  {
    hide AfterCursor, Query, Ids;
    var r := After(session, ops);
    RunAccounted(session, ops);
    InOrderNeverLate(session, ops);
    DeliveredExactlyOnce(session, ops, limit);
    IdsFacts(r.visible, session, 0, r.top);
    var log := Log(r, session);
    IncreasingPrefix(r.got, log);
    if Query(r.visible, session, AfterCursor(r.cursor), r.top, limit) == [] {
      forall x | x in log ensures x <= log[|log| - 1] { var i :| 0 <= i < |log| && log[i] == x; }
      IncreasingPrefix(log, r.got);
    }
  }

  /** Two increasing sequences, one with all the elements of the other up to its last. */
  lemma {:induction false} IncreasingPrefix(a: seq<nat>, b: seq<nat>)
    requires Increasing(a)
    requires Increasing(b)
    requires forall x :: x in a <==> x in b && a != [] && x <= a[|a| - 1]
    ensures a <= b
  {
    if a != [] {
      assert a[0] in b;
      assert b[0] in b && b[0] <= a[0];
      assert a[0] == b[0];
      if |a| > 1 {
        forall x ensures x in a[1..] <==> x in b[1..] && x <= a[|a| - 1] {
          assert x in a[1..] <==> x in a && x != a[0];
          assert x in b[1..] <==> x in b && x != b[0];
        }
        IncreasingPrefix(a[1..], b[1..]);
      }
      assert a == [a[0]] + a[1..] && b == [b[0]] + b[1..];
    }
  }

  /** Out of id order an event can be passed over for good: two inserts commit the wrong way round
      with a poll in between, and the first is never handed out. */
  lemma LateCommitIsMissed(a: Row, b: Row, limit: nat)
    requires a.session == b.session && limit >= 1
    ensures var s := a.session;
            var polled := Next(s, Next(s, Next(s, Next(s, START, Insert(a)), Insert(b)), Commit(2)), Poll(limit));
            var late := Next(s, polled, Commit(1));
            && polled.got == [2] && Mine(late, s, 1)
            && Query(late.visible, s, AfterCursor(late.cursor), late.top, limit) == []
  {
    var s := a.session;
    var r := Next(s, Next(s, Next(s, START, Insert(a)), Insert(b)), Commit(2));
    assert Ids(r.visible, s, 0, 2) == [2] by { assert Ids(r.visible, s, 0, 1) == []; }
    CursorRoundTrip(2);
  }
}
