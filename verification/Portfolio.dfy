/** Per-controller PnL aggregated from a user's holds. */
module Portfolio {
  import opened OrderedDicts
  import opened Inventory
  import Balances

  datatype ControllerPnl = ControllerPnl(realized: real, unrealized: real, fees: real, net: real, openExecutors: int)

  type Marks = map<string, real>
  type PerController = Dict<string, ControllerPnl>

  const ZERO := ControllerPnl(0.0, 0.0, 0.0, 0.0, 0)

  function PnlAt(d: PerController, c: string): ControllerPnl { if c in d.at then d.at[c] else ZERO }

  /** One hold added to its controller's figures; an unmarked pair has no unrealized PnL. */
  function Absorb(agg: ControllerPnl, h: Hold, marks: Marks): ControllerPnl {
    agg.(realized := agg.realized + h.RealizedPnl(),
         fees := agg.fees + h.fees,
         unrealized := if h.pair in marks then agg.unrealized + h.UnrealizedPnl(marks[h.pair]) else agg.unrealized)
  }

  function Aggregate(holds: seq<Hold>, marks: Marks): PerController {
    if holds == [] then Empty()
    else
      var n := |holds| - 1;
      var d := Aggregate(holds[..n], marks);
      d.Put(holds[n].controller, Absorb(PnlAt(d, holds[n].controller), holds[n], marks))
  }

  function Netted(p: ControllerPnl, open: int): ControllerPnl {
    p.(net := p.realized - p.fees + p.unrealized, openExecutors := open)
  }

  function Closed(agg: PerController, openCount: string -> int): map<string, ControllerPnl> {
    map c | c in agg.at :: Netted(agg.at[c], openCount(c))
  }

  /** Portfolio.state for one user, from what the account provider says of balances and marks. */
  method State(repo: InventoryRepository, user: int, accounts: Balances.Accounts, marks: Marks,
               openCount: string -> int)
    returns (totalValue: real, perController: PerController)
    ensures totalValue == Balances.TotalValue(accounts)
    ensures perController.order == Aggregate(UserHolds(repo.holds, user), marks).order
    ensures perController.at == Closed(Aggregate(UserHolds(repo.holds, user), marks), openCount)
  {
    hide OrderedDict.Valid, UserHolds, Aggregate, Closed;
    totalValue := Balances.TotalValue(accounts);
    var holds := repo.ListForUser(user);
    perController := AggregateAll(holds, marks);
    perController := NetAll(perController, openCount);
  }

  /** Its first loop: every hold added to its controller's entry. */
  method AggregateAll(holds: seq<Hold>, marks: Marks) returns (perController: PerController)
    ensures perController == Aggregate(holds, marks)
  {
    hide OrderedDict.Valid, OrderedDict.Put, Hold.RealizedPnl, Hold.UnrealizedPnl;
    perController := Empty();
    for i := 0 to |holds|
      invariant perController == Aggregate(holds[..i], marks)
    {
      assert holds[..i + 1][..i] == holds[..i];
      var h := holds[i];
      var agg := if h.controller in perController.at then perController.at[h.controller] else ZERO;
      agg := agg.(realized := agg.realized + h.RealizedPnl(), fees := agg.fees + h.fees);
      if h.pair in marks { agg := agg.(unrealized := agg.unrealized + h.UnrealizedPnl(marks[h.pair])); }
      perController := perController.Put(h.controller, agg);
    }
    assert holds[..|holds|] == holds;
  }

  /** Its closing loop, over the aggregated controllers. */
  method NetAll(agg: PerController, openCount: string -> int) returns (r: PerController)
    ensures r.order == agg.order
    ensures r.at == Closed(agg, openCount)
  {
    hide OrderedDict.Valid;
    r := agg;
    DictKeys(agg);
    for i := 0 to |agg.order|
      invariant r.order == agg.order && r.at.Keys == agg.at.Keys
      invariant forall j :: 0 <= j < i ==> r.at[agg.order[j]] == Netted(agg.at[agg.order[j]], openCount(agg.order[j]))
      invariant forall j :: i <= j < |agg.order| ==> r.at[agg.order[j]] == agg.at[agg.order[j]]
    {
      var c := agg.order[i];
      var p := r.at[c];
      r := r.Put(c, p.(net := p.realized - p.fees + p.unrealized, openExecutors := openCount(c)));
    }
    forall c | c in agg.at ensures r.at[c] == Netted(agg.at[c], openCount(c)) {
      assert agg.order[IndexOf(agg.order, c)] == c;
    }
  }
}

/** Conservation: the PnL the portfolio reports is exactly the cash value of the fills behind it. */
module PnlConservation {
  import opened OrderedDicts
  import opened DictSums
  import opened Inventory
  import opened Portfolio

  datatype Op = FillOp(fill: FillRequest) | GetOp(key: HoldKey) | ClearOp(controller: string)

  function Step(holds: Holds, op: Op): Holds {
    match op
    case FillOp(f) => ApplyFill(holds, f)
    case GetOp(k) => Get(holds, k)
    case ClearOp(c) => Clear(holds, c)
  }

  function Run(ops: seq<Op>): Holds {
    if ops == [] then Empty() else Step(Run(ops[..|ops| - 1]), ops[|ops| - 1])
  }

  /** A fill's cash flow plus its base at `mark`, less its fee. */
  function Worth(f: FillRequest, mark: real): real
    requires f.Accepted()
  {
    (match f.side
     case Buy => f.base.v * mark - f.quote.v
     case Sell => f.quote.v - f.base.v * mark) - f.fee.v
  }

  /** A user's holds: all of them, or one controller's. */
  datatype Scope = Scope(user: int, controller: Option<string>) {
    predicate Has(u: int, c: string) { u == user && (controller.None? || controller.value == c) }
  }

  function MarkAt(marks: Marks, pair: string): real { if pair in marks then marks[pair] else 0.0 }

  /** The i-th operation is an accepted fill in scope and no later clear of its controller drops it. */
  ghost predicate Standing(ops: seq<Op>, i: nat, s: Scope)
    requires i < |ops|
  {
    && ops[i].FillOp? && ops[i].fill.Accepted() && s.Has(ops[i].fill.user, ops[i].fill.controller)
    && forall j :: i < j < |ops| ==> ops[j] != ClearOp(ops[i].fill.controller)
  }

  /** The worth of the standing fills among the first n operations. */
  ghost function StandingWorth(ops: seq<Op>, s: Scope, marks: Marks, n: nat): real
    requires n <= |ops|
  {
    if n == 0 then 0.0
    else
      StandingWorth(ops, s, marks, n - 1)
      + if Standing(ops, n - 1, s) then Worth(ops[n - 1].fill, MarkAt(marks, ops[n - 1].fill.pair)) else 0.0
  }

  ghost function BookValue(ops: seq<Op>, s: Scope, marks: Marks): real { StandingWorth(ops, s, marks, |ops|) }

  /** Every hold the user has is marked. */
  predicate AllMarked(holds: Holds, user: int, marks: Marks) {
    forall k :: k in holds.at && holds.at[k].user == user ==> holds.at[k].pair in marks
  }

  // ----- figures summed over holds -----------------------------------------

  /** Cash value less fees: what a hold in scope should contribute. */
  function Line(s: Scope, marks: Marks): Hold -> real {
    (h: Hold) => if s.Has(h.user, h.controller) then h.CashValue(MarkAt(marks, h.pair)) - h.fees else 0.0
  }

  function StrayOf(s: Scope): Hold -> real {
    (h: Hold) => if s.Has(h.user, h.controller) then -h.Stray() else 0.0
  }

  /** What Portfolio.state adds up for a hold in scope. */
  function Contribution(h: Hold, marks: Marks): real {
    h.RealizedPnl() - h.fees + (if h.pair in marks then h.UnrealizedPnl(marks[h.pair]) else 0.0)
  }

  function Reported(s: Scope, marks: Marks): Hold -> real {
    (h: Hold) => if s.Has(h.user, h.controller) then Contribution(h, marks) else 0.0
  }

  ghost predicate Keyed(holds: Holds) {
    forall k :: k in holds.at ==>
      var h := holds.at[k];
      k == (h.user, h.pair, h.controller) && h.buyBase >= 0.0 && h.sellBase >= 0.0
  }

  // ----- each operation keeps the books ------------------------------------

  lemma BookedLine(h: Hold, f: FillRequest, mark: real)
    requires f.Accepted()
    ensures Booked(h, f).CashValue(mark) - Booked(h, f).fees == h.CashValue(mark) - h.fees + Worth(f, mark)
  {
  }

  lemma FillKeepsBooks(holds: Holds, f: FillRequest, s: Scope, marks: Marks)
    requires Keyed(holds) && f.Accepted()
    ensures Keyed(ApplyFill(holds, f))
    ensures Sum(ApplyFill(holds, f), Line(s, marks))
            == Sum(holds, Line(s, marks))
               + (if s.Has(f.user, f.controller) then Worth(f, MarkAt(marks, f.pair)) else 0.0)
  {
    hide OrderedDict.Valid, OrderedDict.Put, Hold.CashValue, Worth, Sum;
    var h := HoldAt(holds, f.Key());
    SumPut(holds, f.Key(), Booked(h, f), Line(s, marks));
    BookedLine(h, f, MarkAt(marks, f.pair));
    NewHoldLine(f.Key(), MarkAt(marks, f.pair));
  }

  lemma NewHoldLine(k: HoldKey, mark: real)
    ensures NewHold(k).CashValue(mark) - NewHold(k).fees == 0.0
  {
  }

  lemma GetKeepsBooks(holds: Holds, k: HoldKey, s: Scope, marks: Marks)
    requires Keyed(holds)
    ensures Keyed(Get(holds, k)) && Sum(Get(holds, k), Line(s, marks)) == Sum(holds, Line(s, marks))
  {
    hide OrderedDict.Valid, OrderedDict.Put, Hold.CashValue, Sum;
    SumPut(holds, k, HoldAt(holds, k), Line(s, marks));
    NewHoldLine(k, MarkAt(marks, k.1));
  }

  /** Clearing a controller drops exactly its holds: figures blind to them keep their sum. */
  lemma {:induction false} ClearKeysEffect(holds: Holds, keys: seq<HoldKey>, c: string, f: Hold -> real)
    requires forall h: Hold :: h.controller == c ==> f(h) == 0.0
    ensures var r := ClearKeys(holds, keys, c);
            && (forall k :: k in r.at ==>
                  k in holds.at && r.at[k] == holds.at[k] && (k in keys ==> r.at[k].controller != c))
            && Sum(r, f) == Sum(holds, f)
    decreases |keys|
  {
    hide OrderedDict.Valid, Sum;
    if keys != [] {
      var next := if keys[0] in holds.at && holds.at[keys[0]].controller == c then holds.Remove(keys[0]) else holds;
      SumRemove(holds, keys[0], f);
      ClearKeysEffect(next, keys[1..], c, f);
    }
  }

  /** Line, without one controller; and its complement. */
  function Except(s: Scope, marks: Marks, c: string): Hold -> real {
    (h: Hold) => if h.controller != c then Line(s, marks)(h) else 0.0
  }

  function Only(s: Scope, marks: Marks, c: string): Hold -> real {
    (h: Hold) => if h.controller == c then Line(s, marks)(h) else 0.0
  }

  lemma OnlyIsLine(holds: Holds, s: Scope, marks: Marks, c: string)
    ensures Sum(holds, Only(s, marks, c))
            == if s.Has(s.user, c) then Sum(holds, Line(Scope(s.user, Some(c)), marks)) else 0.0
  {
    hide OrderedDict.Valid, SumOver, Hold.CashValue;
    forall h: Hold
      ensures Only(s, marks, c)(h) == if s.Has(s.user, c) then Line(Scope(s.user, Some(c)), marks)(h) else 0.0
    {
      assert Only(s, marks, c)(h) == if h.controller == c then Line(s, marks)(h) else 0.0;
    }
    if s.Has(s.user, c) {
      SumSame(holds.order, holds.at, Only(s, marks, c), Line(Scope(s.user, Some(c)), marks));
    } else {
      SumZero(holds.order, holds.at, Only(s, marks, c));
    }
  }

  lemma ClearKeepsBooks(holds: Holds, c: string, s: Scope, marks: Marks)
    requires Keyed(holds)
    ensures Keyed(Clear(holds, c))
    ensures Sum(Clear(holds, c), Line(s, marks))
            == Sum(holds, Line(s, marks))
               - (if s.Has(s.user, c) then Sum(holds, Line(Scope(s.user, Some(c)), marks)) else 0.0)
  {
    hide OrderedDict.Valid, SumOver, Hold.CashValue, ClearKeys, Line;
    var r := Clear(holds, c);
    DictKeys(holds);
    ClearKeysEffect(holds, holds.order, c, Except(s, marks, c));
    SumAdd(holds.order, holds.at, Except(s, marks, c), Only(s, marks, c), Line(s, marks));
    SumAdd(r.order, r.at, Except(s, marks, c), Only(s, marks, c), Line(s, marks));
    SumZero(r.order, r.at, Only(s, marks, c));
    OnlyIsLine(holds, s, marks, c);
  }

  /** One more operation that is no clear leaves earlier fills standing. */
  lemma {:induction false} StillStanding(ops: seq<Op>, op: Op, s: Scope, marks: Marks, n: nat)
    requires n <= |ops| && !op.ClearOp?
    ensures StandingWorth(ops + [op], s, marks, n) == StandingWorth(ops, s, marks, n)
  {
    hide Worth, MarkAt;
    if n > 0 {
      StillStanding(ops, op, s, marks, n - 1);
      assert (ops + [op])[n - 1] == ops[n - 1] && (ops + [op])[|ops|] == op;
      assert forall j :: 0 <= j < |ops| ==> (ops + [op])[j] == ops[j];
      assert Standing(ops + [op], n - 1, s) == Standing(ops, n - 1, s);
    }
  }

  /** A clear takes exactly its controller's standing fills. */
  lemma {:induction false} ClearTopples(ops: seq<Op>, c: string, s: Scope, marks: Marks, n: nat)
    requires n <= |ops|
    ensures StandingWorth(ops + [ClearOp(c)], s, marks, n)
            == StandingWorth(ops, s, marks, n)
               - (if s.Has(s.user, c) then StandingWorth(ops, Scope(s.user, Some(c)), marks, n) else 0.0)
  {
    hide Worth, MarkAt;
    if n > 0 {
      ClearTopples(ops, c, s, marks, n - 1);
      var more := ops + [ClearOp(c)];
      assert forall j :: 0 <= j < |ops| ==> more[j] == ops[j];
      assert more[|ops|] == ClearOp(c);
      assert Standing(more, n - 1, s) <==> Standing(ops, n - 1, s) && ops[n - 1].fill.controller != c;
      assert Standing(ops, n - 1, Scope(s.user, Some(c))) && s.Has(s.user, c)
        <==> Standing(ops, n - 1, s) && ops[n - 1].fill.controller == c;
    }
  }

  lemma {:induction false} BooksBalance(ops: seq<Op>, s: Scope, marks: Marks)
    ensures Keyed(Run(ops)) && Sum(Run(ops), Line(s, marks)) == BookValue(ops, s, marks)
    decreases |ops|, if s.controller.None? then 1 else 0
  {
    hide OrderedDict.Valid, Sum, Line, Keyed;
    if ops == [] {
      EmptyBooks(s, marks);
    } else {
      var earlier, op := ops[..|ops| - 1], ops[|ops| - 1];
      var before := Run(earlier);
      assert ops == earlier + [op];
      BooksBalance(earlier, s, marks);
      match op {
        case FillOp(f) =>
          StillStanding(earlier, op, s, marks, |earlier|);
          if f.Accepted() { FillKeepsBooks(before, f, s, marks); }
        case GetOp(k) =>
          StillStanding(earlier, op, s, marks, |earlier|);
          GetKeepsBooks(before, k, s, marks);
        case ClearOp(c) =>
          ClearTopples(earlier, c, s, marks, |earlier|);
          ClearKeepsBooks(before, c, s, marks);
          BooksBalance(earlier, Scope(s.user, Some(c)), marks);
      }
    }
  }

  lemma EmptyBooks(s: Scope, marks: Marks)
    ensures Keyed(Empty()) && Sum<HoldKey, Hold>(Empty(), Line(s, marks)) == 0.0
  {
  }

  // ----- a hold is its fills -----------------------------------------------

  /** The accepted fills of one key since its controller was last cleared. */
  function Fills(ops: seq<Op>, k: HoldKey): seq<FillRequest> {
    if ops == [] then []
    else
      var before := Fills(ops[..|ops| - 1], k);
      match ops[|ops| - 1]
      case FillOp(f) => if f.Accepted() && f.Key() == k then before + [f] else before
      case GetOp(_) => before
      case ClearOp(c) => if c == k.2 then [] else before
  }

  function FillSum(fs: seq<FillRequest>, g: FillRequest -> real): real {
    if fs == [] then 0.0 else FillSum(fs[..|fs| - 1], g) + g(fs[|fs| - 1])
  }

  function BaseOn(side: TradeType): FillRequest -> real {
    (f: FillRequest) => if f.side == side && f.base.Fin? then f.base.v else 0.0
  }

  function QuoteOn(side: TradeType): FillRequest -> real {
    (f: FillRequest) => if f.side == side && f.quote.Fin? then f.quote.v else 0.0
  }

  const FeeOn: FillRequest -> real := (f: FillRequest) => if f.fee.Fin? then f.fee.v else 0.0

  ghost predicate IsItsFills(h: Hold, k: HoldKey, fs: seq<FillRequest>) {
    && (h.user, h.pair, h.controller) == k
    && h.buyBase == FillSum(fs, BaseOn(Buy)) && h.buyQuote == FillSum(fs, QuoteOn(Buy))
    && h.sellBase == FillSum(fs, BaseOn(Sell)) && h.sellQuote == FillSum(fs, QuoteOn(Sell))
    && h.fees == FillSum(fs, FeeOn)
    && h.updatedAt == if fs == [] then 0.0 else fs[|fs| - 1].at
  }

  lemma FillSumSnoc(fs: seq<FillRequest>, f: FillRequest, g: FillRequest -> real)
    ensures FillSum(fs + [f], g) == FillSum(fs, g) + g(f)
  {
    assert (fs + [f])[..|fs|] == fs;
  }

  lemma BookedIsItsFills(h: Hold, k: HoldKey, fs: seq<FillRequest>, f: FillRequest)
    requires IsItsFills(h, k, fs) && f.Accepted()
    ensures IsItsFills(Booked(h, f), k, fs + [f])
  {
    hide FillSum;
    FillSumSnoc(fs, f, BaseOn(Buy));
    FillSumSnoc(fs, f, QuoteOn(Buy));
    FillSumSnoc(fs, f, BaseOn(Sell));
    FillSumSnoc(fs, f, QuoteOn(Sell));
    FillSumSnoc(fs, f, FeeOn);
  }

  /** Clearing a controller leaves every other hold as it was. */
  lemma {:induction false} ClearKeysKeeps(holds: Holds, keys: seq<HoldKey>, c: string, k: HoldKey)
    requires k in holds.at && holds.at[k].controller != c
    ensures var r := ClearKeys(holds, keys, c); k in r.at && r.at[k] == holds.at[k]
    decreases |keys|
  {
    hide OrderedDict.Valid;
    if keys != [] {
      var next := if keys[0] in holds.at && holds.at[keys[0]].controller == c then holds.Remove(keys[0]) else holds;
      ClearKeysKeeps(next, keys[1..], c, k);
    }
  }

  lemma ClearedHold(holds: Holds, c: string, k: HoldKey)
    requires Keyed(holds)
    ensures HoldAt(Clear(holds, c), k) == if k.2 == c then NewHold(k) else HoldAt(holds, k)
  {
    hide OrderedDict.Valid, ClearKeys;
    DictKeys(holds);
    ClearKeysEffect(holds, holds.order, c, (h: Hold) => 0.0);
    if k in holds.at && k.2 != c { ClearKeysKeeps(holds, holds.order, c, k); }
  }

  /** Over every run a hold is exactly the sum of its key's accepted fills since its controller was
      last cleared: bought and sold base and quote each for itself, the fees, and the latest time. */
  lemma {:induction false} HoldIsItsFills(ops: seq<Op>, k: HoldKey, marks: Marks)
    ensures IsItsFills(HoldAt(Run(ops), k), k, Fills(ops, k))
  {
    hide OrderedDict.Valid, OrderedDict.Put, IsItsFills, Clear, Booked;
    if ops == [] {
      NewIsNoFills(k);
    } else {
      var earlier := ops[..|ops| - 1];
      HoldIsItsFills(earlier, k, marks);
      BooksBalance(earlier, Scope(0, None), marks);
      match ops[|ops| - 1] {
        case FillOp(f) =>
          if f.Accepted() && f.Key() == k { BookedIsItsFills(HoldAt(Run(earlier), k), k, Fills(earlier, k), f); }
        case GetOp(_) =>
        case ClearOp(c) =>
          ClearedHold(Run(earlier), c, k);
          NewIsNoFills(k);
      }
    }
  }

  lemma NewIsNoFills(k: HoldKey)
    ensures IsItsFills(NewHold(k), k, [])
  {
  }

  // ----- from holds to the report ------------------------------------------

  /** What one controller's accumulated figures net to. */
  function Total(p: ControllerPnl): real { p.realized - p.fees + p.unrealized }

  function NetOf(p: ControllerPnl): real { p.net }

  /** A sum over a list of holds. */
  function ListSum(hs: seq<Hold>, f: Hold -> real): real {
    if hs == [] then 0.0 else ListSum(hs[..|hs| - 1], f) + f(hs[|hs| - 1])
  }

  lemma AbsorbTotal(p: ControllerPnl, h: Hold, marks: Marks)
    ensures Total(Absorb(p, h, marks)) == Total(p) + Contribution(h, marks)
  {
    hide Hold.RealizedPnl, Hold.UnrealizedPnl;
  }

  /** The figures of one controller, each a sum of its own over that controller's holds. */
  function Realized(c: string): Hold -> real { (h: Hold) => if h.controller == c then h.RealizedPnl() else 0.0 }

  function Fees(c: string): Hold -> real { (h: Hold) => if h.controller == c then h.fees else 0.0 }

  function Unrealized(c: string, marks: Marks): Hold -> real {
    (h: Hold) => if h.controller == c && h.pair in marks then h.UnrealizedPnl(marks[h.pair]) else 0.0
  }

  /** A controller is reported exactly when it has a hold; its realized figure is the sum over its
      holds, its fees are, its unrealized figure is the sum over its marked holds only, and it has the
      open executors it was said to have. */
  lemma FiguresAddUp(hs: seq<Hold>, marks: Marks, c: string, openCount: string -> int)
    ensures var report := Closed(Aggregate(hs, marks), openCount);
            && (c in report <==> exists i :: 0 <= i < |hs| && hs[i].controller == c)
            && (c in report ==>
                  && report[c].realized == ListSum(hs, Realized(c))
                  && report[c].unrealized == ListSum(hs, Unrealized(c, marks))
                  && report[c].fees == ListSum(hs, Fees(c))
                  && report[c].net == report[c].realized + report[c].unrealized - report[c].fees
                  && report[c].openExecutors == openCount(c))
  {
    hide OrderedDict.Valid, Hold.RealizedPnl, Hold.UnrealizedPnl;
    AggregateFigures(hs, marks, c);
  }

  lemma {:induction false} AggregateFigures(hs: seq<Hold>, marks: Marks, c: string)
    ensures var d, p := Aggregate(hs, marks), PnlAt(Aggregate(hs, marks), c);
            && (c in d.at <==> exists i :: 0 <= i < |hs| && hs[i].controller == c)
            && p.realized == ListSum(hs, Realized(c))
            && p.unrealized == ListSum(hs, Unrealized(c, marks))
            && p.fees == ListSum(hs, Fees(c))
  {
    hide OrderedDict.Valid, OrderedDict.Put, Hold.RealizedPnl, Hold.UnrealizedPnl;
    if hs != [] {
      var n := |hs| - 1;
      AggregateFigures(hs[..n], marks, c);
      assert hs == hs[..n] + [hs[n]];
    }
  }

  /** The aggregate totals of a controller, and of all of them, are sums over the holds. */
  lemma {:induction false} AggregateTotals(hs: seq<Hold>, user: int, marks: Marks, c: string)
    requires forall i :: 0 <= i < |hs| ==> hs[i].user == user
    ensures var d := Aggregate(hs, marks);
            && Total(PnlAt(d, c)) == ListSum(hs, Reported(Scope(user, Some(c)), marks))
            && Sum(d, Total) == ListSum(hs, Reported(Scope(user, None), marks))
  {
    hide OrderedDict.Valid, OrderedDict.Put, Contribution, Absorb, Total, Sum;
    if hs == [] {
      EmptyTotals();
    } else {
      var n := |hs| - 1;
      var d, owner := Aggregate(hs[..n], marks), hs[n].controller;
      var p := Absorb(PnlAt(d, owner), hs[n], marks);
      AggregateTotals(hs[..n], user, marks, c);
      AbsorbTotal(PnlAt(d, owner), hs[n], marks);
      SumPut(d, owner, p, Total);
      EmptyTotals();
      assert Aggregate(hs, marks) == d.Put(owner, p);
    }
  }

  lemma EmptyTotals()
    ensures Sum<string, ControllerPnl>(Empty(), Total) == 0.0 && Total(ZERO) == 0.0
  {
  }

  lemma ListSumSnoc(init: seq<Hold>, h: Hold, f: Hold -> real)
    ensures ListSum(init + [h], f) == ListSum(init, f) + f(h)
  {
    assert (init + [h])[..|init|] == init;
  }

  /** Selecting a user's holds loses nothing a figure of that user sees. */
  lemma {:induction false} SelectSum(holds: Holds, order: seq<HoldKey>, user: int, f: Hold -> real, p: Hold -> bool)
    requires forall h: Hold :: p(h) <==> h.user == user
    requires forall h: Hold :: h.user != user ==> f(h) == 0.0
    ensures ListSum(Select(holds, order, p), f) == SumOver(order, holds.at, f)
  {
    hide OrderedDict.Valid, ListSum;
    if order == [] {
      EmptyListSum(f);
    } else {
      var n := |order| - 1;
      var init := Select(holds, order[..n], p);
      SelectSum(holds, order[..n], user, f, p);
      if order[n] in holds.at && p(holds.at[order[n]]) {
        ListSumSnoc(init, holds.at[order[n]], f);
      } else {
        assert init + [] == init;
      }
    }
  }

  lemma EmptyListSum(f: Hold -> real)
    ensures ListSum([], f) == 0.0
  {
  }

  lemma {:induction false} SelectUsers(holds: Holds, order: seq<HoldKey>, user: int, p: Hold -> bool)
    requires forall h: Hold :: p(h) <==> h.user == user
    ensures forall h :: h in Select(holds, order, p) ==> h.user == user
  {
    hide OrderedDict.Valid;
    if order != [] { SelectUsers(holds, order[..|order| - 1], user, p); }
  }

  /** For a marked, keyed hold the reported figure is its line less its stray quote. */
  lemma ReportedIsLine(holds: Holds, s: Scope, marks: Marks)
    requires Keyed(holds) && AllMarked(holds, s.user, marks)
    ensures Sum(holds, Reported(s, marks)) == Sum(holds, Line(s, marks)) + Sum(holds, StrayOf(s))
  {
    hide OrderedDict.Valid, SumOver, Hold.CashValue, Hold.RealizedPnl, Hold.UnrealizedPnl, Hold.Stray;
    forall i | 0 <= i < |holds.order|
      ensures Term(holds.at, holds.order[i], Reported(s, marks))
              == Term(holds.at, holds.order[i], Line(s, marks)) + Term(holds.at, holds.order[i], StrayOf(s))
    {
      if holds.order[i] in holds.at {
        var h := holds.at[holds.order[i]];
        PnlIdentity(h, MarkAt(marks, h.pair));
      }
    }
    SumAdd(holds.order, holds.at, Line(s, marks), StrayOf(s), Reported(s, marks));
  }

  /** The report of Portfolio.state after a run. */
  function Report(ops: seq<Op>, user: int, marks: Marks, openCount: string -> int): map<string, ControllerPnl> {
    Closed(Aggregate(UserHolds(Run(ops), user), marks), openCount)
  }

  function NetIn(report: map<string, ControllerPnl>, c: string): real {
    if c in report then report[c].net else 0.0
  }

  function Controllers(ops: seq<Op>, user: int, marks: Marks): seq<string> {
    Aggregate(UserHolds(Run(ops), user), marks).order
  }

  /** After any run of fills (accepted or rejected), lookups and clears, with the user's pairs
      marked: each controller's reported net, and the sum of all of them, is the worth of the fills
      behind it at the marks, less the quote booked on base-less sides. */
  lemma PnlConserved(ops: seq<Op>, user: int, marks: Marks, c: string, openCount: string -> int)
    requires AllMarked(Run(ops), user, marks)
    ensures var report := Report(ops, user, marks, openCount);
            && NetIn(report, c) == BookValue(ops, Scope(user, Some(c)), marks)
               + Sum(Run(ops), StrayOf(Scope(user, Some(c))))
            && SumOver(Controllers(ops, user, marks), report, NetOf)
               == BookValue(ops, Scope(user, None), marks) + Sum(Run(ops), StrayOf(Scope(user, None)))
  {
    hide *;
    var agg := Aggregate(UserHolds(Run(ops), user), marks);
    ScopeReported(ops, Scope(user, Some(c)), marks);
    ScopeReported(ops, Scope(user, None), marks);
    AggregateTotals(UserHolds(Run(ops), user), user, marks, c);
    ReportNets(ops, user, marks, c, openCount);
  }

  lemma ReportNets(ops: seq<Op>, user: int, marks: Marks, c: string, openCount: string -> int)
    ensures var agg := Aggregate(UserHolds(Run(ops), user), marks);
            && NetIn(Report(ops, user, marks, openCount), c) == Total(PnlAt(agg, c))
            && SumOver(Controllers(ops, user, marks), Report(ops, user, marks, openCount), NetOf) == Sum(agg, Total)
  {
    hide OrderedDict.Valid, Aggregate, UserHolds, Run, Sum, SumOver;
    NettedSum(Aggregate(UserHolds(Run(ops), user), marks), Report(ops, user, marks, openCount));
  }

  /** What the report adds up over a scope, in terms of the run. */
  lemma ScopeReported(ops: seq<Op>, s: Scope, marks: Marks)
    requires AllMarked(Run(ops), s.user, marks)
    ensures ListSum(UserHolds(Run(ops), s.user), Reported(s, marks))
            == BookValue(ops, s, marks) + Sum(Run(ops), StrayOf(s))
    ensures forall i :: 0 <= i < |UserHolds(Run(ops), s.user)| ==> UserHolds(Run(ops), s.user)[i].user == s.user
  {
    hide OrderedDict.Valid, Line, Run, StrayOf, AllMarked, Keyed, BookValue, Select, Contribution, ListSum, SumOver;
    BooksBalance(ops, s, marks);
    ReportedIsLine(Run(ops), s, marks);
    SelectSum(Run(ops), Run(ops).order, s.user, Reported(s, marks), (h: Hold) => h.user == s.user);
    SelectUsers(Run(ops), Run(ops).order, s.user, (h: Hold) => h.user == s.user);
  }

  lemma NettedSum(agg: PerController, report: map<string, ControllerPnl>)
    requires report.Keys == agg.at.Keys
    requires forall c :: c in agg.at ==> report[c].net == Total(agg.at[c])
    ensures SumOver(agg.order, report, NetOf) == Sum(agg, Total)
  {
    hide OrderedDict.Valid;
    SumFrameBetween(agg.order, agg.at, report, Total, NetOf);
  }

  lemma {:induction false} SumFrameBetween(order: seq<string>, at: map<string, ControllerPnl>,
                                           at': map<string, ControllerPnl>,
                                           f: ControllerPnl -> real, g: ControllerPnl -> real)
    requires forall i :: 0 <= i < |order| ==> Term(at, order[i], f) == Term(at', order[i], g)
    ensures SumOver(order, at, f) == SumOver(order, at', g)
  {
    if order != [] { SumFrameBetween(order[..|order| - 1], at, at', f, g); }
  }

  // ----- clean fills -------------------------------------------------------

  /** A fill without base carries no quote. */
  predicate CleanFill(f: FillRequest) { f.Accepted() && f.base.v == 0.0 ==> f.quote.v == 0.0 }

  ghost predicate NoStray(holds: Holds) {
    forall k :: k in holds.at ==>
      var h := holds.at[k];
      && h.buyBase >= 0.0 && h.sellBase >= 0.0
      && (h.buyBase == 0.0 ==> h.buyQuote == 0.0) && (h.sellBase == 0.0 ==> h.sellQuote == 0.0)
  }

  lemma {:induction false} CleanFillsLeaveNoStray(ops: seq<Op>)
    requires forall i :: 0 <= i < |ops| && ops[i].FillOp? ==> CleanFill(ops[i].fill)
    ensures NoStray(Run(ops))
  {
    hide OrderedDict.Valid, OrderedDict.Put, ClearKeys;
    if ops != [] {
      var before := Run(ops[..|ops| - 1]);
      CleanFillsLeaveNoStray(ops[..|ops| - 1]);
      match ops[|ops| - 1]
      case FillOp(f) =>
      case GetOp(k) =>
      case ClearOp(c) => ClearKeysEffect(before, before.order, c, (h: Hold) => 0.0);
    }
  }

  /** If no fill carries quote without base, the report conserves the fills' worth exactly. */
  lemma CleanFillsConserve(ops: seq<Op>, user: int, marks: Marks, c: string, openCount: string -> int)
    requires AllMarked(Run(ops), user, marks)
    requires forall i :: 0 <= i < |ops| && ops[i].FillOp? ==> CleanFill(ops[i].fill)
    ensures var report := Report(ops, user, marks, openCount);
            && NetIn(report, c) == BookValue(ops, Scope(user, Some(c)), marks)
            && SumOver(Controllers(ops, user, marks), report, NetOf) == BookValue(ops, Scope(user, None), marks)
  {
    hide OrderedDict.Valid, SumOver, Run, Report, Controllers, BookValue, AllMarked;
    CleanFillsLeaveNoStray(ops);
    PnlConserved(ops, user, marks, c, openCount);
    SumZero(Run(ops).order, Run(ops).at, StrayOf(Scope(user, Some(c))));
    SumZero(Run(ops).order, Run(ops).at, StrayOf(Scope(user, None)));
  }
}
