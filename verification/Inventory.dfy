/** Position holds: cumulative buy and sell sums per (user, pair, controller), and the PnL derived
    from them. Decimal arithmetic is taken as exact. */
module Inventory {
  import opened OrderedDicts
  import opened Reals

  datatype TradeType = Buy | Sell
  datatype PositionSide = Long | Short | Flat

  datatype Hold = Hold(user: int, pair: string, controller: string,
                       buyBase: real, buyQuote: real, sellBase: real, sellQuote: real,
                       fees: real, updatedAt: real)
  {
    function AvgBuy(): Option<real> { if buyBase <= 0.0 then None else Some(buyQuote / buyBase) }

    function AvgSell(): Option<real> { if sellBase <= 0.0 then None else Some(sellQuote / sellBase) }

    function NetBase(): real { buyBase - sellBase }

    function Side(): PositionSide {
      if NetBase() > 0.0 then Long else if NetBase() < 0.0 then Short else Flat
    }

    function RealizedPnl(): real {
      var matched := Min(buyBase, sellBase);
      if matched <= 0.0 then 0.0 else (OrZero(AvgSell()) - OrZero(AvgBuy())) * matched
    }

    function UnrealizedPnl(mark: real): real {
      match Side()
      case Long => NetBase() * (mark - OrZero(AvgBuy()))
      case Short => -NetBase() * (OrZero(AvgSell()) - mark)
      case Flat => 0.0
    }

    /** What the hold's fills are worth in cash at `mark`, fees aside. */
    function CashValue(mark: real): real { sellQuote - buyQuote + NetBase() * mark }

    /** Quote booked on a side that has no base: the part of the cash value no PnL figure sees. */
    function Stray(): real {
      (if sellBase == 0.0 then sellQuote else 0.0) - (if buyBase == 0.0 then buyQuote else 0.0)
    }
  }

  function OrZero(x: Option<real>): real { match x case Some(v) => v case None => 0.0 }

  /** Realized plus unrealized PnL is the hold's cash value less its stray quote: exactly, in every
      long, short, flat and one-sided case. */
  lemma PnlIdentity(h: Hold, mark: real)
    requires h.buyBase >= 0.0 && h.sellBase >= 0.0
    ensures h.RealizedPnl() + h.UnrealizedPnl(mark) == h.CashValue(mark) - h.Stray()
  {
    var b, s, bq, sq := h.buyBase, h.sellBase, h.buyQuote, h.sellQuote;
    if b > 0.0 && s > 0.0 {
      var x, y := bq / b, sq / s;
      assert x * b == bq && y * s == sq;
      if b >= s {
        assert (y - x) * s + (b - s) * (mark - x) == y * s - x * b + (b - s) * mark;
      } else {
        assert (y - x) * b + (s - b) * (y - mark) == y * s - x * b + (b - s) * mark;
      }
    } else if b > 0.0 {
      var x := bq / b;
      assert x * b == bq;
      assert b * (mark - x) == b * mark - x * b;
    } else if s > 0.0 {
      var y := sq / s;
      assert y * s == sq;
      assert s * (y - mark) == y * s - s * mark;
    }
  }

  /** And each figure for itself. Nothing is realized while one side is empty, and a position is worth
      what it cost at the average price of its open side; so the unrealized figure is the net position
      times how far the mark is from there, nothing when flat, and the realized one does not depend on
      the mark. */
  lemma PnlApart(h: Hold, mark: real)
    requires h.buyBase >= 0.0 && h.sellBase >= 0.0
    ensures h.buyBase == 0.0 || h.sellBase == 0.0 ==> h.RealizedPnl() == 0.0
    ensures h.Side() == if h.buyBase > h.sellBase then Long else if h.buyBase < h.sellBase then Short else Flat
    ensures h.buyBase == h.sellBase ==> h.UnrealizedPnl(mark) == 0.0
    ensures h.buyBase > h.sellBase ==> h.UnrealizedPnl(h.buyQuote / h.buyBase) == 0.0
    ensures h.sellBase > h.buyBase ==> h.UnrealizedPnl(h.sellQuote / h.sellBase) == 0.0
    ensures h.UnrealizedPnl(mark) == h.UnrealizedPnl(0.0) + (h.buyBase - h.sellBase) * mark
  {
    PnlIdentity(h, mark);
    PnlIdentity(h, 0.0);
  }

  /** A Decimal that may be NaN or infinite. */
  datatype Dec = Fin(v: real) | NonFinite

  type HoldKey = (int, string, string)

  datatype FillRequest = FillRequest(user: int, pair: string, controller: string, side: TradeType,
                                     base: Dec, quote: Dec, fee: Dec, at: real)
  {
    function Key(): HoldKey { (user, pair, controller) }

    /** Otherwise apply_fill raises ValueError. */
    predicate Accepted() {
      base.Fin? && quote.Fin? && fee.Fin? && base.v >= 0.0 && quote.v >= 0.0
    }
  }

  type Holds = Dict<HoldKey, Hold>

  function NewHold(k: HoldKey): Hold { Hold(k.0, k.1, k.2, 0.0, 0.0, 0.0, 0.0, 0.0, 0.0) }

  function HoldAt(holds: Holds, k: HoldKey): Hold { if k in holds.at then holds.at[k] else NewHold(k) }

  function Booked(h: Hold, f: FillRequest): Hold
    requires f.Accepted()
  {
    var h' := h.(fees := h.fees + f.fee.v, updatedAt := f.at);
    match f.side
    case Buy => h'.(buyBase := h.buyBase + f.base.v, buyQuote := h.buyQuote + f.quote.v)
    case Sell => h'.(sellBase := h.sellBase + f.base.v, sellQuote := h.sellQuote + f.quote.v)
  }

  function ApplyFill(holds: Holds, f: FillRequest): Holds {
    if f.Accepted() then holds.Put(f.Key(), Booked(HoldAt(holds, f.Key()), f)) else holds
  }

  function Get(holds: Holds, k: HoldKey): Holds { holds.Put(k, HoldAt(holds, k)) }

  /** The holds a predicate selects, in insertion order. */
  function Select(holds: Holds, order: seq<HoldKey>, p: Hold -> bool): seq<Hold> {
    if order == [] then []
    else
      var n := |order| - 1;
      Select(holds, order[..n], p)
      + (if order[n] in holds.at && p(holds.at[order[n]]) then [holds.at[order[n]]] else [])
  }

  /** A user's holds. */
  function UserHolds(holds: Holds, user: int): seq<Hold> {
    Select(holds, holds.order, (h: Hold) => h.user == user)
  }

  /** Drop the keys of one controller, oldest first. */
  function ClearKeys(holds: Holds, keys: seq<HoldKey>, controller: string): Holds
    decreases |keys|
  {
    if keys == [] then holds
    else
      ClearKeys(if keys[0] in holds.at && holds.at[keys[0]].controller == controller
                then holds.Remove(keys[0]) else holds,
                keys[1..], controller)
  }

  function Clear(holds: Holds, controller: string): Holds { ClearKeys(holds, holds.order, controller) }

  class InventoryRepository {
    var holds: Holds

    constructor ()
      ensures holds == Empty()
    {
      holds := Empty();
    }

    /** Note that a lookup of an unknown key inserts an empty hold. */
    method GetHold(k: HoldKey) returns (copy: Hold)
      modifies this
      ensures copy == HoldAt(old(holds), k)
      ensures holds.at == old(holds).at[k := copy]
      ensures k in old(holds).at ==> holds == old(holds)
      ensures k !in old(holds).at ==> holds == Get(old(holds), k)
    {
      if k !in holds.at { holds := holds.Put(k, NewHold(k)); }
      copy := holds.at[k];
    }

    method Apply(f: FillRequest) returns (copy: Option<Hold>)
      modifies this
      ensures holds == ApplyFill(old(holds), f)
      ensures copy.None? <==>
                f.base.NonFinite? || f.quote.NonFinite? || f.fee.NonFinite? || f.base.v < 0.0 || f.quote.v < 0.0
      ensures copy.None? ==> holds == old(holds)
      ensures copy == if f.Accepted() then Some(Booked(HoldAt(old(holds), f.Key()), f)) else None
    {
      hide OrderedDict.Valid, OrderedDict.Put;
      if !(f.base.Fin? && f.quote.Fin? && f.fee.Fin?) { return None; }
      if f.base.v < 0.0 || f.quote.v < 0.0 { return None; }
      var key := f.Key();
      var hold := if key in holds.at then holds.at[key] else NewHold(key);
      if f.side == Buy {
        hold := hold.(buyBase := hold.buyBase + f.base.v, buyQuote := hold.buyQuote + f.quote.v);
      } else {
        hold := hold.(sellBase := hold.sellBase + f.base.v, sellQuote := hold.sellQuote + f.quote.v);
      }
      hold := hold.(fees := hold.fees + f.fee.v, updatedAt := f.at);
      holds := holds.Put(key, hold);
      copy := Some(hold);
    }

    method ListForUser(user: int) returns (copies: seq<Hold>)
      ensures copies == UserHolds(holds, user)
    {
      DictKeys(holds);
      copies := [];
      ghost var p := (h: Hold) => h.user == user;
      for i := 0 to |holds.order|
        invariant copies == Select(holds, holds.order[..i], p)
      {
        var h := holds.at[holds.order[i]];
        assert holds.order[..i + 1][..i] == holds.order[..i];
        if h.user == user { copies := copies + [h]; }
      }
      assert holds.order[..|holds.order|] == holds.order;
    }

    method ClearForController(controller: string)
      modifies this
      ensures holds == Clear(old(holds), controller)
    {
      var keys := holds.order;
      var i := 0;
      while i < |keys|
        invariant 0 <= i <= |keys|
        invariant ClearKeys(holds, keys[i..], controller) == Clear(old(holds), controller)
      {
        assert keys[i..][1..] == keys[i + 1..];
        if keys[i] in holds.at && holds.at[keys[i]].controller == controller { holds := holds.Remove(keys[i]); }
        i := i + 1;
      }
    }
  }
}
