/** Desk execution plans: the validation gate, trigger resolution at confirm, and the runtime check. */
module DeskPlan {
  import opened OrderedDicts

  const MAX_PLAN_MINUTES := 10080.0
  const MAX_WAIT_MINUTES := 10080.0
  const MIN_TWAP_MINUTES := 2.0
  const MIN_INTERVAL := 10.0
  const DEFAULT_INTERVAL := 30.0
  const MAX_SLICES := 2000.0

  datatype Algo = MarketOrder | LimitOrder | Twap | OtherAlgo(name: string)
  datatype Market = Spot | Perp | OtherMarket(name: string)
  datatype Side = Buy | Sell | OtherSide(name: string)
  datatype Mode = Taker | Maker | OtherMode(name: string)
  datatype Kind = PriceAbove | PriceBelow | PriceCross | PctMove | AtTime | OtherKind(name: string)

  datatype Trigger = Trigger(kind: Kind, price: Option<real>, pct: Option<real>, delay: Option<real>,
                             fireAt: Option<real>)

  datatype Exits = Exits(tpPct: Option<real>, slPct: Option<real>, tpPrice: Option<real>, slPrice: Option<real>,
                         trailing: Option<real>) {
    predicate Empty() { tpPct.None? && slPct.None? && tpPrice.None? && slPrice.None? && trailing.None? }
  }

  datatype Plan = Plan(algo: Algo, market: Market, product: Option<string>, side: Option<Side>,
                       sizeBase: Option<real>, sizeQuote: Option<real>, limitPrice: Option<real>, leverage: Option<int>,
                       duration: Option<real>, interval: Option<real>, mode: Mode,
                       trigger: Option<Trigger>, exits: Option<Exits>)

  /** The catalog and prices a plan is checked against. */
  datatype Context = Context(perps: set<string>, spots: set<string>, maxLeverage: Option<int>, mid: Option<real>,
                             minNotional: real)

  // Python truthiness of optional numbers and strings.
  predicate Truthy(x: Option<real>) { x.Some? && x.value != 0.0 }
  function Or(x: Option<real>, default: real): real { if Truthy(x) then x.value else default }
  predicate Named(p: Option<string>) { p.Some? && p.value != "" }
  predicate AtMost(x: Option<real>, bound: real) { x.Some? && x.value <= bound }
  predicate Percent(x: Option<real>) { x.Some? ==> 0.0 < x.value <= 100.0 }

  datatype Problem =
    | BadAlgo | BadMarket | MissingSide | BadMode
    | MissingProduct | SpotOnly | UnknownPerp | PerpOnly | UnknownSpot
    | MissingSize | SizeNotPositive | QuoteNotPositive | TwoSizes | BelowMinimum
    | SpotLeverage | SpotTrailing | LeverageTooLow | LeverageTooHigh
    | NeedsLimitPrice | TwapTooShort | TwapTooLong | IntervalTooShort | TooManySlices | TwapWithLimit
    | BadTrigger | TriggerNeedsPrice | TriggerNeedsPct | PctTooLarge | TriggerNeedsDelay | DelayTooLong
    | BadTakeProfit | BadStopLoss | BadTrailing | BadTakeProfitPrice | BadStopLossPrice
    | TwoTakeProfits | TwoStopLosses | ExitsOnSpotSell

  /** How many intervals a duration holds. */
  function SliceRatio(minutes: real, interval: real): real
    requires interval != 0.0
  {
    minutes * 60.0 / interval
  }

  // ----- what a sound plan is ----------------------------------------------

  predicate SoundHeader(p: Plan) {
    !p.algo.OtherAlgo? && !p.market.OtherMarket? && !p.mode.OtherMode? && p.side.Some? && !p.side.value.OtherSide?
  }

  /** The product trades on the market the plan names. */
  predicate Tradable(p: Plan, ctx: Context) {
    && Named(p.product) && (p.market.Perp? ==> p.product.value in ctx.perps)
    && (p.market.Spot? ==> p.product.value in ctx.spots)
  }

  /** Exactly one positive size, worth the minimum where that can be told. */
  predicate SoundSize(p: Plan, ctx: Context) {
    match (p.sizeBase, p.sizeQuote)
    case (Some(b), None) => b > 0.0 && (Truthy(ctx.mid) ==> b * ctx.mid.value >= ctx.minNotional)
    case (None, Some(q)) => q > 0.0 && q >= ctx.minNotional
    case _ => false
  }

  predicate SoundLeverage(p: Plan, ctx: Context) {
    if p.market.Spot? then p.leverage.Some? ==> p.leverage.value <= 1
    else p.leverage.Some? ==>
      && p.leverage.value >= 1
      && (ctx.maxLeverage.Some? && ctx.maxLeverage.value != 0 ==> p.leverage.value <= ctx.maxLeverage.value)
  }

  predicate SoundSchedule(p: Plan) {
    match p.algo
    case LimitOrder => p.limitPrice.Some? && p.limitPrice.value > 0.0
    case Twap =>
      var minutes, interval := Or(p.duration, 0.0), Or(p.interval, DEFAULT_INTERVAL);
      && MIN_TWAP_MINUTES <= minutes <= MAX_PLAN_MINUTES && interval >= MIN_INTERVAL
      && SliceRatio(minutes, interval) <= MAX_SLICES && p.limitPrice.None?
    case _ => true
  }

  predicate SoundTrigger(t: Trigger) {
    match t.kind
    case PctMove => t.pct.Some? && t.pct.value != 0.0 && -50.0 <= t.pct.value <= 50.0
    case AtTime =>
      && ((t.delay.Some? && t.delay.value > 0.0) || Truthy(t.fireAt))
      && (t.delay.Some? ==> t.delay.value <= MAX_WAIT_MINUTES)
    case OtherKind(_) => false
    case _ => t.price.Some? && t.price.value > 0.0
  }

  predicate SoundLevels(x: Exits) {
    Percent(x.tpPct) && Percent(x.slPct) && Percent(x.trailing) && !AtMost(x.tpPrice, 0.0) && !AtMost(x.slPrice, 0.0)
  }

  predicate SoundExits(p: Plan, x: Exits) {
    x.Empty() ||
    (&& SoundLevels(x)
     && (x.tpPct.None? || x.tpPrice.None?) && (x.slPct.None? || x.slPrice.None?)
     && (p.market.Spot? ==> p.side != Some(Sell)))
  }

  predicate Sound(p: Plan, ctx: Context) {
    && SoundHeader(p) && Tradable(p, ctx) && SoundSize(p, ctx) && SoundLeverage(p, ctx) && SoundSchedule(p)
    && (p.trigger.Some? ==> SoundTrigger(p.trigger.value))
    && (p.exits.Some? ==> SoundExits(p, p.exits.value) && (p.market.Spot? ==> p.exits.value.trailing.None?))
  }

  // ----- validation, one list of problems grown step by step ---------------

  predicate WrongHeader(q: Problem, p: Plan) {
    match q
    case BadAlgo => p.algo.OtherAlgo?
    case BadMarket => p.market.OtherMarket?
    case MissingSide => p.side.None? || p.side.value.OtherSide?
    case BadMode => p.mode.OtherMode?
    case _ => false
  }

  predicate WrongProduct(q: Problem, p: Plan, ctx: Context) {
    match q
    case MissingProduct => !Named(p.product)
    case SpotOnly => Named(p.product) && p.market.Perp? && p.product.value in ctx.spots - ctx.perps
    case UnknownPerp => Named(p.product) && p.market.Perp? && p.product.value !in ctx.spots + ctx.perps
    case PerpOnly => Named(p.product) && p.market.Spot? && p.product.value in ctx.perps - ctx.spots
    case UnknownSpot => Named(p.product) && p.market.Spot? && p.product.value !in ctx.spots + ctx.perps
    case _ => false
  }

  predicate WrongSize(q: Problem, p: Plan, ctx: Context) {
    match q
    case MissingSize => p.sizeBase.None? && p.sizeQuote.None?
    case SizeNotPositive => AtMost(p.sizeBase, 0.0)
    case QuoteNotPositive => AtMost(p.sizeQuote, 0.0)
    case TwoSizes => p.sizeBase.Some? && p.sizeQuote.Some?
    case BelowMinimum =>
      || (Truthy(ctx.mid) && p.sizeBase.Some? && p.sizeBase.value * ctx.mid.value < ctx.minNotional)
      || (p.sizeQuote.Some? && p.sizeQuote.value < ctx.minNotional)
    case _ => false
  }

  predicate WrongForMarket(q: Problem, p: Plan, ctx: Context) {
    match q
    case SpotLeverage => p.market.Spot? && p.leverage.Some? && p.leverage.value > 1
    case SpotTrailing => p.market.Spot? && p.exits.Some? && p.exits.value.trailing.Some?
    case LeverageTooLow => !p.market.Spot? && p.leverage.Some? && p.leverage.value < 1
    case LeverageTooHigh =>
      && !p.market.Spot? && p.leverage.Some? && p.leverage.value >= 1
      && ctx.maxLeverage.Some? && ctx.maxLeverage.value != 0 && p.leverage.value > ctx.maxLeverage.value
    case _ => false
  }

  predicate WrongSchedule(q: Problem, p: Plan) {
    match q
    case NeedsLimitPrice => p.algo.LimitOrder? && (p.limitPrice.None? || p.limitPrice.value <= 0.0)
    case TwapTooShort => p.algo.Twap? && Or(p.duration, 0.0) < MIN_TWAP_MINUTES
    case TwapTooLong => p.algo.Twap? && Or(p.duration, 0.0) > MAX_PLAN_MINUTES
    case IntervalTooShort => p.algo.Twap? && Or(p.interval, DEFAULT_INTERVAL) < MIN_INTERVAL
    case TooManySlices =>
      && p.algo.Twap? && Truthy(p.duration)
      && Or(p.interval, DEFAULT_INTERVAL) >= MIN_INTERVAL
      && SliceRatio(p.duration.value, Or(p.interval, DEFAULT_INTERVAL)) > MAX_SLICES
    case TwapWithLimit => p.algo.Twap? && p.limitPrice.Some?
    case _ => false
  }

  predicate WrongTrigger(q: Problem, t: Trigger) {
    match q
    case BadTrigger => t.kind.OtherKind?
    case TriggerNeedsPrice =>
      (t.kind.PriceAbove? || t.kind.PriceBelow? || t.kind.PriceCross?) && (t.price.None? || t.price.value <= 0.0)
    case TriggerNeedsPct => t.kind.PctMove? && !Truthy(t.pct)
    case PctTooLarge => t.kind.PctMove? && t.pct.Some? && !(-50.0 <= t.pct.value <= 50.0)
    case TriggerNeedsDelay => t.kind.AtTime? && !Truthy(t.fireAt) && (t.delay.None? || t.delay.value <= 0.0)
    case DelayTooLong => t.kind.AtTime? && t.delay.Some? && t.delay.value > MAX_WAIT_MINUTES
    case _ => false
  }

  predicate WrongExits(q: Problem, p: Plan, x: Exits) {
    match q
    case TwoTakeProfits => x.tpPct.Some? && x.tpPrice.Some?
    case TwoStopLosses => x.slPct.Some? && x.slPrice.Some?
    case ExitsOnSpotSell => !x.Empty() && p.market.Spot? && p.side == Some(Sell)
    case _ => WrongLevel(q, x)
  }

  /** When each problem is to be reported. */
  predicate Wrong(q: Problem, p: Plan, ctx: Context) {
    || WrongHeader(q, p) || WrongProduct(q, p, ctx) || WrongSize(q, p, ctx) || WrongForMarket(q, p, ctx)
    || WrongSchedule(q, p)
    || (p.trigger.Some? && WrongTrigger(q, p.trigger.value))
    || (p.exits.Some? && WrongExits(q, p, p.exits.value))
  }

  method CheckHeader(p: Plan) returns (problems: seq<Problem>)
    ensures forall q :: q in problems <==> WrongHeader(q, p)
    ensures problems == [] <==> SoundHeader(p)
  {
    hide SoundHeader;
    problems := [];
    if p.algo.OtherAlgo? { problems := problems + [BadAlgo]; }
    if p.market.OtherMarket? { problems := problems + [BadMarket]; }
    if p.side.None? || p.side.value.OtherSide? { problems := problems + [MissingSide]; }
    if p.mode.OtherMode? { problems := problems + [BadMode]; }
    assert problems != [] ==> problems[0] in problems;
    HeaderIff(p);
  }

  method CheckProduct(p: Plan, ctx: Context) returns (problems: seq<Problem>)
    ensures forall q :: q in problems <==> WrongProduct(q, p, ctx)
    ensures problems == [] <==> Tradable(p, ctx)
  {
    hide Tradable;
    problems := [];
    if !Named(p.product) {
      problems := problems + [MissingProduct];
    } else if p.market.Perp? && p.product.value !in ctx.perps {
      problems := problems + [if p.product.value in ctx.spots then SpotOnly else UnknownPerp];
    } else if p.market.Spot? && p.product.value !in ctx.spots {
      problems := problems + [if p.product.value in ctx.perps then PerpOnly else UnknownSpot];
    }
    assert problems != [] ==> problems[0] in problems;
    ProductIff(p, ctx);
  }

  method CheckSize(p: Plan, ctx: Context) returns (problems: seq<Problem>)
    ensures forall q :: q in problems <==> WrongSize(q, p, ctx)
    ensures problems == [] <==> SoundSize(p, ctx)
  {
    hide SoundSize;
    problems := [];
    if p.sizeBase.None? && p.sizeQuote.None? {
      problems := problems + [MissingSize];
    } else {
      if AtMost(p.sizeBase, 0.0) { problems := problems + [SizeNotPositive]; }
      if AtMost(p.sizeQuote, 0.0) { problems := problems + [QuoteNotPositive]; }
      if p.sizeBase.Some? && p.sizeQuote.Some? { problems := problems + [TwoSizes]; }
    }
    if Truthy(ctx.mid) && p.sizeBase.Some? {
      if p.sizeBase.value * ctx.mid.value < ctx.minNotional { problems := problems + [BelowMinimum]; }
    }
    if p.sizeQuote.Some? && p.sizeQuote.value < ctx.minNotional { problems := problems + [BelowMinimum]; }
    assert problems != [] ==> problems[0] in problems;
    SizeIff(p, ctx);
  }

  method CheckMarket(p: Plan, ctx: Context) returns (problems: seq<Problem>)
    ensures forall q :: q in problems <==> WrongForMarket(q, p, ctx)
    ensures problems == []
            <==> SoundLeverage(p, ctx) && (p.market.Spot? && p.exits.Some? ==> p.exits.value.trailing.None?)
  {
    hide SoundLeverage;
    problems := [];
    if p.market.Spot? {
      if p.leverage.Some? && p.leverage.value > 1 { problems := problems + [SpotLeverage]; }
      if p.exits.Some? && p.exits.value.trailing.Some? { problems := problems + [SpotTrailing]; }
    } else if p.leverage.Some? {
      if p.leverage.value < 1 {
        problems := problems + [LeverageTooLow];
      } else if ctx.maxLeverage.Some? && ctx.maxLeverage.value != 0 && p.leverage.value > ctx.maxLeverage.value {
        problems := problems + [LeverageTooHigh];
      }
    }
    assert problems != [] ==> problems[0] in problems;
    MarketIff(p, ctx);
  }

  method CheckAlgo(p: Plan) returns (problems: seq<Problem>)
    ensures forall q :: q in problems <==> WrongSchedule(q, p)
    ensures problems == [] <==> SoundSchedule(p)
  {
    hide SoundSchedule, SliceRatio;
    problems := [];
    if p.algo.LimitOrder? && (p.limitPrice.None? || p.limitPrice.value <= 0.0) {
      problems := problems + [NeedsLimitPrice];
    }
    if p.algo.Twap? {
      assert problems == [];
      var minutes := Or(p.duration, 0.0);
      if minutes < MIN_TWAP_MINUTES {
        problems := problems + [TwapTooShort];
      } else if minutes > MAX_PLAN_MINUTES {
        problems := problems + [TwapTooLong];
      }
      var interval := Or(p.interval, DEFAULT_INTERVAL);
      if interval < MIN_INTERVAL {
        problems := problems + [IntervalTooShort];
      } else if minutes != 0.0 && SliceRatio(minutes, interval) > MAX_SLICES {
        problems := problems + [TooManySlices];
      }
      if p.limitPrice.Some? { problems := problems + [TwapWithLimit]; }
    }
    assert problems != [] ==> problems[0] in problems;
    ScheduleIff(p);
  }

  method CheckTrigger(t: Trigger) returns (problems: seq<Problem>)
    ensures forall q :: q in problems <==> WrongTrigger(q, t)
    ensures problems == [] <==> SoundTrigger(t)
  {
    hide SoundTrigger;
    problems := [];
    if t.kind.OtherKind? {
      problems := problems + [BadTrigger];
    } else if t.kind.PriceAbove? || t.kind.PriceBelow? || t.kind.PriceCross? {
      if t.price.None? || t.price.value <= 0.0 { problems := problems + [TriggerNeedsPrice]; }
    } else if t.kind.PctMove? {
      if t.pct.None? || t.pct.value == 0.0 {
        problems := problems + [TriggerNeedsPct];
      } else if t.pct.value > 50.0 || t.pct.value < -50.0 {
        problems := problems + [PctTooLarge];
      }
    } else if t.kind.AtTime? {
      if (t.delay.None? || t.delay.value <= 0.0) && !Truthy(t.fireAt) {
        problems := problems + [TriggerNeedsDelay];
      } else if t.delay.Some? && t.delay.value > MAX_WAIT_MINUTES {
        problems := problems + [DelayTooLong];
      }
    }
    assert problems != [] ==> problems[0] in problems;
    TriggerIff(t);
  }

  /** The loop over the percentages. */
  method CheckPercents(xs: seq<(Problem, Option<real>)>) returns (problems: seq<Problem>)
    ensures forall q :: q in problems <==> exists j :: 0 <= j < |xs| && xs[j].0 == q && !Percent(xs[j].1)
  {
    problems := [];
    for i := 0 to |xs|
      invariant forall q :: q in problems <==> exists j :: 0 <= j < i && xs[j].0 == q && !Percent(xs[j].1)
    {
      var pct := xs[i].1;
      if pct.Some? && !(0.0 < pct.value <= 100.0) { problems := problems + [xs[i].0]; }
    }
  }

  /** The loop over the prices. */
  method CheckPrices(xs: seq<(Problem, Option<real>)>) returns (problems: seq<Problem>)
    ensures forall q :: q in problems <==> exists j :: 0 <= j < |xs| && xs[j].0 == q && AtMost(xs[j].1, 0.0)
  {
    problems := [];
    for i := 0 to |xs|
      invariant forall q :: q in problems <==> exists j :: 0 <= j < i && xs[j].0 == q && AtMost(xs[j].1, 0.0)
    {
      if AtMost(xs[i].1, 0.0) { problems := problems + [xs[i].0]; }
    }
  }

  method CheckExits(p: Plan, x: Exits) returns (problems: seq<Problem>)
    ensures forall q :: q in problems <==> WrongExits(q, p, x)
    ensures problems == [] <==> SoundExits(p, x)
  {
    hide SoundExits;
    problems := [];
    if !x.Empty() {
      problems := CheckLevels(x);
      if x.tpPct.Some? && x.tpPrice.Some? { problems := problems + [TwoTakeProfits]; }
      if x.slPct.Some? && x.slPrice.Some? { problems := problems + [TwoStopLosses]; }
      if p.market.Spot? && p.side == Some(Sell) { problems := problems + [ExitsOnSpotSell]; }
    }
    assert problems != [] ==> problems[0] in problems;
    ExitsIff(p, x);
  }

  predicate WrongLevel(q: Problem, x: Exits) {
    match q
    case BadTakeProfit => !Percent(x.tpPct)
    case BadStopLoss => !Percent(x.slPct)
    case BadTrailing => !Percent(x.trailing)
    case BadTakeProfitPrice => AtMost(x.tpPrice, 0.0)
    case BadStopLossPrice => AtMost(x.slPrice, 0.0)
    case _ => false
  }

  /** The two loops over the exit levels. */
  method CheckLevels(x: Exits) returns (problems: seq<Problem>)
    ensures forall q :: q in problems <==> WrongLevel(q, x)
  {
    hide Percent, AtMost;
    var percents := [(BadTakeProfit, x.tpPct), (BadStopLoss, x.slPct), (BadTrailing, x.trailing)];
    var prices := [(BadTakeProfitPrice, x.tpPrice), (BadStopLossPrice, x.slPrice)];
    var pcts := CheckPercents(percents);
    var pxs := CheckPrices(prices);
    assert percents[0].0 == BadTakeProfit && percents[1].0 == BadStopLoss && percents[2].0 == BadTrailing;
    assert prices[0].0 == BadTakeProfitPrice && prices[1].0 == BadStopLossPrice;
    problems := pcts + pxs;
  }

  /** validate_plan: the list names exactly what is wrong, and is empty exactly for sound plans. */
  method ValidatePlan(p: Plan, ctx: Context) returns (problems: seq<Problem>)
    ensures forall q :: q in problems <==> Wrong(q, p, ctx)
    ensures problems == [] <==> Sound(p, ctx)
  {
    hide Wrong, WrongHeader, WrongProduct, WrongSize, WrongForMarket, WrongSchedule, WrongTrigger, WrongExits;
    problems := CheckHeader(p);
    var more := CheckProduct(p, ctx);
    problems := problems + more;
    more := CheckSize(p, ctx);
    problems := problems + more;
    more := CheckMarket(p, ctx);
    problems := problems + more;
    more := CheckAlgo(p);
    problems := problems + more;
    if p.trigger.Some? {
      more := CheckTrigger(p.trigger.value);
      problems := problems + more;
    }
    if p.exits.Some? {
      more := CheckExits(p, p.exits.value);
      problems := problems + more;
    }
    WrongMeans(p, ctx);
    SoundIff(p, ctx);
    assert problems != [] ==> problems[0] in problems;
  }

  lemma WrongMeans(p: Plan, ctx: Context)
    ensures forall q :: Wrong(q, p, ctx) <==>
      || WrongHeader(q, p) || WrongProduct(q, p, ctx) || WrongSize(q, p, ctx) || WrongForMarket(q, p, ctx)
      || WrongSchedule(q, p)
      || (p.trigger.Some? && WrongTrigger(q, p.trigger.value))
      || (p.exits.Some? && WrongExits(q, p, p.exits.value))
  {
  }

  /** A plan is sound exactly when nothing is wrong with it. */
  lemma SoundIff(p: Plan, ctx: Context)
    ensures Sound(p, ctx) <==> forall q :: !Wrong(q, p, ctx)
  {
    hide Wrong, WrongHeader, WrongProduct, WrongSize, WrongForMarket, WrongSchedule, WrongTrigger, WrongExits,
         SoundHeader, Tradable, SoundSize, SoundLeverage, SoundSchedule, SoundTrigger, SoundExits;
    WrongMeans(p, ctx);
    HeaderIff(p);
    ProductIff(p, ctx);
    SizeIff(p, ctx);
    MarketIff(p, ctx);
    ScheduleIff(p);
    if p.trigger.Some? { TriggerIff(p.trigger.value); }
    if p.exits.Some? { ExitsIff(p, p.exits.value); }
  }

  lemma HeaderIff(p: Plan)
    ensures SoundHeader(p) <==> forall q :: !WrongHeader(q, p)
  {
    assert (forall q :: !WrongHeader(q, p)) ==>
          && !WrongHeader(BadAlgo, p) && !WrongHeader(BadMarket, p) && !WrongHeader(MissingSide, p)
          && !WrongHeader(BadMode, p);
  }

  lemma ProductIff(p: Plan, ctx: Context)
    ensures Tradable(p, ctx) <==> forall q :: !WrongProduct(q, p, ctx)
  {
    assert (forall q :: !WrongProduct(q, p, ctx)) ==>
          && !WrongProduct(MissingProduct, p, ctx) && !WrongProduct(SpotOnly, p, ctx)
          && !WrongProduct(UnknownPerp, p, ctx)
          && !WrongProduct(PerpOnly, p, ctx) && !WrongProduct(UnknownSpot, p, ctx);
  }

  lemma SizeIff(p: Plan, ctx: Context)
    ensures SoundSize(p, ctx) <==> forall q :: !WrongSize(q, p, ctx)
  {
    assert (forall q :: !WrongSize(q, p, ctx)) ==>
          && !WrongSize(MissingSize, p, ctx) && !WrongSize(SizeNotPositive, p, ctx)
          && !WrongSize(QuoteNotPositive, p, ctx) && !WrongSize(TwoSizes, p, ctx)
          && !WrongSize(BelowMinimum, p, ctx);
  }

  lemma MarketIff(p: Plan, ctx: Context)
    ensures SoundLeverage(p, ctx) && (p.market.Spot? && p.exits.Some? ==> p.exits.value.trailing.None?)
            <==> forall q :: !WrongForMarket(q, p, ctx)
  {
    assert (forall q :: !WrongForMarket(q, p, ctx)) ==>
          && !WrongForMarket(SpotLeverage, p, ctx) && !WrongForMarket(SpotTrailing, p, ctx)
          && !WrongForMarket(LeverageTooLow, p, ctx) && !WrongForMarket(LeverageTooHigh, p, ctx);
  }

  lemma ScheduleIff(p: Plan)
    ensures SoundSchedule(p) <==> forall q :: !WrongSchedule(q, p)
  {
    assert (forall q :: !WrongSchedule(q, p)) ==>
          && !WrongSchedule(NeedsLimitPrice, p) && !WrongSchedule(TwapTooShort, p) && !WrongSchedule(TwapTooLong, p)
          && !WrongSchedule(IntervalTooShort, p)
          && !WrongSchedule(TooManySlices, p) && !WrongSchedule(TwapWithLimit, p);
  }

  lemma TriggerIff(t: Trigger)
    ensures SoundTrigger(t) <==> forall q :: !WrongTrigger(q, t)
  {
    assert (forall q :: !WrongTrigger(q, t)) ==>
          && !WrongTrigger(BadTrigger, t) && !WrongTrigger(TriggerNeedsPrice, t) && !WrongTrigger(TriggerNeedsPct, t)
          && !WrongTrigger(PctTooLarge, t)
          && !WrongTrigger(TriggerNeedsDelay, t) && !WrongTrigger(DelayTooLong, t);
  }

  lemma LevelsIff(x: Exits)
    ensures SoundLevels(x) <==> forall q :: !WrongLevel(q, x)
    ensures x.Empty() ==> SoundLevels(x)
  {
    assert (forall q :: !WrongLevel(q, x)) ==>
          && !WrongLevel(BadTakeProfit, x) && !WrongLevel(BadStopLoss, x) && !WrongLevel(BadTrailing, x)
          && !WrongLevel(BadTakeProfitPrice, x) && !WrongLevel(BadStopLossPrice, x);
  }

  lemma ExitsIff(p: Plan, x: Exits)
    ensures SoundExits(p, x) <==> forall q :: !WrongExits(q, p, x)
  {
    hide SoundLevels, WrongLevel;
    LevelsIff(x);
    if forall q :: !WrongExits(q, p, x) {
      assert !WrongExits(TwoTakeProfits, p, x) && !WrongExits(TwoStopLosses, p, x)
          && !WrongExits(ExitsOnSpotSell, p, x);
      forall q ensures !WrongLevel(q, x) {
        LevelsOnly(q, x);
        assert !WrongExits(q, p, x);
      }
    }
  }

  lemma LevelsOnly(q: Problem, x: Exits)
    ensures WrongLevel(q, x) ==> !q.TwoTakeProfits? && !q.TwoStopLosses? && !q.ExitsOnSpotSell?
  {
  }

  // ----- slices ------------------------------------------------------------

  function TwapSlices(p: Plan): Option<int> {
    if !p.algo.Twap? || !Truthy(p.duration) || !Truthy(p.interval) then None
    else
      var n := SliceRatio(p.duration.value, p.interval.value).Floor;
      Some(if n < 1 then 1 else n)
  }

  lemma Ratio(a: real, b: real, n: int)
    requires b > 0.0 && n == (a / b).Floor
    ensures n as real * b <= a < (n + 1) as real * b
  {
    var q := a / b;
    assert q * b == a;
    var under, over := q - n as real, (n + 1) as real - q;
    assert under * b >= 0.0 && over * b > 0.0;
    assert under * b == a - n as real * b;
    assert over * b == (n + 1) as real * b - a;
  }

  /** A validated TWAP that names an interval has 1 to 2000 slices: as many whole intervals as fit
      in its duration, or one. */
  lemma SlicesWithinLimits(p: Plan, ctx: Context)
    requires Sound(p, ctx) && p.algo.Twap?
    ensures TwapSlices(p).Some? <==> Truthy(p.interval)
    ensures Truthy(p.interval) ==>
      var n, seconds, interval := TwapSlices(p).value, p.duration.value * 60.0, p.interval.value;
      && 1 <= n <= 2000
      && seconds < (n + 1) as real * interval
      && (interval <= seconds ==> n as real * interval <= seconds)
      && (interval > seconds ==> n == 1)
  {
    if Truthy(p.interval) {
      var seconds, interval := p.duration.value * 60.0, p.interval.value;
      var n := (seconds / interval).Floor;
      Ratio(seconds, interval, n);
      if n < 1 { NonPositiveCount(n, seconds, interval); } else { AtLeastOne(n, interval); }
    }
  }

  lemma AtLeastOne(n: int, b: real)
    requires b > 0.0 && n >= 1
    ensures n as real * b >= b
  {
    assert (n - 1) as real * b >= 0.0;
    assert n as real * b == (n - 1) as real * b + b;
  }

  lemma NonPositiveCount(n: int, a: real, b: real)
    requires b > 0.0 && n <= 0 && a < (n + 1) as real * b
    ensures a < b
  {
    assert (-n) as real * b >= 0.0;
    assert (n + 1) as real * b == b - (-n) as real * b;
  }

  /** The published limits of a TWAP: 2 minutes to seven days, slices at least 10 seconds apart (30
      unless said otherwise), 2000 of them at most, and no limit price. */
  lemma TwapLimits(p: Plan)
    requires p.algo.Twap?
    ensures var minutes := if p.duration.Some? then p.duration.value else 0.0;
            var seconds := if p.interval.Some? && p.interval.value != 0.0 then p.interval.value else 30.0;
            SoundSchedule(p) <==>
              && 2.0 <= minutes <= 7.0 * 24.0 * 60.0 && seconds >= 10.0
              && minutes * 60.0 <= 2000.0 * seconds && p.limitPrice.None?
  {
    var minutes, seconds := Or(p.duration, 0.0), Or(p.interval, 30.0);
    if seconds >= 10.0 { RatioAtMost(minutes * 60.0, seconds, 2000.0); }
  }

  lemma RatioAtMost(a: real, b: real, n: real)
    requires b > 0.0
    ensures a / b <= n <==> a <= n * b
  {
    var q := a / b;
    assert q * b == a;
    if q <= n { assert (n - q) * b >= 0.0; } else { assert (q - n) * b > 0.0; }
  }

  /** What each kind of problem names. At most one problem is named about the product, and it says
      truly whether the other market has it. */
  lemma ProductProblems(p: Plan, ctx: Context, q: Problem, q': Problem)
    requires WrongProduct(q, p, ctx)
    ensures WrongProduct(q', p, ctx) ==> q' == q
    ensures q == MissingProduct <==> p.product == None || p.product == Some("")
    ensures q != MissingProduct ==>
              && (p.market.Perp? || p.market.Spot?)
              && p.product.value !in (if p.market.Perp? then ctx.perps else ctx.spots)
              && (q in {SpotOnly, PerpOnly} <==> p.product.value in (if p.market.Perp? then ctx.spots else ctx.perps))
              && (q in {SpotOnly, UnknownPerp} <==> p.market.Perp?)
  {
  }

  /** The side of a limit each size problem is on. */
  lemma SizeProblems(p: Plan, ctx: Context)
    ensures WrongSize(SizeNotPositive, p, ctx) <==> p.sizeBase.Some? && !(p.sizeBase.value > 0.0)
    ensures WrongSize(QuoteNotPositive, p, ctx) <==> p.sizeQuote.Some? && !(p.sizeQuote.value > 0.0)
    ensures WrongSize(MissingSize, p, ctx) <==> p.sizeBase == None && p.sizeQuote == None
    ensures WrongSize(TwoSizes, p, ctx) <==> p.sizeBase != None && p.sizeQuote != None
    ensures WrongSize(BelowMinimum, p, ctx) <==>
              || (p.sizeQuote.Some? && ctx.minNotional > p.sizeQuote.value)
              || (p.sizeBase.Some? && ctx.mid.Some? && ctx.mid.value != 0.0
                  && ctx.minNotional > p.sizeBase.value * ctx.mid.value)
  {
  }

  /** And each leverage problem. */
  lemma MarketProblems(p: Plan, ctx: Context)
    ensures WrongForMarket(SpotLeverage, p, ctx) <==> p.market == Spot && p.leverage.Some? && p.leverage.value > 1
    ensures WrongForMarket(SpotTrailing, p, ctx) <==>
              p.market == Spot && p.exits.Some? && p.exits.value.trailing != None
    ensures WrongForMarket(LeverageTooLow, p, ctx) <==> p.market != Spot && p.leverage.Some? && p.leverage.value < 1
    ensures WrongForMarket(LeverageTooHigh, p, ctx) <==>
              && p.market != Spot && p.leverage.Some? && ctx.maxLeverage.Some? && ctx.maxLeverage.value != 0
              && p.leverage.value > ctx.maxLeverage.value && p.leverage.value >= 1
  {
  }

  /** And each problem with exit levels, in percent or as prices. */
  lemma PercentProblems(p: Plan, x: Exits)
    ensures WrongExits(BadTakeProfit, p, x) <==> x.tpPct.Some? && !(0.0 < x.tpPct.value <= 100.0)
    ensures WrongExits(BadStopLoss, p, x) <==> x.slPct.Some? && !(0.0 < x.slPct.value <= 100.0)
    ensures WrongExits(BadTrailing, p, x) <==> x.trailing.Some? && !(0.0 < x.trailing.value <= 100.0)
  {
  }

  lemma PriceProblems(p: Plan, x: Exits)
    ensures WrongExits(BadTakeProfitPrice, p, x) <==> x.tpPrice.Some? && !(x.tpPrice.value > 0.0)
    ensures WrongExits(BadStopLossPrice, p, x) <==> x.slPrice.Some? && !(x.slPrice.value > 0.0)
  {
  }

  lemma DoubleExits(p: Plan, x: Exits)
    ensures WrongExits(TwoTakeProfits, p, x) <==> x.tpPct != None && x.tpPrice != None
    ensures WrongExits(TwoStopLosses, p, x) <==> x.slPct != None && x.slPrice != None
  {
  }

  /** The side of a limit each schedule problem is on, by the published numbers. */
  lemma ScheduleProblems(p: Plan)
    ensures var minutes := if p.duration.Some? then p.duration.value else 0.0;
            var seconds := if p.interval.Some? && p.interval.value != 0.0 then p.interval.value else 30.0;
            && (WrongSchedule(TwapTooShort, p) <==> p.algo == Twap && minutes < 2.0)
            && (WrongSchedule(TwapTooLong, p) <==> p.algo == Twap && minutes > 7.0 * 24.0 * 60.0)
            && (WrongSchedule(IntervalTooShort, p) <==> p.algo == Twap && seconds < 10.0)
            && (WrongSchedule(TooManySlices, p) <==>
                  p.algo == Twap && seconds >= 10.0 && minutes * 60.0 > 2000.0 * seconds)
            && (WrongSchedule(TwapWithLimit, p) <==> p.algo == Twap && p.limitPrice != None)
            && (WrongSchedule(NeedsLimitPrice, p) <==>
                  p.algo == LimitOrder && !(p.limitPrice.Some? && p.limitPrice.value > 0.0))
  {
    var seconds := if p.interval.Some? && p.interval.value != 0.0 then p.interval.value else 30.0;
    if p.duration.Some? && seconds >= 10.0 { RatioAtMost(p.duration.value * 60.0, seconds, 2000.0); }
  }

  /** And each trigger problem. */
  lemma TriggerProblems(t: Trigger)
    ensures WrongTrigger(TriggerNeedsPct, t) <==> t.kind == PctMove && (t.pct == None || t.pct == Some(0.0))
    ensures WrongTrigger(PctTooLarge, t) <==>
              t.kind == PctMove && t.pct.Some? && (t.pct.value < -50.0 || t.pct.value > 50.0)
    ensures WrongTrigger(TriggerNeedsDelay, t) <==>
              t.kind == AtTime && (t.fireAt == None || t.fireAt == Some(0.0)) && !(t.delay.Some? && t.delay.value > 0.0)
    ensures WrongTrigger(DelayTooLong, t) <==> t.kind == AtTime && t.delay.Some? && t.delay.value > 7.0 * 24.0 * 60.0
    ensures WrongTrigger(TriggerNeedsPrice, t) <==>
              t.kind in {PriceAbove, PriceBelow, PriceCross} && !(t.price.Some? && t.price.value > 0.0)
  {
  }

  // ----- triggers ----------------------------------------------------------

  /** resolve_trigger at confirm. */
  function Resolve(t: Trigger, arrival: real, now: real): Trigger {
    if t.kind.PctMove? && Truthy(t.pct) then
      Trigger(if t.pct.value > 0.0 then PriceAbove else PriceBelow,
              Some(arrival * (1.0 + t.pct.value / 100.0)), t.pct, None, None)
    else if t.kind.PriceCross? && Truthy(t.price) then
      Trigger(if t.price.value >= arrival then PriceAbove else PriceBelow, t.price, None, None, None)
    else if t.kind.AtTime? && t.fireAt.None? && Truthy(t.delay) then
      Trigger(AtTime, None, None, t.delay, Some(now + t.delay.value * 60.0))
    else t
  }

  /** trigger_satisfied at run time. */
  predicate Satisfied(t: Option<Trigger>, mid: real, now: real) {
    t.None? ||
    match t.value.kind
    case PriceAbove => t.value.price.Some? && mid >= t.value.price.value
    case PriceBelow => t.value.price.Some? && 0.0 < mid <= t.value.price.value
    case AtTime => t.value.fireAt.Some? && now >= t.value.fireAt.value
    case _ => false
  }

  /** A trigger the runtime check can ever say yes to. */
  predicate Decidable(t: Trigger) {
    || ((t.kind.PriceAbove? || t.kind.PriceBelow?) && t.price.Some? && t.price.value > 0.0)
    || (t.kind.AtTime? && t.fireAt.Some?)
  }

  lemma Scaled(arrival: real, pct: real)
    requires arrival > 0.0
    ensures arrival * (1.0 + pct / 100.0) == arrival + arrival * pct / 100.0
    ensures pct > 0.0 ==> arrival * pct / 100.0 > 0.0
    ensures pct < 0.0 ==> arrival * pct / 100.0 < 0.0
    ensures pct >= -50.0 ==> arrival + arrival * pct / 100.0 > 0.0
  {
    var gain := arrival * pct;
    if pct > 0.0 { assert gain > 0.0; }
    if pct < 0.0 { assert arrival * (-pct) > 0.0; assert gain == -(arrival * (-pct)); }
    if pct >= -50.0 { assert arrival * (pct + 50.0) >= 0.0; assert arrival * (pct + 50.0) == gain + 50.0 * arrival; }
  }

  /** A sound trigger resolves at any positive price to one the runtime can decide. */
  lemma ResolvedIsDecidable(t: Trigger, arrival: real, now: real)
    requires SoundTrigger(t) && arrival > 0.0
    ensures Decidable(Resolve(t, arrival, now))
  {
    if t.kind.PctMove? { Scaled(arrival, t.pct.value); }
  }

  /** Resolving again, at whatever price and time, changes nothing: a restart is harmless. */
  lemma ResolveIdempotent(t: Trigger, arrival: real, now: real, arrival': real, now': real)
    ensures Resolve(Resolve(t, arrival, now), arrival', now') == Resolve(t, arrival, now)
  {
  }

  /** A percent move is never already satisfied at arrival and fires at a later positive price
      exactly when the price has moved that far in that direction. */
  lemma PctMoveFiresOnTheMove(t: Trigger, arrival: real, now: real, mid: real, later: real)
    requires SoundTrigger(t) && t.kind.PctMove? && arrival > 0.0 && mid > 0.0
    ensures Resolve(t, arrival, now).pct == t.pct
    ensures !Satisfied(Some(Resolve(t, arrival, now)), arrival, now)
    ensures Satisfied(Some(Resolve(t, arrival, now)), mid, later) <==>
            if t.pct.value > 0.0 then 100.0 * (mid - arrival) >= t.pct.value * arrival
            else 100.0 * (mid - arrival) <= t.pct.value * arrival
  {
    Scaled(arrival, t.pct.value);
    var gain := arrival * t.pct.value;
    assert gain == t.pct.value * arrival;
  }

  /** A price to cross is satisfied at arrival only when it is the arrival price, and later exactly
      when the price has reached it from the arrival side. */
  lemma CrossFiresFromArrivalSide(t: Trigger, arrival: real, now: real, mid: real, later: real)
    requires SoundTrigger(t) && t.kind.PriceCross? && arrival > 0.0 && mid > 0.0
    ensures Satisfied(Some(Resolve(t, arrival, now)), arrival, now) <==> arrival == t.price.value
    ensures Satisfied(Some(Resolve(t, arrival, now)), mid, later) <==>
            if arrival <= t.price.value then mid >= t.price.value else mid <= t.price.value
  {
  }

  /** Without a trigger a plan starts at once. A plain price to rise to or fall to is pinned as it is,
      and reached when the mid is at or beyond it, where a mid of 0 or less is no price to fall to; what
      has no level, or was never resolved, does not fire. */
  lemma LevelsFireWhenReached(t: Trigger, price: real, arrival: real, now: real, mid: real, later: real)
    ensures Satisfied(None, mid, later)
    ensures var above := t.(kind := PriceAbove, price := Some(price));
            Resolve(above, arrival, now) == above && (Satisfied(Some(above), mid, later) <==> mid >= price)
    ensures var below := t.(kind := PriceBelow, price := Some(price));
            && Resolve(below, arrival, now) == below
            && (Satisfied(Some(below), mid, later) <==> mid <= price && mid > 0.0)
    ensures t.price.None? && (t.kind.PriceAbove? || t.kind.PriceBelow?) ==> !Satisfied(Some(t), mid, later)
    ensures t.kind.AtTime? && t.fireAt.None? ==> !Satisfied(Some(t), mid, later)
    ensures t.kind.PctMove? || t.kind.PriceCross? || t.kind.OtherKind? ==> !Satisfied(Some(t), mid, later)
  {
  }

  /** A sound time trigger fires exactly from its absolute time on, if it carries one, which is taken
      as it stands and never compared with the clock; else from its delay on, which lies ahead and
      within the seven days a trigger may wait. */
  lemma TimeFiresAsAsked(t: Trigger, arrival: real, now: real, later: real)
    requires SoundTrigger(t) && t.kind.AtTime?
    ensures var at := if t.fireAt.Some? then t.fireAt.value else now + t.delay.value * 60.0;
            && (Satisfied(Some(Resolve(t, arrival, now)), arrival, later) <==> later >= at)
            && (t.fireAt.None? ==> now < at <= now + 7.0 * 24.0 * 3600.0)
  {
  }

  /** The check can pass a time trigger that is both past the seven days and ahead of its own delay. */
  lemma AbsoluteTimeUnchecked(now: real, fireAt: real)
    requires fireAt != 0.0
    ensures SoundTrigger(Trigger(AtTime, None, None, None, Some(fireAt)))
    ensures SoundTrigger(Trigger(AtTime, None, None, Some(60.0), Some(0.0)))
    ensures now >= 0.0 ==> Satisfied(Some(Resolve(Trigger(AtTime, None, None, Some(60.0), Some(0.0)), 1.0, now)),
                                     1.0, now)
  {
  }
}
