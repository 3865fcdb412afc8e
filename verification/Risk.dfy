/** The risk engine's gates. */
module Risk {
  import opened OrderedDicts

  datatype Limits = Limits(dailyPnlFloor: Option<real>, maxDrawdown: Option<real>, dailyCostCap: Option<real>,
                           maxOpen: Option<int>, maxOrder: Option<real>, maxPosition: Option<real>)

  datatype Telemetry = Telemetry(dailyPnl: real, exposure: real, executorCount: int, drawdown: real, dailyCost: real,
                                 anchor: Option<string>)

  datatype PositionAction = Open | Close

  datatype Request = Request(orderAmount: real, positionSize: real, reduceOnly: bool, action: Option<PositionAction>)

  datatype Block =
    | KillSwitch | DailyPnlFloor | MaxDrawdown | DailyCostCap
    | MaxOpenExecutors | MaxSingleOrder | MaxPositionSize

  /** A request that claims reduce_only while opening a position cannot be built. */
  predicate Constructible(q: Request) { q.reduceOnly && q.action.Some? ==> q.action.value.Close? }

  function RolledOver(s: Telemetry, today: string): Telemetry {
    if s.anchor == Some(today) then s else s.(dailyPnl := 0.0, dailyCost := 0.0, anchor := Some(today))
  }

  function PreTick(lim: Limits, engaged: bool, s: Telemetry): Option<Block> {
    if engaged then Some(KillSwitch)
    else if lim.dailyPnlFloor.Some? && s.dailyPnl <= lim.dailyPnlFloor.value then Some(DailyPnlFloor)
    else if lim.maxDrawdown.Some? && s.drawdown >= lim.maxDrawdown.value then Some(MaxDrawdown)
    else if lim.dailyCostCap.Some? && s.dailyCost >= lim.dailyCostCap.value then Some(DailyCostCap)
    else None
  }

  function PreExecutor(lim: Limits, engaged: bool, q: Request, s: Telemetry): Option<Block> {
    if engaged then Some(KillSwitch)
    else if lim.maxOpen.Some? && s.executorCount >= lim.maxOpen.value then Some(MaxOpenExecutors)
    else if q.reduceOnly then None
    else if lim.maxOrder.Some? && q.orderAmount > lim.maxOrder.value then Some(MaxSingleOrder)
    else if lim.maxPosition.Some? && q.positionSize > lim.maxPosition.value then Some(MaxPositionSize)
    else None
  }

  /** Within the limits a tick needs: a profit above the floor, a drawdown and a cost below the caps. */
  predicate DayInLimits(lim: Limits, s: Telemetry) {
    && (lim.dailyPnlFloor.Some? ==> s.dailyPnl > lim.dailyPnlFloor.value)
    && (lim.maxDrawdown.Some? ==> s.drawdown < lim.maxDrawdown.value)
    && (lim.dailyCostCap.Some? ==> s.dailyCost < lim.dailyCostCap.value)
  }

  /** A tick is let in exactly when no kill switch is on and the day is within every limit there is;
      otherwise the kill switch, then the floor, then the drawdown is named first. */
  lemma TickAllowedIff(lim: Limits, engaged: bool, s: Telemetry)
    ensures PreTick(lim, engaged, s).None? <==> !engaged && DayInLimits(lim, s)
    ensures PreTick(lim, engaged, s) == Some(KillSwitch) <==> engaged
    ensures PreTick(lim, engaged, s) == Some(DailyCostCap) <==>
              !engaged && !DayInLimits(lim, s) && DayInLimits(lim.(dailyCostCap := None), s)
    ensures PreTick(lim, engaged, s) == Some(DailyPnlFloor) <==>
              !engaged && lim.dailyPnlFloor.Some? && s.dailyPnl <= lim.dailyPnlFloor.value
    ensures PreTick(lim, engaged, s) !in {Some(MaxOpenExecutors), Some(MaxSingleOrder), Some(MaxPositionSize)}
  {
  }

  /** Shrinking a position is never held up by its size, and nothing that opens one escapes the size
      caps by claiming to shrink it. */
  lemma SizeCapsBindOpeners(lim: Limits, q: Request, s: Telemetry)
    requires Constructible(q)
    ensures q.action == Some(Open) ==> !q.reduceOnly
    ensures PreExecutor(lim, true, q, s) == Some(KillSwitch)
    ensures lim.maxOpen.Some? && s.executorCount >= lim.maxOpen.value ==>
              PreExecutor(lim, false, q, s) == Some(MaxOpenExecutors)
    ensures !q.reduceOnly && (lim.maxOpen.None? || s.executorCount < lim.maxOpen.value) ==>
              && (PreExecutor(lim, false, q, s).None? <==>
                    && (lim.maxOrder.Some? ==> q.orderAmount <= lim.maxOrder.value)
                    && (lim.maxPosition.Some? ==> q.positionSize <= lim.maxPosition.value))
              && (PreExecutor(lim, false, q, s) == Some(MaxSingleOrder) <==>
                    lim.maxOrder.Some? && q.orderAmount > lim.maxOrder.value)
    ensures q.reduceOnly ==>
              (PreExecutor(lim, false, q, s).None? <==> lim.maxOpen.None? || s.executorCount < lim.maxOpen.value)
    ensures q.action == Some(Open) && PreExecutor(lim, false, q, s).None? ==>
              && (lim.maxOrder.Some? ==> q.orderAmount <= lim.maxOrder.value)
              && (lim.maxPosition.Some? ==> q.positionSize <= lim.maxPosition.value)
  {
  }

  /** On a new day the daily gates start afresh: yesterday's loss or cost blocks no tick unless the
      limit would block a day without any. */
  lemma NewDayUnblocks(lim: Limits, s: Telemetry, today: string)
    requires s.anchor != Some(today)
    requires lim.dailyPnlFloor.Some? ==> lim.dailyPnlFloor.value < 0.0
    requires lim.dailyCostCap.Some? ==> lim.dailyCostCap.value > 0.0
    ensures RolledOver(s.(anchor := Some(today)), today) == s.(anchor := Some(today))
    ensures RolledOver(s, today) == s.(dailyPnl := 0.0, dailyCost := 0.0, anchor := Some(today))
    ensures PreTick(lim, false, RolledOver(s, today)).None?
            <==> lim.maxDrawdown.None? || s.drawdown < lim.maxDrawdown.value
  {
  }
}
