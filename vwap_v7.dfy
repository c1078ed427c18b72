/**
 * The VWAP strategy (version 0.0.0.7): trade one equity against its
 * volume-weighted average price. A one-minute candle that straddles the
 * VWAP and closes at or above it is a "positive broken candle"; the
 * strategy remembers the last one, buys with a market order sized to a
 * fixed risk when the price rises above such a candle's high, and exits
 * under the entry's five-minute low or above a 1:1 target. Near the close
 * open positions are liquidated by time, and an opening gap can switch
 * trading off for the day.
 *
 * The algorithm subscribes exactly one equity, so the model has one
 * trade model and the `OnData` loop over the subscribed symbols runs
 * once. The VWAP value and its readiness, the bar price, the clock and
 * whether the engine holds a position are inputs (a `Tick`); orders
 * come back as an `Outcome`, which also records the `ZeroDivisionError`
 * the script raises on a zero divisor.
 */
module VwapV7 {
  import opened Market

  /** Seconds per trading candle, also the cooldown after a trade. */
  const ConsolidateSecondsTime: int := 60
  const AccumulatePositiveTimeRan: int := 0
  /** Seconds per low-price candle. */
  const ConsolidateLowPriceTime: int := 300
  const RiskPerTrade: real := 200.0
  /** Capacities of the trading and low-price rolling windows. */
  const TradingWindowsSize: nat := 2
  const WindowLowPriceSize: nat := 1

  /** What one `OnData` call ends with: the order it asks for, or the exception it raises. */
  datatype Outcome = Done(action: Action) | ZeroDivisionError

  /**
   * The state `OnData` and the handlers read and write: the algorithm's
   * own fields, then the fields of the one equity's trade model.
   */
  datatype Snapshot = Snapshot(
    currentTradeDay: int,
    lastBrokenCandle: Option<Bar>,
    tradingWindows: RollingWindow,
    windowLowPrice: RollingWindow,
    liquidateState: LiquidateState,
    isAllowToTradeByTime: bool,
    lastEntryPrice: Option<real>,
    lastEntryLowPrice: Option<real>,
    lastDayClosePrice: Option<real>,
    lastTradeTime: Option<int>,
    isAllowToTradeByGapPercent: bool,
    defaultGapPercentAllowToTrade: real)
  {
    /** The windows have their configured capacities and the trade time is set, as `AddEquity` leaves it. */
    predicate Valid()
    {
      && tradingWindows.Valid() && tradingWindows.size == TradingWindowsSize
      && windowLowPrice.Valid() && windowLowPrice.size == WindowLowPriceSize
      && lastTradeTime.Some?
    }
  }

  /**
   * One data event for the equity: the day and time (seconds), the bar
   * price if the slice holds a bar for it, the VWAP indicator's value and
   * readiness, whether the engine holds a position, and the value the
   * script reads as the algorithm's `LastEntryPrice` in the ToWin rule
   * (an attribute the algorithm never assigns).
   */
  datatype Tick = Tick(day: int, now: int, price: Option<real>, vwap: real, vwapReady: bool,
                       invested: bool, algorithmLastEntryPrice: real)

  /** The state after one `OnData` call and how the call ended. */
  datatype StepResult = StepResult(after: Snapshot, outcome: Outcome)

  /** A candle that straddles the VWAP and closes at or above it. */
  predicate IsPositiveBrokenCandle(candle: Bar, vwap: real)
  {
    candle.high > vwap && candle.low < vwap && candle.close >= vwap
  }

  /** `UpdateLastBrokenCandle`: drop the remembered candle on a low under the VWAP, then remember a positive one. */
  function LatchAfter(latch: Option<Bar>, bar: Bar, vwap: real): Option<Bar>
  {
    var cleared := if latch.Some? && bar.low < vwap then None else latch;
    if cleared.None? && IsPositiveBrokenCandle(bar, vwap) then Some(bar) else cleared
  }

  /** A positive broken candle is remembered, whatever was remembered before. */
  lemma LatchTakesPositiveCandle(latch: Option<Bar>, bar: Bar, vwap: real)
    requires IsPositiveBrokenCandle(bar, vwap)
    ensures LatchAfter(latch, bar, vwap) == Some(bar)
  {
  }

  /** A candle with a low under the VWAP that is not positive clears the remembered one. */
  lemma LatchDroppedBelowVwap(latch: Option<Bar>, bar: Bar, vwap: real)
    requires latch.Some? && bar.low < vwap && !IsPositiveBrokenCandle(bar, vwap)
    ensures LatchAfter(latch, bar, vwap) == None
  {
  }

  /** A candle whose low is not under the VWAP leaves the remembered one as it was. */
  lemma LatchKeptAtOrAboveVwap(latch: Option<Bar>, bar: Bar, vwap: real)
    requires bar.low >= vwap
    ensures LatchAfter(latch, bar, vwap) == latch
  {
  }

  /**
   * Buy when a broken candle is remembered, the latest one-minute candle
   * is positive broken, is not older than the remembered one by less than
   * `AccumulatePositiveTimeRan`, and the price is above its high.
   */
  predicate ShouldEnterToBuy(latch: Option<Bar>, tradingWindows: RollingWindow, price: real, vwap: real)
    requires tradingWindows.bars != []
  {
    && latch.Some?
    && IsPositiveBrokenCandle(tradingWindows.Latest(), vwap)
    && tradingWindows.Latest().time - latch.value.time >= AccumulatePositiveTimeRan
    && price > tradingWindows.Latest().high
  }

  /**
   * `OnData` updates the latch with the latest candle just before asking
   * whether to buy, so the entry test comes down to that candle alone:
   * positive broken and the price above its high.
   */
  lemma EntryAfterLatchUpdate(latch: Option<Bar>, tradingWindows: RollingWindow, price: real, vwap: real)
    requires tradingWindows.bars != []
    ensures ShouldEnterToBuy(LatchAfter(latch, tradingWindows.Latest(), vwap), tradingWindows, price, vwap)
            <==> IsPositiveBrokenCandle(tradingWindows.Latest(), vwap) && price > tradingWindows.Latest().high
  {
    var bar := tradingWindows.Latest();
    if IsPositiveBrokenCandle(bar, vwap) {
      LatchTakesPositiveCandle(latch, bar, vwap);
    }
  }

  /**
   * No trading while the gap or the time forbids it, while the VWAP or
   * either window is not ready, or within `ConsolidateSecondsTime`
   * seconds of the last trade.
   */
  predicate ShouldIgnoreOnDataEvent(s: Snapshot, vwapReady: bool, now: int)
    requires s.Valid()
  {
    || !s.isAllowToTradeByGapPercent
    || !s.isAllowToTradeByTime
    || !vwapReady || !s.tradingWindows.IsReady() || !s.windowLowPrice.IsReady()
    || now - s.lastTradeTime.value < ConsolidateSecondsTime
  }

  /** The first bar of a new day divides by its price when a previous close is known. */
  predicate GapRaises(s: Snapshot, day: int, price: real)
  {
    s.currentTradeDay != day && s.lastDayClosePrice.Some? && price == 0.0
  }

  /** The first bar of a new day recomputes the gap flag from its price and starts the day. */
  function OpenDay(s: Snapshot, day: int, price: real): (r: Snapshot)
    requires !GapRaises(s, day, price)
    ensures r == s.(currentTradeDay := day, isAllowToTradeByGapPercent := r.isAllowToTradeByGapPercent)
    ensures s.currentTradeDay != day ==>
              r.isAllowToTradeByGapPercent
              == GapFlagAfterOpen(s.isAllowToTradeByGapPercent, s.lastDayClosePrice, price, s.defaultGapPercentAllowToTrade)
    ensures s.currentTradeDay == day ==> r == s
  {
    if s.currentTradeDay == day then s
    else s.(isAllowToTradeByGapPercent := GapFlagAfterOpen(s.isAllowToTradeByGapPercent, s.lastDayClosePrice, price,
                                                           s.defaultGapPercentAllowToTrade),
            currentTradeDay := day)
  }

  /**
   * A new entry: the entry price and the low-price window's low are
   * recorded first, then the quantity divides the risk budget by their
   * difference, which raises when they are equal.
   */
  function Entry(s: Snapshot, price: real, now: int): StepResult
    requires s.windowLowPrice.bars != []
  {
    var low := s.windowLowPrice.Latest().low;
    var entered := s.(lastEntryPrice := Some(price), lastEntryLowPrice := Some(low));
    if price - low == 0.0 then StepResult(entered, ZeroDivisionError)
    else StepResult(entered.(lastTradeTime := Some(now)), Done(MarketBuy(TruncateToInt(RiskPerTrade / (price - low)))))
  }

  /** The exit of a held position: under the entry low, or above the 1:1 target. */
  function Exit(s: Snapshot, price: real, now: int): StepResult
    requires s.lastEntryPrice.Some? && s.lastEntryLowPrice.Some?
  {
    var entry, low := s.lastEntryPrice.value, s.lastEntryLowPrice.value;
    if low > price || entry + (entry - low) < price then StepResult(s.(lastTradeTime := Some(now)), Done(Liquidate))
    else StepResult(s, Done(NoAction))
  }

  /**
   * One `OnData` call: start the day, give up on ignored events, update
   * the latch, liquidate by time, and in the Normal state enter when not
   * invested or check the exit when invested. The handlers' fields are
   * never written.
   */
  function Step(s: Snapshot, t: Tick): (r: StepResult)
    requires s.Valid()
    requires t.invested && s.liquidateState == Normal ==> s.lastEntryPrice.Some? && s.lastEntryLowPrice.Some?
    ensures r.after.Valid()
    ensures && r.after.tradingWindows == s.tradingWindows && r.after.windowLowPrice == s.windowLowPrice
            && r.after.liquidateState == s.liquidateState && r.after.isAllowToTradeByTime == s.isAllowToTradeByTime
            && r.after.lastDayClosePrice == s.lastDayClosePrice
            && r.after.defaultGapPercentAllowToTrade == s.defaultGapPercentAllowToTrade
  {
    if t.price.None? then StepResult(s, Done(NoAction))
    else
      var price := t.price.value;
      if GapRaises(s, t.day, price) then StepResult(s, ZeroDivisionError)
      else
        var started := OpenDay(s, t.day, price);
        if ShouldIgnoreOnDataEvent(started, t.vwapReady, t.now) then StepResult(started, Done(NoAction))
        else
          var latched := started.(lastBrokenCandle := LatchAfter(started.lastBrokenCandle, started.tradingWindows.Latest(), t.vwap));
          if ShouldLiquidateToWin(latched.liquidateState, t.invested, Some(t.algorithmLastEntryPrice), price)
             || ShouldForceLiquidate(latched.liquidateState, t.invested) then StepResult(latched, Done(Liquidate))
          else if latched.liquidateState != Normal then StepResult(latched, Done(NoAction))
          else if !t.invested && ShouldEnterToBuy(latched.lastBrokenCandle, latched.tradingWindows, price, t.vwap) then
            Entry(latched, price, t.now)
          else if t.invested then Exit(latched, price, t.now)
          else StepResult(latched, Done(NoAction))
  }

  /** The events the trading rules see: a bar is present, no gap exception, and the event is not ignored. */
  predicate Trades(s: Snapshot, t: Tick)
    requires s.Valid()
  {
    && t.price.Some?
    && !GapRaises(s, t.day, t.price.value)
    && !ShouldIgnoreOnDataEvent(OpenDay(s, t.day, t.price.value), t.vwapReady, t.now)
  }

  /** Without a bar for the equity the call ends at once and changes nothing. */
  lemma NoBarNoChange(s: Snapshot, t: Tick)
    requires s.Valid() && (t.invested && s.liquidateState == Normal ==> s.lastEntryPrice.Some? && s.lastEntryLowPrice.Some?)
    requires t.price.None?
    ensures Step(s, t) == StepResult(s, Done(NoAction))
  {
  }

  /** An ignored event starts the day but places no order and touches no trade field. */
  lemma IgnoredEventPlacesNoOrder(s: Snapshot, t: Tick)
    requires s.Valid() && (t.invested && s.liquidateState == Normal ==> s.lastEntryPrice.Some? && s.lastEntryLowPrice.Some?)
    requires t.price.Some? && !Trades(s, t)
    ensures Step(s, t).outcome.Done? ==> Step(s, t).outcome.action == NoAction
    ensures Step(s, t).outcome.ZeroDivisionError? <==> GapRaises(s, t.day, t.price.value)
    ensures && Step(s, t).after.lastBrokenCandle == s.lastBrokenCandle
            && Step(s, t).after.lastEntryPrice == s.lastEntryPrice
            && Step(s, t).after.lastEntryLowPrice == s.lastEntryLowPrice
            && Step(s, t).after.lastTradeTime == s.lastTradeTime
  {
  }

  /** Within `ConsolidateSecondsTime` seconds of the last trade no order is placed. */
  lemma NoOrderDuringCooldown(s: Snapshot, t: Tick)
    requires s.Valid() && (t.invested && s.liquidateState == Normal ==> s.lastEntryPrice.Some? && s.lastEntryLowPrice.Some?)
    requires t.now - s.lastTradeTime.value < ConsolidateSecondsTime
    ensures Step(s, t).outcome.Done? ==> Step(s, t).outcome.action == NoAction
  {
    if t.price.Some? && !GapRaises(s, t.day, t.price.value) {
      assert OpenDay(s, t.day, t.price.value).lastTradeTime == s.lastTradeTime;
    }
  }

  /** Once trading by time has stopped no order is placed. */
  lemma NoOrderOutsideTradingTime(s: Snapshot, t: Tick)
    requires s.Valid() && (t.invested && s.liquidateState == Normal ==> s.lastEntryPrice.Some? && s.lastEntryLowPrice.Some?)
    requires !s.isAllowToTradeByTime
    ensures Step(s, t).outcome.Done? ==> Step(s, t).outcome.action == NoAction
  {
  }

  /** No new entry is made unless the liquidation state is Normal. */
  lemma NoEntryUnlessNormal(s: Snapshot, t: Tick)
    requires s.Valid() && (t.invested && s.liquidateState == Normal ==> s.lastEntryPrice.Some? && s.lastEntryLowPrice.Some?)
    requires s.liquidateState != Normal
    ensures !(Step(s, t).outcome.Done? && Step(s, t).outcome.action.MarketBuy?)
    ensures Step(s, t).after.lastEntryPrice == s.lastEntryPrice
  {
  }

  /**
   * Near the close a held position is liquidated on a traded event: in
   * the Force state always, in the ToWin state exactly when the price is
   * not below the value read as `LastEntryPrice`. Liquidating by time
   * leaves the trade time as it was.
   */
  lemma TimeLiquidation(s: Snapshot, t: Tick)
    requires s.Valid() && (t.invested && s.liquidateState == Normal ==> s.lastEntryPrice.Some? && s.lastEntryLowPrice.Some?)
    requires Trades(s, t) && t.invested && s.liquidateState != Normal
    ensures Step(s, t).outcome == Done(Liquidate)
            <==> s.liquidateState == Force || t.algorithmLastEntryPrice <= t.price.value
    ensures Step(s, t).outcome.Done? && Step(s, t).after.lastTradeTime == s.lastTradeTime
  {
  }

  /**
   * The entry rule: on a traded event in the Normal state without a
   * position, a market order is placed exactly when the latest candle is
   * positive broken, the price is above its high, and the price differs
   * from the low-price window's low; its size is the risk budget over
   * that difference, truncated, and the entry price, the entry low and the
   * trade time are recorded. When the price equals that low the division
   * raises, after the entry price and low were recorded.
   */
  lemma EntryRule(s: Snapshot, t: Tick)
    requires s.Valid() && (t.invested && s.liquidateState == Normal ==> s.lastEntryPrice.Some? && s.lastEntryLowPrice.Some?)
    requires Trades(s, t) && !t.invested && s.liquidateState == Normal
    ensures var price, bar, low := t.price.value, s.tradingWindows.Latest(), s.windowLowPrice.Latest().low;
            var r := Step(s, t);
            var enters := IsPositiveBrokenCandle(bar, t.vwap) && price > bar.high;
            && (r.outcome.Done? && r.outcome.action.MarketBuy? <==> enters && price != low)
            && (r.outcome.ZeroDivisionError? <==> enters && price == low)
            && (enters ==> r.after.lastEntryPrice == Some(price) && r.after.lastEntryLowPrice == Some(low))
            && (enters && price != low ==>
                  r.outcome == Done(MarketBuy(TruncateToInt(RiskPerTrade / (price - low))))
                  && r.after.lastTradeTime == Some(t.now))
            && (!enters ==> r.outcome == Done(NoAction))
  {
    var started := OpenDay(s, t.day, t.price.value);
    EntryAfterLatchUpdate(started.lastBrokenCandle, started.tradingWindows, t.price.value, t.vwap);
    TimeLiquidationNeedsPosition(s.liquidateState, Some(t.algorithmLastEntryPrice), t.price.value);
  }

  /**
   * The exit rule: on a traded event in the Normal state with a position,
   * the position is liquidated exactly when the price is under the entry
   * low or above the 1:1 target, strictly; liquidating records the trade
   * time and nothing else changes the trade fields.
   */
  lemma ExitRule(s: Snapshot, t: Tick)
    requires s.Valid() && (t.invested && s.liquidateState == Normal ==> s.lastEntryPrice.Some? && s.lastEntryLowPrice.Some?)
    requires Trades(s, t) && t.invested && s.liquidateState == Normal
    ensures var price, entry, low := t.price.value, s.lastEntryPrice.value, s.lastEntryLowPrice.value;
            var r := Step(s, t);
            && (r.outcome == Done(Liquidate) <==> price < low || price > entry + (entry - low))
            && (r.outcome != Done(Liquidate) ==> r.outcome == Done(NoAction) && r.after.lastTradeTime == s.lastTradeTime)
            && (r.outcome == Done(Liquidate) ==> r.after.lastTradeTime == Some(t.now))
            && r.after.lastEntryPrice == s.lastEntryPrice && r.after.lastEntryLowPrice == s.lastEntryLowPrice
  {
    NormalStateNeverLiquidatesByTime(t.invested, Some(t.algorithmLastEntryPrice), t.price.value);
  }

  /** The script raises only when dividing by a zero opening price or by a zero entry risk. */
  lemma ZeroDivisionCauses(s: Snapshot, t: Tick)
    requires s.Valid() && (t.invested && s.liquidateState == Normal ==> s.lastEntryPrice.Some? && s.lastEntryLowPrice.Some?)
    ensures Step(s, t).outcome.ZeroDivisionError?
            <==> && t.price.Some?
                 && (|| GapRaises(s, t.day, t.price.value)
                     || (&& Trades(s, t) && !t.invested && s.liquidateState == Normal
                         && IsPositiveBrokenCandle(s.tradingWindows.Latest(), t.vwap)
                         && t.price.value > s.tradingWindows.Latest().high
                         && t.price.value == s.windowLowPrice.Latest().low))
  {
    if Trades(s, t) && !t.invested && s.liquidateState == Normal {
      EntryRule(s, t);
    } else if Trades(s, t) && t.invested && s.liquidateState == Normal {
      ExitRule(s, t);
    } else if Trades(s, t) && t.invested {
      TimeLiquidation(s, t);
    } else if t.price.Some? && !Trades(s, t) {
      IgnoredEventPlacesNoOrder(s, t);
    }
  }

  /**
   * The entry quantity: above the entry low it buys at most the risk
   * budget's worth of per-share risk, and the next share would exceed it;
   * below the entry low it is not positive, so the market order sells.
   */
  lemma EntryQuantity(price: real, low: real)
    requires price != low
    ensures var q := TruncateToInt(RiskPerTrade / (price - low));
            && (price > low ==> 0 <= q && q as real * (price - low) <= RiskPerTrade < (q + 1) as real * (price - low))
            && (price < low ==> q <= 0)
  {
    var x := RiskPerTrade / (price - low);
    var q := TruncateToInt(x);
    assert x * (price - low) == RiskPerTrade;
    if price > low {
      assert 0.0 <= x;
      assert q as real * (price - low) <= x * (price - low);
      assert x * (price - low) < (q + 1) as real * (price - low);
    } else {
      assert x < 0.0;
    }
  }

  /** With the default gap of 0 percent, a new day with a known close is traded only after a gap up. */
  lemma GapUpAllowsTrading(s: Snapshot, t: Tick)
    requires s.Valid() && (t.invested && s.liquidateState == Normal ==> s.lastEntryPrice.Some? && s.lastEntryLowPrice.Some?)
    requires t.price.Some? && t.price.value > 0.0 && s.currentTradeDay != t.day
    requires s.lastDayClosePrice.Some? && s.defaultGapPercentAllowToTrade == 0.0
    ensures Step(s, t).after.isAllowToTradeByGapPercent <==> t.price.value > s.lastDayClosePrice.value
    ensures Step(s, t).after.currentTradeDay == t.day
  {
    GapFlagWithDefaultZero(s.isAllowToTradeByGapPercent, s.lastDayClosePrice.value, t.price.value);
  }

  /** The VWAP file's trade model: one equity's indicators and trade fields. */
  class EquityTradeModel {
    const symbol: Symbol
    var indicators: map<string, Indicator>
    var lastEntryPrice: Option<real>
    var lastEntryLowPrice: Option<real>
    var lastDayClosePrice: Option<real>
    var lastTradeTime: Option<int>
    var isAllowToTradeByGapPercent: bool
    const defaultGapPercentAllowToTrade: real

    constructor (symbol: Symbol, defaultGapPercentToTrade: real)
      ensures this.symbol == symbol && defaultGapPercentAllowToTrade == defaultGapPercentToTrade
      ensures indicators == map[]
      ensures lastEntryPrice == None && lastEntryLowPrice == None && lastDayClosePrice == None
      ensures lastTradeTime == None && isAllowToTradeByGapPercent
    {
      this.symbol := symbol;
      indicators := map[];
      lastEntryPrice := None;
      lastEntryLowPrice := None;
      lastDayClosePrice := None;
      lastTradeTime := None;
      isAllowToTradeByGapPercent := true;
      defaultGapPercentAllowToTrade := defaultGapPercentToTrade;
    }

    /** Stores an absent name; the result tells whether it was absent. */
    method RegisterIndicator(name: string, indicator: Indicator) returns (registered: bool)
      modifies this`indicators
      ensures registered <==> name !in old(indicators)
      ensures indicators == if registered then old(indicators)[name := indicator] else old(indicators)
    {
      if name !in indicators {
        indicators := indicators[name := indicator];
        return true;
      }
      return false;
    }

    /** Removes a present name; the result tells whether it was present. */
    method UnRegisterIndicator(name: string) returns (unregistered: bool)
      modifies this`indicators
      ensures unregistered <==> name in old(indicators)
      ensures indicators == old(indicators) - {name}
      ensures !unregistered ==> indicators == old(indicators)
    {
      if name in indicators {
        indicators := indicators - {name};
        return true;
      }
      return false;
    }

    method SetLastTradeTime(time: int)
      modifies this`lastTradeTime
      ensures lastTradeTime == Some(time)
    {
      lastTradeTime := Some(time);
    }
  }

  /** A model whose name was registered then unregistered has it no more, and a second registration fails. */
  method IndicatorRoundTrip(m: EquityTradeModel, name: string, indicator: Indicator)
    returns (first: bool, second: bool, removed: bool)
    modifies m`indicators
    ensures first <==> name !in old(m.indicators)
    ensures !second && removed
    ensures m.indicators == old(m.indicators) - {name}
  {
    first := m.RegisterIndicator(name, indicator);
    second := m.RegisterIndicator(name, indicator);
    removed := m.UnRegisterIndicator(name);
  }

  /** `VWAP`: the algorithm's fields and handlers, over its one equity's trade model. */
  class Vwap {
    const equity: EquityTradeModel
    var currentTradeDay: int
    var lastBrokenCandle: Option<Bar>
    var tradingWindows: RollingWindow
    var windowLowPrice: RollingWindow
    var liquidateState: LiquidateState
    var isAllowToTradeByTime: bool

    /** The fields as one `Snapshot`. */
    function View(): Snapshot
      reads this`currentTradeDay, this`lastBrokenCandle, this`tradingWindows, this`windowLowPrice
      reads this`liquidateState, this`isAllowToTradeByTime
      reads equity`lastEntryPrice, equity`lastEntryLowPrice, equity`lastDayClosePrice, equity`lastTradeTime
      reads equity`isAllowToTradeByGapPercent
    {
      Snapshot(currentTradeDay, lastBrokenCandle, tradingWindows, windowLowPrice, liquidateState, isAllowToTradeByTime,
               equity.lastEntryPrice, equity.lastEntryLowPrice, equity.lastDayClosePrice, equity.lastTradeTime,
               equity.isAllowToTradeByGapPercent, equity.defaultGapPercentAllowToTrade)
    }

    /**
     * `Initialize`: one equity added with its trade time set to now and
     * its VWAP registered as "vwap"; empty windows of two and one bars;
     * Normal state, trading by time off and no trade day yet.
     */
    constructor (now: int, symbol: Symbol)
      ensures View()
              == Snapshot(-1, None, EmptyWindow(TradingWindowsSize), EmptyWindow(WindowLowPriceSize), Normal, false,
                          None, None, None, Some(now), true, 0.0)
      ensures View().Valid()
      ensures fresh(equity) && equity.symbol == symbol
      ensures equity.indicators == map["vwap" := Indicator("vwap", symbol)]
    {
      var model := new EquityTradeModel(symbol, 0.0);
      model.lastTradeTime := Some(now);
      var _ := model.RegisterIndicator("vwap", Indicator("vwap", symbol));
      equity := model;
      lastBrokenCandle := None;
      tradingWindows := EmptyWindow(TradingWindowsSize);
      windowLowPrice := EmptyWindow(WindowLowPriceSize);
      isAllowToTradeByTime := false;
      currentTradeDay := -1;
      liquidateState := Normal;
    }

    /** `UpdateOpenPriceAfterMarketOpenHandler`: recompute the gap flag from the last close, if known. */
    method UpdateOpenPriceAfterMarketOpenHandler(openPrice: real)
      requires equity.lastDayClosePrice.Some? ==> openPrice != 0.0
      modifies equity`isAllowToTradeByGapPercent
      ensures equity.isAllowToTradeByGapPercent
              == GapFlagAfterOpen(old(equity.isAllowToTradeByGapPercent), equity.lastDayClosePrice, openPrice,
                                  equity.defaultGapPercentAllowToTrade)
    {
      if equity.lastDayClosePrice.None? {
        return;
      }
      var gapPercent := MarketGapPercent(equity.lastDayClosePrice.value, openPrice);
      equity.isAllowToTradeByGapPercent := gapPercent > equity.defaultGapPercentAllowToTrade;
    }

    /** `ResetDataAfterMarketOpenHandler`: trading by time on, a fresh two-bar window, Normal state. */
    method ResetDataAfterMarketOpenHandler()
      modifies this`isAllowToTradeByTime, this`tradingWindows, this`liquidateState
      ensures View()
              == old(View()).(isAllowToTradeByTime := true, tradingWindows := EmptyWindow(TradingWindowsSize),
                              liquidateState := Normal)
    {
      isAllowToTradeByTime := true;
      tradingWindows := EmptyWindow(TradingWindowsSize);
      liquidateState := Normal;
    }

    /** `BeforeMarketCloseHandler`: trading by time off; the equity's price becomes the last day's close. */
    method BeforeMarketCloseHandler(price: real)
      modifies this`isAllowToTradeByTime, equity`lastDayClosePrice
      ensures View() == old(View()).(isAllowToTradeByTime := false, lastDayClosePrice := Some(price))
    {
      isAllowToTradeByTime := false;
      equity.lastDayClosePrice := Some(price);
    }

    method BeforeMarketCloseTryToLiquidateOnWinStateHandler()
      modifies this`liquidateState
      ensures View() == old(View()).(liquidateState := ToWin)
    {
      liquidateState := ToWin;
    }

    method BeforeMarketCloseLiquidateOnDayStateHandler()
      modifies this`liquidateState
      ensures View() == old(View()).(liquidateState := Force)
    {
      liquidateState := Force;
    }

    /** `MinuteConsolidateHandler`: a consolidated one-minute bar enters the trading window. */
    method MinuteConsolidateHandler(bar: Bar)
      requires tradingWindows.Valid()
      modifies this`tradingWindows
      ensures View() == old(View()).(tradingWindows := old(tradingWindows).Add(bar))
    {
      tradingWindows := tradingWindows.Add(bar);
    }

    /** `LowConsolidateHandler`: a consolidated five-minute bar enters the low-price window. */
    method LowConsolidateHandler(bar: Bar)
      requires windowLowPrice.Valid()
      modifies this`windowLowPrice
      ensures View() == old(View()).(windowLowPrice := old(windowLowPrice).Add(bar))
    {
      windowLowPrice := windowLowPrice.Add(bar);
    }

    /** `UpdateLastBrokenCandle`, written as the script's two tests in turn. */
    method UpdateLastBrokenCandle(bar: Bar, vwap: real)
      modifies this`lastBrokenCandle
      ensures lastBrokenCandle == LatchAfter(old(lastBrokenCandle), bar, vwap)
    {
      if lastBrokenCandle.Some? && bar.low < vwap {
        lastBrokenCandle := None;
      }
      if lastBrokenCandle.None? && IsPositiveBrokenCandle(bar, vwap) {
        lastBrokenCandle := Some(bar);
      }
    }

    /** The entry branch of `OnData`. */
    method EnterToBuy(price: real, now: int) returns (outcome: Outcome)
      requires windowLowPrice.bars != []
      modifies equity`lastEntryPrice, equity`lastEntryLowPrice, equity`lastTradeTime
      ensures StepResult(View(), outcome) == Entry(old(View()), price, now)
    {
      equity.lastEntryPrice := Some(price);
      equity.lastEntryLowPrice := Some(windowLowPrice.Latest().low);
      var denominator := price - equity.lastEntryLowPrice.value;
      if denominator == 0.0 {
        return ZeroDivisionError;
      }
      var countActionsToBuy := TruncateToInt(RiskPerTrade / denominator);
      outcome := Done(MarketBuy(countActionsToBuy));
      equity.SetLastTradeTime(now);
    }

    /** The exit branch of `OnData`. */
    method ExitOnLossOrTarget(price: real, now: int) returns (outcome: Outcome)
      requires equity.lastEntryPrice.Some? && equity.lastEntryLowPrice.Some?
      modifies equity`lastTradeTime
      ensures StepResult(View(), outcome) == Exit(old(View()), price, now)
    {
      var entry, low := equity.lastEntryPrice.value, equity.lastEntryLowPrice.value;
      outcome := Done(NoAction);
      if low > price || entry + (entry - low) < price {
        equity.SetLastTradeTime(now);
        outcome := Done(Liquidate);
      }
    }

    /** `OnData` for the one equity: the same steps as `Step`, on the fields. */
    method OnData(t: Tick) returns (outcome: Outcome)
      requires View().Valid()
      requires t.invested && liquidateState == Normal ==> equity.lastEntryPrice.Some? && equity.lastEntryLowPrice.Some?
      modifies this`currentTradeDay, this`lastBrokenCandle
      modifies equity`isAllowToTradeByGapPercent, equity`lastEntryPrice, equity`lastEntryLowPrice, equity`lastTradeTime
      ensures StepResult(View(), outcome) == Step(old(View()), t)
    {
      if t.price.None? {
        return Done(NoAction);
      }
      var price := t.price.value;
      if currentTradeDay != t.day {
        if equity.lastDayClosePrice.Some? && price == 0.0 {
          return ZeroDivisionError;
        }
        UpdateOpenPriceAfterMarketOpenHandler(price);
        currentTradeDay := t.day;
      }
      assert View() == OpenDay(old(View()), t.day, price);
      if ShouldIgnoreOnDataEvent(View(), t.vwapReady, t.now) {
        return Done(NoAction);
      }
      UpdateLastBrokenCandle(tradingWindows.Latest(), t.vwap);
      if ShouldLiquidateToWin(liquidateState, t.invested, Some(t.algorithmLastEntryPrice), price)
         || ShouldForceLiquidate(liquidateState, t.invested) {
        return Done(Liquidate);
      }
      if liquidateState != Normal {
        return Done(NoAction);
      }
      if !t.invested && ShouldEnterToBuy(lastBrokenCandle, tradingWindows, price, t.vwap) {
        outcome := EnterToBuy(price, t.now);
      } else if t.invested {
        outcome := ExitOnLossOrTarget(price, t.now);
      } else {
        outcome := Done(NoAction);
      }
    }
  }
}
