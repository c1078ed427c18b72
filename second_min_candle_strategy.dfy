/**
 * The second-minute-candle strategy: enter a limit buy when the price
 * rises above the day's first one-minute candle, put the stop at the
 * lower low of the two one-bar windows and the target at twice the risk
 * above the entry, size the order to a fixed risk, cap the buys per
 * symbol and day, and close positions by time near the market close.
 *
 * The engine is an input: prices, the day, the consolidated bars and
 * whether the engine holds a position (`held`, the portfolio's Invested
 * flag) are parameters, and orders come back as `Action`s.
 */
module SecondMinCandleStrategy {
  import opened Market
  import opened SecondMinCandleRegistry

  const RiskPerTrade: real := 200.0
  const MaxAllowedTradePerDay: int := 1
  const LimitPriceOffset: real := 0.01
  const ConsolidateSecondsTime: nat := 60
  const ConsolidateLowPriceTime: nat := 60
  const AccumulatePositiveTimeRan: nat := 0

  /** The tickers `Initialize` subscribes to; the engine returns one `Symbol` per ticker. */
  const EquitiesSymbols: seq<string> :=
    ["aapl", "spy", "tsla", "msft", "ba", "qqq", "fb", "pypl", "twtr", "nvda",
     "amd", "c", "baba", "bac", "gld", "tgt", "wmt", "amzn", "googl"]

  /** Nothing is traded until both one-bar windows hold a bar. */
  predicate ShouldIgnoreOnDataEvent(c: Candles)
  {
    !c.tradingWindow.IsReady() || !c.lowWindow.IsReady()
  }

  /** Buy while trading by time is allowed and the price is above the first candle's high. */
  predicate ShouldEnterToBuy(isAllowToTradeByTime: bool, firstCandle: Option<Bar>, price: real)
    requires isAllowToTradeByTime ==> firstCandle.Some?
  {
    isAllowToTradeByTime && price > firstCandle.value.high
  }

  /** This file's broken-candle test: a VWAP is known, the low is below it and the close is not. */
  predicate IsPositiveBrokenCandle(vwap: Option<real>, candle: Bar)
  {
    vwap.Some? && candle.low < vwap.value && candle.close >= vwap.value
  }

  /** The result of one symbol's step of `OnData`. */
  datatype Decision = Decision(state: TradeState, action: Action, registersBuy: bool)

  /** The stop of a new entry: the lower of the two windows' lows. */
  function EntryStop(c: Candles): real
    requires c.tradingWindow.bars != [] && c.lowWindow.bars != []
  {
    MinPrice(c.lowWindow.Latest().low, c.tradingWindow.Latest().low)
  }

  /**
   * A new entry: the entry price, the stop and the 2:1 target are
   * recorded first; a limit order sized to the risk budget is placed and
   * counted only when the per-share risk is not zero.
   */
  function EnterDecision(t: TradeState, c: Candles, price: real, now: int): Decision
    requires c.tradingWindow.bars != [] && c.lowWindow.bars != []
  {
    var stop := EntryStop(c);
    var entered := t.(invested := true, lastEntryPrice := Some(price), exitOnLostPrice := Some(stop),
                      exitOnWinPrice := Some(price + (price - stop) * 2.0));
    if price - stop == 0.0 then Decision(entered, NoAction, false)
    else Decision(entered.(lastTradeTime := Some(now)),
                  LimitBuy(TruncateToInt(RiskPerTrade / (price - stop)), price + LimitPriceOffset), true)
  }

  /** The exit of an internally invested model: under the stop, or at or above the target. */
  function ExitDecision(t: TradeState, price: real, now: int): Decision
    requires t.Valid() && t.invested
  {
    if t.exitOnLostPrice.value > price || t.exitOnWinPrice.value <= price then
      Decision(t.(invested := false, lastTradeTime := Some(now)), Liquidate, false)
    else Decision(t, NoAction, false)
  }

  /**
   * One pass of the `OnData` loop body for one symbol that has a bar:
   * time-based liquidation first, then a new entry when not internally
   * invested, else the stop/target exit.
   */
  function Decide(t: TradeState, c: Candles, liquidateState: LiquidateState, isAllowToTradeByTime: bool,
                  price: real, held: bool, capacityAllows: bool, now: int): Decision
    requires t.Valid() && c.Valid()
    requires liquidateState == ToWin && held ==> t.lastEntryPrice.Some?
  {
    if ShouldIgnoreOnDataEvent(c) then Decision(t, NoAction, false)
    else if ShouldLiquidateToWin(liquidateState, held, t.lastEntryPrice, price)
         || ShouldForceLiquidate(liquidateState, held) then Decision(t, Liquidate, false)
    else if !t.invested && capacityAllows && ShouldEnterToBuy(isAllowToTradeByTime, c.firstCandle, price) then
      EnterDecision(t, c, price, now)
    else if t.invested then ExitDecision(t, price, now)
    else Decision(t, NoAction, false)
  }

  /** Every step keeps the trade fields consistent, and only a placed limit order counts as a buy. */
  lemma DecideKeepsValid(t: TradeState, c: Candles, liquidateState: LiquidateState, isAllowToTradeByTime: bool,
                         price: real, held: bool, capacityAllows: bool, now: int)
    requires t.Valid() && c.Valid()
    requires liquidateState == ToWin && held ==> t.lastEntryPrice.Some?
    ensures Decide(t, c, liquidateState, isAllowToTradeByTime, price, held, capacityAllows, now).state.Valid()
    ensures Decide(t, c, liquidateState, isAllowToTradeByTime, price, held, capacityAllows, now).registersBuy
            <==> Decide(t, c, liquidateState, isAllowToTradeByTime, price, held, capacityAllows, now).action.LimitBuy?
  {
  }

  /** Until both windows hold a bar the step does nothing. */
  lemma IgnoredWhileWindowsFill(t: TradeState, c: Candles, liquidateState: LiquidateState, isAllowToTradeByTime: bool,
                                price: real, held: bool, capacityAllows: bool, now: int)
    requires t.Valid() && c.Valid()
    requires liquidateState == ToWin && held ==> t.lastEntryPrice.Some?
    requires c.tradingWindow.bars == [] || c.lowWindow.bars == []
    ensures Decide(t, c, liquidateState, isAllowToTradeByTime, price, held, capacityAllows, now)
            == Decision(t, NoAction, false)
  {
  }

  /**
   * Liquidation by time closes the engine's position but leaves the
   * model's own `Invested` flag and prices as they were.
   */
  lemma TimeLiquidationKeepsModel(t: TradeState, c: Candles, liquidateState: LiquidateState, isAllowToTradeByTime: bool,
                                  price: real, held: bool, capacityAllows: bool, now: int)
    requires t.Valid() && c.Valid()
    requires liquidateState == ToWin && held ==> t.lastEntryPrice.Some?
    requires !ShouldIgnoreOnDataEvent(c)
    requires ShouldLiquidateToWin(liquidateState, held, t.lastEntryPrice, price) || ShouldForceLiquidate(liquidateState, held)
    ensures Decide(t, c, liquidateState, isAllowToTradeByTime, price, held, capacityAllows, now) == Decision(t, Liquidate, false)
  {
  }

  /**
   * A new entry happens exactly when the windows are full, no time-based
   * liquidation applies, the model is not invested, the daily cap allows
   * it, trading by time is allowed and the price is above the first
   * candle's high. It then records the entry price, the stop and the 2:1
   * target, even when no order can be sized.
   */
  lemma EntryRule(t: TradeState, c: Candles, liquidateState: LiquidateState, isAllowToTradeByTime: bool,
                  price: real, held: bool, capacityAllows: bool, now: int)
    requires t.Valid() && c.Valid()
    requires liquidateState == ToWin && held ==> t.lastEntryPrice.Some?
    ensures var d := Decide(t, c, liquidateState, isAllowToTradeByTime, price, held, capacityAllows, now);
            (!t.invested && d.state.invested)
            <==> (&& !ShouldIgnoreOnDataEvent(c)
                  && !ShouldLiquidateToWin(liquidateState, held, t.lastEntryPrice, price)
                  && !ShouldForceLiquidate(liquidateState, held)
                  && !t.invested && capacityAllows
                  && isAllowToTradeByTime && price > c.firstCandle.value.high)
    ensures var d := Decide(t, c, liquidateState, isAllowToTradeByTime, price, held, capacityAllows, now);
            !t.invested && d.state.invested ==>
              var stop := MinPrice(c.lowWindow.Latest().low, c.tradingWindow.Latest().low);
              && d.state.lastEntryPrice == Some(price)
              && d.state.exitOnLostPrice == Some(stop)
              && d.state.exitOnWinPrice == Some(price + 2.0 * (price - stop))
              && (price == stop ==> d.action == NoAction && !d.registersBuy && d.state.lastTradeTime == t.lastTradeTime)
              && (price != stop ==> d.action == LimitBuy(TruncateToInt(200.0 / (price - stop)), price + 0.01)
                                    && d.registersBuy && d.state.lastTradeTime == Some(now))
  {
  }

  /**
   * While internally invested and not closed by time, the position is
   * closed exactly when the price is under the stop or at or above the
   * target; otherwise nothing changes.
   */
  lemma ExitRule(t: TradeState, c: Candles, liquidateState: LiquidateState, isAllowToTradeByTime: bool,
                 price: real, held: bool, capacityAllows: bool, now: int)
    requires t.Valid() && c.Valid()
    requires liquidateState == ToWin && held ==> t.lastEntryPrice.Some?
    requires t.invested && !ShouldIgnoreOnDataEvent(c)
    requires !ShouldLiquidateToWin(liquidateState, held, t.lastEntryPrice, price)
    requires !ShouldForceLiquidate(liquidateState, held)
    ensures var d := Decide(t, c, liquidateState, isAllowToTradeByTime, price, held, capacityAllows, now);
            var hit := price < t.exitOnLostPrice.value || price >= t.exitOnWinPrice.value;
            && (d.action == Liquidate <==> hit)
            && (d.state.invested <==> !hit)
            && (hit ==> d.state == t.(invested := false, lastTradeTime := Some(now)))
            && (!hit ==> d == Decision(t, NoAction, false))
  {
  }

  /**
   * An entry whose stop equals its price leaves stop and target equal, so
   * the very next step that reaches the exit test closes it at any price.
   */
  lemma ZeroRiskEntryExitsNextStep(t: TradeState, c: Candles, liquidateState: LiquidateState, isAllowToTradeByTime: bool,
                                   price: real, held: bool, capacityAllows: bool, now: int, nextPrice: real)
    requires t.Valid() && c.Valid()
    requires liquidateState == ToWin && held ==> t.lastEntryPrice.Some?
    requires !t.invested
    requires Decide(t, c, liquidateState, isAllowToTradeByTime, price, held, capacityAllows, now).state.invested
    requires price == EntryStop(c)
    ensures var s := Decide(t, c, liquidateState, isAllowToTradeByTime, price, held, capacityAllows, now).state;
            s.exitOnLostPrice.value > nextPrice || s.exitOnWinPrice.value <= nextPrice
  {
  }

  /**
   * The order size is the risk budget over the per-share risk, truncated:
   * positive for a risk of at most 200, zero above it, and not positive
   * (a sell) when the stop lies above the entry price.
   */
  lemma EntryQuantitySign(price: real, stop: real)
    requires price != stop
    ensures price > stop && price - stop <= RiskPerTrade ==> TruncateToInt(RiskPerTrade / (price - stop)) >= 1
    ensures price - stop > RiskPerTrade ==> TruncateToInt(RiskPerTrade / (price - stop)) == 0
    ensures price < stop ==> TruncateToInt(RiskPerTrade / (price - stop)) <= 0
  {
    var d := price - stop;
    var q := RiskPerTrade / d;
    assert q * d == RiskPerTrade;
    if 0.0 < d <= RiskPerTrade {
      assert q >= 1.0;
    } else if d > RiskPerTrade {
      assert 0.0 <= q < 1.0;
    } else {
      assert q < 0.0;
    }
  }

  /** The first candle after a reset latches the first bar, later bars do not overwrite it. */
  function FirstCandleAfter(firstCandle: Option<Bar>, bars: seq<Bar>): Option<Bar>
    decreases |bars|
  {
    if bars == [] then firstCandle
    else FirstCandleAfter(if firstCandle.None? then Some(bars[0]) else firstCandle, bars[1..])
  }

  lemma {:induction false} FirstCandleLatch(firstCandle: Option<Bar>, bars: seq<Bar>)
    ensures firstCandle.Some? ==> FirstCandleAfter(firstCandle, bars) == firstCandle
    ensures firstCandle.None? && bars != [] ==> FirstCandleAfter(firstCandle, bars) == Some(bars[0])
    ensures firstCandle.None? && bars == [] ==> FirstCandleAfter(firstCandle, bars) == None
    decreases |bars|
  {
    if bars != [] {
      FirstCandleLatch(if firstCandle.None? then Some(bars[0]) else firstCandle, bars[1..]);
    }
  }

  /** The candle latch of `UpdateLastBrokenCandle`, for a known VWAP value. */
  function BrokenCandleLatch(latch: Option<Bar>, candle: Bar, vwap: real): (r: Option<Bar>)
    ensures latch.Some? && candle.low < vwap && candle.close < vwap ==> r == None
    ensures latch.None? && candle.low < vwap && candle.close >= vwap ==> r == Some(candle)
    ensures latch.None? && !(candle.low < vwap && candle.close >= vwap) ==> r == None
    ensures candle.low >= vwap ==> r == latch
    ensures latch.Some? && candle.close >= vwap ==> r == latch
  {
    if latch.Some? && candle.low < vwap && candle.close < vwap then None
    else if latch.None? && IsPositiveBrokenCandle(Some(vwap), candle) then Some(candle)
    else latch
  }

  /** What one `OnData` call is given: the day and time, the price of each symbol's bar, the symbols the engine holds. */
  datatype Slice = Slice(day: int, now: int, prices: map<Symbol, real>, holdings: set<Symbol>)

  /** What the `OnData` loop carries from one symbol to the next. */
  datatype Pass = Pass(day: int, trades: map<Symbol, TradeState>, registered: map<Symbol, int>, orders: map<Symbol, Action>)

  /** Every model of the pass can take a `Decide` step. */
  predicate PassReady(p: Pass, bars: map<Symbol, Candles>, liquidateState: LiquidateState, holdings: set<Symbol>)
  {
    forall s :: s in p.trades ==>
      && p.trades[s].Valid() && s in bars && bars[s].Valid()
      && (liquidateState == ToWin && s in holdings ==> p.trades[s].lastEntryPrice.Some?)
  }

  /**
   * One pass of the `OnData` loop body: a symbol without a bar is skipped;
   * otherwise the first bar of a new day clears the register, and the
   * symbol takes its `Decide` step against the register as it stands.
   */
  function VisitSymbol(p: Pass, s: Symbol, bars: map<Symbol, Candles>, liquidateState: LiquidateState,
                       isAllowToTradeByTime: bool, ev: Slice): (r: Pass)
    requires PassReady(p, bars, liquidateState, ev.holdings) && s in p.trades
    ensures PassReady(r, bars, liquidateState, ev.holdings) && r.trades.Keys == p.trades.Keys
  {
    if s !in ev.prices then p
    else
      var q := if p.day != ev.day then p.(day := ev.day, registered := map[]) else p;
      var d := Decide(q.trades[s], bars[s], liquidateState, isAllowToTradeByTime, ev.prices[s], s in ev.holdings,
                      CapacityAllows(MaxAllowedTradePerDay, q.registered, s), ev.now);
      q.(trades := q.trades[s := d.state],
         registered := if d.registersBuy then RegisterBuy(q.registered, s) else q.registered,
         orders := q.orders[s := d.action])
  }

  /** The `OnData` loop over the symbols `ss`, in order. */
  function RunPass(p: Pass, ss: seq<Symbol>, bars: map<Symbol, Candles>, liquidateState: LiquidateState,
                   isAllowToTradeByTime: bool, ev: Slice): (r: Pass)
    requires PassReady(p, bars, liquidateState, ev.holdings)
    requires forall k :: 0 <= k < |ss| ==> ss[k] in p.trades
    ensures PassReady(r, bars, liquidateState, ev.holdings) && r.trades.Keys == p.trades.Keys
    decreases |ss|
  {
    if ss == [] then p
    else VisitSymbol(RunPass(p, ss[..|ss| - 1], bars, liquidateState, isAllowToTradeByTime, ev), ss[|ss| - 1],
                     bars, liquidateState, isAllowToTradeByTime, ev)
  }

  /** The symbols of `ss` that have a bar in the slice. */
  function Visited(ss: seq<Symbol>, ev: Slice): (v: set<Symbol>)
    ensures forall s :: s in v <==> s in ss && s in ev.prices
  {
    set s | s in ss && s in ev.prices
  }

  /**
   * The register every step of a pass is judged against: cleared when
   * some symbol has a bar and the day is a new one.
   */
  function StartRegister(p: Pass, ss: seq<Symbol>, ev: Slice): map<Symbol, int>
  {
    if Visited(ss, ev) != {} && p.day != ev.day then map[] else p.registered
  }

  /** The step a visited symbol takes, judged against the register `start`. */
  function PlannedStep(p: Pass, s: Symbol, start: map<Symbol, int>, bars: map<Symbol, Candles>,
                       liquidateState: LiquidateState, isAllowToTradeByTime: bool, ev: Slice): Decision
    requires PassReady(p, bars, liquidateState, ev.holdings) && s in p.trades && s in ev.prices
  {
    Decide(p.trades[s], bars[s], liquidateState, isAllowToTradeByTime, ev.prices[s], s in ev.holdings,
           CapacityAllows(MaxAllowedTradePerDay, start, s), ev.now)
  }

  /** The visited symbols whose step, judged against `start`, placed a limit buy. */
  function PassBuyers(p: Pass, ss: seq<Symbol>, start: map<Symbol, int>, bars: map<Symbol, Candles>,
                      liquidateState: LiquidateState, isAllowToTradeByTime: bool, ev: Slice): (b: set<Symbol>)
    requires PassReady(p, bars, liquidateState, ev.holdings)
    requires forall k :: 0 <= k < |ss| ==> ss[k] in p.trades
    ensures b <= Visited(ss, ev)
  {
    set s | s in Visited(ss, ev)
              && PlannedStep(p, s, start, bars, liquidateState, isAllowToTradeByTime, ev).registersBuy
  }

  /** Visiting one more symbol adds it to the buyers exactly when its step buys. */
  lemma BuyersSnoc(p: Pass, init: seq<Symbol>, x: Symbol, start: map<Symbol, int>, bars: map<Symbol, Candles>,
                   liquidateState: LiquidateState, isAllowToTradeByTime: bool, ev: Slice)
    requires PassReady(p, bars, liquidateState, ev.holdings)
    requires forall k :: 0 <= k < |init| ==> init[k] in p.trades
    requires x in p.trades
    ensures forall k :: 0 <= k < |init + [x]| ==> (init + [x])[k] in p.trades
    ensures x in ev.prices ==>
              PassBuyers(p, init + [x], start, bars, liquidateState, isAllowToTradeByTime, ev)
              == if PlannedStep(p, x, start, bars, liquidateState, isAllowToTradeByTime, ev).registersBuy
                 then PassBuyers(p, init, start, bars, liquidateState, isAllowToTradeByTime, ev) + {x}
                 else PassBuyers(p, init, start, bars, liquidateState, isAllowToTradeByTime, ev)
    ensures x !in ev.prices ==>
              PassBuyers(p, init + [x], start, bars, liquidateState, isAllowToTradeByTime, ev)
              == PassBuyers(p, init, start, bars, liquidateState, isAllowToTradeByTime, ev)
  {
    assert forall k :: 0 <= k < |init| ==> (init + [x])[k] == init[k];
    VisitedSnoc(init + [x], ev);
    assert (init + [x])[..|init|] == init;
  }

  /**
   * One visit in the middle of a pass: when the register the step sees is
   * the start register plus the earlier buyers, and the symbol's state is
   * still the one before the pass, the step is the planned one and the
   * register grows by the symbol if it buys.
   */
  lemma VisitStep(p: Pass, r': Pass, x: Symbol, start: map<Symbol, int>, buyers: set<Symbol>,
                  bars: map<Symbol, Candles>, liquidateState: LiquidateState, isAllowToTradeByTime: bool, ev: Slice)
    requires PassReady(p, bars, liquidateState, ev.holdings) && PassReady(r', bars, liquidateState, ev.holdings)
    requires x in p.trades && x in r'.trades && x in ev.prices
    requires r'.trades[x] == p.trades[x]
    requires (if r'.day != ev.day then map[] else r'.registered) == RegisteredAfter(start, buyers)
    requires x !in buyers
    ensures var d := PlannedStep(p, x, start, bars, liquidateState, isAllowToTradeByTime, ev);
            var r := VisitSymbol(r', x, bars, liquidateState, isAllowToTradeByTime, ev);
            && r.day == ev.day
            && r.trades == r'.trades[x := d.state]
            && r.orders == r'.orders[x := d.action]
            && r.registered == RegisteredAfter(start, if d.registersBuy then buyers + {x} else buyers)
  {
    CapacityBeforeOwnBuy(MaxAllowedTradePerDay, start, buyers, x);
    if PlannedStep(p, x, start, bars, liquidateState, isAllowToTradeByTime, ev).registersBuy {
      RegisterBuyExtends(start, buyers, x);
    }
  }

  /** Visiting one more symbol adds it to the visited ones exactly when it has a bar. */
  lemma VisitedSnoc(ss: seq<Symbol>, ev: Slice)
    requires ss != []
    ensures Visited(ss, ev) == Visited(ss[..|ss| - 1], ev) + (if ss[|ss| - 1] in ev.prices then {ss[|ss| - 1]} else {})
  {
    assert ss == ss[..|ss| - 1] + [ss[|ss| - 1]];
  }

  /** The last of distinct symbols is not among the ones before it. */
  lemma LastNotBefore(ss: seq<Symbol>)
    requires ss != []
    requires forall i, j :: 0 <= i < j < |ss| ==> ss[i] != ss[j]
    ensures ss[|ss| - 1] !in ss[..|ss| - 1]
  {
    var n := |ss| - 1;
    forall k | 0 <= k < n
      ensures ss[..n][k] != ss[n]
    {
      assert ss[..n][k] == ss[k];
    }
  }

  /** A pass moves to the slice's day exactly when some symbol has a bar. */
  lemma {:induction false} RunPassDay(p: Pass, ss: seq<Symbol>, bars: map<Symbol, Candles>,
                                      liquidateState: LiquidateState, isAllowToTradeByTime: bool, ev: Slice)
    requires PassReady(p, bars, liquidateState, ev.holdings)
    requires forall k :: 0 <= k < |ss| ==> ss[k] in p.trades
    ensures RunPass(p, ss, bars, liquidateState, isAllowToTradeByTime, ev).day
            == if Visited(ss, ev) != {} then ev.day else p.day
    decreases |ss|
  {
    if ss != [] {
      var n := |ss| - 1;
      assert forall k :: 0 <= k < n ==> ss[..n][k] == ss[k];
      RunPassDay(p, ss[..n], bars, liquidateState, isAllowToTradeByTime, ev);
      VisitedSnoc(ss, ev);
    }
  }

  /** A visit touches the visited symbol's state and order only, and only when it has a bar. */
  lemma VisitFrame(p: Pass, x: Symbol, bars: map<Symbol, Candles>,
                   liquidateState: LiquidateState, isAllowToTradeByTime: bool, ev: Slice)
    requires PassReady(p, bars, liquidateState, ev.holdings) && x in p.trades
    ensures var r := VisitSymbol(p, x, bars, liquidateState, isAllowToTradeByTime, ev);
            && (x !in ev.prices ==> r == p)
            && r.orders.Keys == p.orders.Keys + (if x in ev.prices then {x} else {})
            && (forall s :: s in p.orders && s != x ==> r.orders[s] == p.orders[s])
            && (forall s :: s in p.trades && s != x ==> r.trades[s] == p.trades[s])
  {
  }

  /**
   * A pass places an order for a symbol exactly when the symbol has a bar
   * (or had an order before), and leaves the state and the earlier order
   * of a symbol without a bar as they were.
   */
  lemma {:induction false} RunPassUntouched(p: Pass, ss: seq<Symbol>, bars: map<Symbol, Candles>,
                                            liquidateState: LiquidateState, isAllowToTradeByTime: bool, ev: Slice,
                                            s: Symbol)
    requires PassReady(p, bars, liquidateState, ev.holdings)
    requires forall k :: 0 <= k < |ss| ==> ss[k] in p.trades
    ensures var r := RunPass(p, ss, bars, liquidateState, isAllowToTradeByTime, ev);
            && (s in r.orders <==> s in p.orders || s in Visited(ss, ev))
            && (s in p.orders && s !in Visited(ss, ev) ==> r.orders[s] == p.orders[s])
            && (s in p.trades && s !in Visited(ss, ev) ==> r.trades[s] == p.trades[s])
    decreases |ss|
  {
    if ss != [] {
      var n := |ss| - 1;
      assert forall k :: 0 <= k < n ==> ss[..n][k] == ss[k];
      RunPassUntouched(p, ss[..n], bars, liquidateState, isAllowToTradeByTime, ev, s);
      VisitedSnoc(ss, ev);
      VisitFrame(RunPass(p, ss[..n], bars, liquidateState, isAllowToTradeByTime, ev), ss[n],
                 bars, liquidateState, isAllowToTradeByTime, ev);
    }
  }

  /**
   * The register after a pass over distinct symbols: the start register
   * plus one buy order for each symbol that placed a limit buy.
   */
  lemma {:induction false} RunPassRegister(p: Pass, ss: seq<Symbol>, bars: map<Symbol, Candles>,
                                           liquidateState: LiquidateState, isAllowToTradeByTime: bool, ev: Slice)
    requires PassReady(p, bars, liquidateState, ev.holdings)
    requires forall k :: 0 <= k < |ss| ==> ss[k] in p.trades
    requires forall i, j :: 0 <= i < j < |ss| ==> ss[i] != ss[j]
    ensures var start := StartRegister(p, ss, ev);
            RunPass(p, ss, bars, liquidateState, isAllowToTradeByTime, ev).registered
            == RegisteredAfter(start, PassBuyers(p, ss, start, bars, liquidateState, isAllowToTradeByTime, ev))
    decreases |ss|
  {
    var start := StartRegister(p, ss, ev);
    if ss == [] {
      RegisteredAfterNone(p.registered);
    } else {
      var n := |ss| - 1;
      var init, x := ss[..n], ss[n];
      assert forall k :: 0 <= k < n ==> init[k] == ss[k];
      assert ss == init + [x];
      RunPassRegister(p, init, bars, liquidateState, isAllowToTradeByTime, ev);
      BuyersSnoc(p, init, x, start, bars, liquidateState, isAllowToTradeByTime, ev);
      VisitedSnoc(ss, ev);
      if x in ev.prices {
        StepAfterInit(p, ss, bars, liquidateState, isAllowToTradeByTime, ev);
      } else {
        assert Visited(ss, ev) == Visited(init, ev) + {} == Visited(init, ev);
        assert RunPass(p, ss, bars, liquidateState, isAllowToTradeByTime, ev)
            == RunPass(p, init, bars, liquidateState, isAllowToTradeByTime, ev);
      }
    }
  }

  /**
   * The last visit of a pass, given what the lemmas above say about the
   * pass over the symbols before it.
   */
  lemma StepAfterInit(p: Pass, ss: seq<Symbol>, bars: map<Symbol, Candles>,
                      liquidateState: LiquidateState, isAllowToTradeByTime: bool, ev: Slice)
    requires PassReady(p, bars, liquidateState, ev.holdings)
    requires forall k :: 0 <= k < |ss| ==> ss[k] in p.trades
    requires forall i, j :: 0 <= i < j < |ss| ==> ss[i] != ss[j]
    requires ss != [] && ss[|ss| - 1] in ev.prices
    requires var init := ss[..|ss| - 1];
             var start := StartRegister(p, init, ev);
             RunPass(p, init, bars, liquidateState, isAllowToTradeByTime, ev).registered
             == RegisteredAfter(start, PassBuyers(p, init, start, bars, liquidateState, isAllowToTradeByTime, ev))
    ensures var init, x := ss[..|ss| - 1], ss[|ss| - 1];
            var start := StartRegister(p, ss, ev);
            var buyers := PassBuyers(p, init, start, bars, liquidateState, isAllowToTradeByTime, ev);
            var d := PlannedStep(p, x, start, bars, liquidateState, isAllowToTradeByTime, ev);
            var r' := RunPass(p, init, bars, liquidateState, isAllowToTradeByTime, ev);
            var r := RunPass(p, ss, bars, liquidateState, isAllowToTradeByTime, ev);
            && r.day == ev.day
            && r.trades == r'.trades[x := d.state]
            && r.orders == r'.orders[x := d.action]
            && r.registered == RegisteredAfter(start, if d.registersBuy then buyers + {x} else buyers)
  {
    var n := |ss| - 1;
    var init, x := ss[..n], ss[n];
    assert forall k :: 0 <= k < n ==> init[k] == ss[k];
    RunPassUntouched(p, init, bars, liquidateState, isAllowToTradeByTime, ev, x);
    LastNotBefore(ss);
    VisitedSnoc(ss, ev);
    var start := StartRegister(p, ss, ev);
    var buyers := PassBuyers(p, init, start, bars, liquidateState, isAllowToTradeByTime, ev);
    var r' := RunPass(p, init, bars, liquidateState, isAllowToTradeByTime, ev);
    RegisterBeforeLast(p, ss, bars, liquidateState, isAllowToTradeByTime, ev);
    VisitStep(p, r', x, start, buyers, bars, liquidateState, isAllowToTradeByTime, ev);
  }

  /**
   * The register the last visit of a pass sees: the start register plus
   * the buyers among the symbols before it.
   */
  lemma RegisterBeforeLast(p: Pass, ss: seq<Symbol>, bars: map<Symbol, Candles>,
                           liquidateState: LiquidateState, isAllowToTradeByTime: bool, ev: Slice)
    requires PassReady(p, bars, liquidateState, ev.holdings)
    requires forall k :: 0 <= k < |ss| ==> ss[k] in p.trades
    requires ss != [] && ss[|ss| - 1] in ev.prices
    requires var init := ss[..|ss| - 1];
             var start := StartRegister(p, init, ev);
             RunPass(p, init, bars, liquidateState, isAllowToTradeByTime, ev).registered
             == RegisteredAfter(start, PassBuyers(p, init, start, bars, liquidateState, isAllowToTradeByTime, ev))
    ensures var init := ss[..|ss| - 1];
            var start := StartRegister(p, ss, ev);
            var r' := RunPass(p, init, bars, liquidateState, isAllowToTradeByTime, ev);
            (if r'.day != ev.day then map[] else r'.registered)
            == RegisteredAfter(start, PassBuyers(p, init, start, bars, liquidateState, isAllowToTradeByTime, ev))
  {
    var init := ss[..|ss| - 1];
    RunPassDay(p, init, bars, liquidateState, isAllowToTradeByTime, ev);
    VisitedSnoc(ss, ev);
    if Visited(init, ev) == {} {
      RegisteredAfterNone(p.registered);
      RegisteredAfterNone(StartRegister(p, ss, ev));
    } else {
      assert StartRegister(p, init, ev) == StartRegister(p, ss, ev);
    }
  }

  /** The last symbol of a pass, when it has a bar, takes the planned step. */
  lemma LastVisit(p: Pass, ss: seq<Symbol>, bars: map<Symbol, Candles>,
                  liquidateState: LiquidateState, isAllowToTradeByTime: bool, ev: Slice)
    requires PassReady(p, bars, liquidateState, ev.holdings)
    requires forall k :: 0 <= k < |ss| ==> ss[k] in p.trades
    requires forall i, j :: 0 <= i < j < |ss| ==> ss[i] != ss[j]
    requires ss != [] && ss[|ss| - 1] in ev.prices
    ensures var x := ss[|ss| - 1];
            var r := RunPass(p, ss, bars, liquidateState, isAllowToTradeByTime, ev);
            var d := PlannedStep(p, x, StartRegister(p, ss, ev), bars, liquidateState, isAllowToTradeByTime, ev);
            && x in r.orders
            && r.trades[x] == d.state && r.orders[x] == d.action
  {
    var n := |ss| - 1;
    assert forall k :: 0 <= k < n ==> ss[..n][k] == ss[k];
    RunPassRegister(p, ss[..n], bars, liquidateState, isAllowToTradeByTime, ev);
    StepAfterInit(p, ss, bars, liquidateState, isAllowToTradeByTime, ev);
  }

  /**
   * Each symbol with a bar takes one `Decide` step from its state before
   * the pass, judged against the start register: the other symbols' buys
   * in the same pass never change its allowance.
   */
  lemma {:induction false} RunPassSteps(p: Pass, ss: seq<Symbol>, bars: map<Symbol, Candles>,
                                        liquidateState: LiquidateState, isAllowToTradeByTime: bool, ev: Slice,
                                        s: Symbol)
    requires PassReady(p, bars, liquidateState, ev.holdings)
    requires forall k :: 0 <= k < |ss| ==> ss[k] in p.trades
    requires forall i, j :: 0 <= i < j < |ss| ==> ss[i] != ss[j]
    requires s in ss && s in ev.prices
    ensures var r := RunPass(p, ss, bars, liquidateState, isAllowToTradeByTime, ev);
            var d := PlannedStep(p, s, StartRegister(p, ss, ev), bars, liquidateState, isAllowToTradeByTime, ev);
            && s in r.orders
            && r.trades[s] == d.state && r.orders[s] == d.action
    decreases |ss|
  {
    var n := |ss| - 1;
    var init, x := ss[..n], ss[n];
    assert forall k :: 0 <= k < n ==> init[k] == ss[k];
    assert ss == init + [x];
    VisitedSnoc(ss, ev);
    if s == x {
      LastVisit(p, ss, bars, liquidateState, isAllowToTradeByTime, ev);
    } else {
      assert s in init;
      RunPassSteps(p, init, bars, liquidateState, isAllowToTradeByTime, ev, s);
      assert StartRegister(p, init, ev) == StartRegister(p, ss, ev);
      VisitFrame(RunPass(p, init, bars, liquidateState, isAllowToTradeByTime, ev), x,
                 bars, liquidateState, isAllowToTradeByTime, ev);
    }
  }

  /**
   * The order in which `Initialize` lists the symbols: each symbol at its
   * first occurrence, later repeats dropped (`AddEquity` skips a symbol it
   * already trades).
   */
  function FirstOccurrences(ss: seq<Symbol>): (r: seq<Symbol>)
    ensures |r| <= |ss|
  {
    if ss == [] then []
    else
      var d := FirstOccurrences(ss[..|ss| - 1]);
      if ss[|ss| - 1] in d then d else d + [ss[|ss| - 1]]
  }

  /** The symbols kept are those of `ss`, each listed once. */
  lemma {:induction false} FirstOccurrencesElements(ss: seq<Symbol>)
    ensures forall x :: x in FirstOccurrences(ss) <==> x in ss
    ensures forall i, j :: 0 <= i < j < |FirstOccurrences(ss)| ==> FirstOccurrences(ss)[i] != FirstOccurrences(ss)[j]
  {
    if ss != [] {
      var init := ss[..|ss| - 1];
      FirstOccurrencesElements(init);
      assert ss == init + [ss[|ss| - 1]];
      var d, x := FirstOccurrences(init), ss[|ss| - 1];
      if x !in d {
        var r := d + [x];
        assert FirstOccurrences(ss) == r;
        forall i, j | 0 <= i < j < |r|
          ensures r[i] != r[j]
        {
          if j == |d| {
            assert r[i] == d[i] && r[j] == x;
          } else {
            assert r[i] == d[i] && r[j] == d[j];
          }
        }
      }
    }
  }

  /** One more symbol is appended exactly when it is new. */
  lemma FirstOccurrencesSnoc(ss: seq<Symbol>, x: Symbol)
    ensures FirstOccurrences(ss + [x]) == if x in ss then FirstOccurrences(ss) else FirstOccurrences(ss) + [x]
  {
    assert (ss + [x])[..|ss|] == ss;
    FirstOccurrencesElements(ss);
  }

  /** A list without repeats is kept as it is, in its own order. */
  lemma {:induction false} FirstOccurrencesOfDistinct(ss: seq<Symbol>)
    requires forall i, j :: 0 <= i < j < |ss| ==> ss[i] != ss[j]
    ensures FirstOccurrences(ss) == ss
  {
    if ss != [] {
      var init := ss[..|ss| - 1];
      FirstOccurrencesOfDistinct(init);
      assert forall k :: 0 <= k < |init| ==> init[k] == ss[k] && ss[k] != ss[|ss| - 1];
      assert init + [ss[|ss| - 1]] == ss;
    }
  }

  /** `VWAPStrategy`: the algorithm's own fields and handlers. */
  class VwapStrategy {
    const stocksTrading: StocksTrading
    var isAllowToTradeByTime: bool
    var currentTradingDay: int
    var liquidateState: LiquidateState

    ghost predicate Valid()
      reads stocksTrading`equities, stocksTrading`symbols
      reads stocksTrading.equities.Values`invested, stocksTrading.equities.Values`lastEntryPrice
      reads stocksTrading.equities.Values`lastEntryExitOnLostPrice, stocksTrading.equities.Values`lastEntryExitOnWinPrice
      reads stocksTrading.equities.Values`currentTradingWindow, stocksTrading.equities.Values`lowPriceWindow
      reads stocksTrading.equities.Values`firstCandle
    {
      stocksTrading.Valid() && stocksTrading.maxAllowedTradePerDay == MaxAllowedTradePerDay
    }

    /**
     * `Initialize`: a registry capped at one buy per symbol and day, one
     * model per distinct symbol stamped with the current time, each with
     * its VWAP indicator registered under "vwap". `symbols` are the
     * engine's symbols for the tickers of `EquitiesSymbols`, in order.
     */
    constructor (now: int, symbols: seq<Symbol>)
      ensures Valid() && fresh(stocksTrading)
      ensures !isAllowToTradeByTime && currentTradingDay == -1 && liquidateState == Normal
      ensures stocksTrading.registeredOrders == map[]
      ensures stocksTrading.equities.Keys == set s | s in symbols
      ensures stocksTrading.symbols == FirstOccurrences(symbols)
      ensures forall s :: s in stocksTrading.equities ==>
                && fresh(stocksTrading.equities[s])
                && stocksTrading.equities[s].View()
                   == EquityView(map["vwap" := Indicator("vwap", s)], TradeState(false, None, None, None, Some(now)),
                                 None, true, None, Candles(None, EmptyWindow(1), EmptyWindow(1)))
    {
      stocksTrading := new StocksTrading(MaxAllowedTradePerDay);
      isAllowToTradeByTime := false;
      currentTradingDay := -1;
      liquidateState := Normal;
      new;
      AddEquities(now, symbols);
      RegisterVwapIndicators();
    }

    /** The first loop of `Initialize`: subscribe every symbol, in order. */
    method AddEquities(now: int, symbols: seq<Symbol>)
      requires Valid() && stocksTrading.equities == map[] && stocksTrading.symbols == []
      modifies stocksTrading`equities, stocksTrading`symbols
      ensures Valid()
      ensures stocksTrading.equities.Keys == set s | s in symbols
      ensures stocksTrading.symbols == FirstOccurrences(symbols)
      ensures forall s :: s in stocksTrading.equities ==>
                && fresh(stocksTrading.equities[s])
                && stocksTrading.equities[s].View()
                   == EquityView(map[], TradeState(false, None, None, None, Some(now)),
                                 None, true, None, Candles(None, EmptyWindow(1), EmptyWindow(1)))
    {
      var i := 0;
      while i < |symbols|
        invariant 0 <= i <= |symbols|
        invariant Valid()
        invariant stocksTrading.equities.Keys == set s | s in symbols[..i]
        invariant stocksTrading.symbols == FirstOccurrences(symbols[..i])
        invariant forall s :: s in stocksTrading.equities ==>
                    && fresh(stocksTrading.equities[s])
                    && stocksTrading.equities[s].View()
                       == EquityView(map[], TradeState(false, None, None, None, Some(now)),
                                     None, true, None, Candles(None, EmptyWindow(1), EmptyWindow(1)))
      {
        AddNextEquity(now, symbols, i);
        assert symbols[..i + 1] == symbols[..i] + [symbols[i]];
        i := i + 1;
      }
      assert symbols[..i] == symbols;
    }

    /** The body of the first `Initialize` loop: subscribe `symbols[i]`. */
    method AddNextEquity(now: int, symbols: seq<Symbol>, i: int)
      requires 0 <= i < |symbols| && Valid()
      requires stocksTrading.equities.Keys == set s | s in symbols[..i]
      requires stocksTrading.symbols == FirstOccurrences(symbols[..i])
      modifies stocksTrading`equities, stocksTrading`symbols
      ensures Valid()
      ensures stocksTrading.equities.Keys == old(stocksTrading.equities.Keys) + {symbols[i]}
      ensures stocksTrading.symbols == FirstOccurrences(symbols[..i + 1])
      ensures forall s :: s in old(stocksTrading.equities) ==> stocksTrading.equities[s] == old(stocksTrading.equities[s])
      ensures symbols[i] !in old(stocksTrading.equities) ==>
                && fresh(stocksTrading.equities[symbols[i]])
                && stocksTrading.equities[symbols[i]].View()
                   == EquityView(map[], TradeState(false, None, None, None, Some(now)),
                                 None, true, None, Candles(None, EmptyWindow(1), EmptyWindow(1)))
    {
      ghost var known := symbols[i] in symbols[..i];
      assert known <==> symbols[i] in stocksTrading.equities;
      var _ := stocksTrading.AddEquity(symbols[i], now);
      assert symbols[..i + 1] == symbols[..i] + [symbols[i]];
      FirstOccurrencesSnoc(symbols[..i], symbols[i]);
    }

    /** The second loop of `Initialize`: register each model's VWAP indicator as "vwap". */
    method RegisterVwapIndicators()
      requires Valid()
      modifies (set s | s in stocksTrading.equities :: stocksTrading.equities[s])`indicators
      ensures Valid()
      ensures forall s :: s in stocksTrading.equities ==>
                stocksTrading.equities[s].indicators
                == if "vwap" in old(stocksTrading.equities[s].indicators) then old(stocksTrading.equities[s].indicators)
                   else old(stocksTrading.equities[s].indicators)["vwap" := Indicator("vwap", s)]
    {
      var symbols := stocksTrading.symbols;
      var i := 0;
      while i < |symbols|
        invariant 0 <= i <= |symbols|
        invariant forall s :: s in stocksTrading.equities ==>
                    stocksTrading.equities[s].indicators
                    == if s !in symbols[..i] || "vwap" in old(stocksTrading.equities[s].indicators)
                       then old(stocksTrading.equities[s].indicators)
                       else old(stocksTrading.equities[s].indicators)["vwap" := Indicator("vwap", s)]
      {
        stocksTrading.RegisterIndicatorForEquity(symbols[i], "vwap", Indicator("vwap", symbols[i]));
        assert symbols[..i + 1] == symbols[..i] + [symbols[i]];
        i := i + 1;
      }
      assert symbols[..i] == symbols;
    }

    /** `ResetDataAfterMarketOpenHandler`: trading by time on, Normal state, first candle and windows cleared. */
    method ResetDataAfterMarketOpenHandler()
      requires Valid()
      modifies this`isAllowToTradeByTime, this`liquidateState
      modifies stocksTrading.equities.Values`firstCandle, stocksTrading.equities.Values`currentTradingWindow,
               stocksTrading.equities.Values`lowPriceWindow
      ensures Valid()
      ensures isAllowToTradeByTime && liquidateState == Normal
      ensures forall s :: s in stocksTrading.equities ==>
                stocksTrading.equities[s].Bars() == Candles(None, EmptyWindow(1), EmptyWindow(1))
    {
      isAllowToTradeByTime := true;
      liquidateState := Normal;
      var symbols := stocksTrading.symbols;
      var i := 0;
      while i < |symbols|
        invariant 0 <= i <= |symbols|
        invariant isAllowToTradeByTime && liquidateState == Normal
        invariant Valid()
        invariant forall s :: s in symbols[..i] ==>
                    stocksTrading.equities[s].Bars() == Candles(None, EmptyWindow(1), EmptyWindow(1))
      {
        stocksTrading.equities[symbols[i]].ClearCandles();
        assert symbols[..i + 1] == symbols[..i] + [symbols[i]];
        i := i + 1;
      }
      assert symbols[..i] == symbols;
    }

    /** `BeforeMarketCloseHandler`: trading by time off, each model remembers the engine's last price. */
    method BeforeMarketCloseHandler(securityPrices: map<Symbol, real>)
      requires Valid()
      requires forall s :: s in stocksTrading.equities ==> s in securityPrices
      modifies this`isAllowToTradeByTime, stocksTrading.equities.Values`lastDayClosePrice
      ensures Valid()
      ensures !isAllowToTradeByTime
      ensures forall s :: s in stocksTrading.equities ==>
                stocksTrading.equities[s].lastDayClosePrice == Some(securityPrices[s])
    {
      isAllowToTradeByTime := false;
      var symbols := stocksTrading.symbols;
      var i := 0;
      while i < |symbols|
        invariant 0 <= i <= |symbols|
        invariant !isAllowToTradeByTime && Valid() && stocksTrading.symbols == symbols
        invariant forall s :: s in symbols[..i] ==> stocksTrading.equities[s].lastDayClosePrice == Some(securityPrices[s])
      {
        var symbol := symbols[i];
        var e := stocksTrading.equities[symbol];
        e.lastDayClosePrice := Some(securityPrices[symbol]);
        assert symbols[..i + 1] == symbols[..i] + [symbols[i]];
        i := i + 1;
      }
      assert symbols[..i] == symbols;
    }

    method BeforeMarketCloseTryToLiquidateOnWinStateHandler()
      modifies this`liquidateState
      ensures liquidateState == ToWin
    {
      liquidateState := ToWin;
    }

    method BeforeMarketCloseLiquidateOnDayStateHandler()
      modifies this`liquidateState
      ensures liquidateState == Force
    {
      liquidateState := Force;
    }

    method PassSecondMinHandler()
      modifies this`isAllowToTradeByTime
      ensures !isAllowToTradeByTime
    {
      isAllowToTradeByTime := false;
    }

    /**
     * `CurrentTradingWindowConsolidateHandler`: the bar enters its symbol's
     * trading window and becomes the first candle if none is latched yet.
     */
    method CurrentTradingWindowConsolidateHandler(bar: Bar)
      requires Valid()
      modifies stocksTrading.equities.Values
      ensures Valid()
      ensures forall s :: s in stocksTrading.equities && s != bar.symbol ==>
                stocksTrading.equities[s].View() == old(stocksTrading.equities[s].View())
      ensures bar.symbol in stocksTrading.equities ==>
                var c := old(stocksTrading.equities[bar.symbol].Bars());
                stocksTrading.equities[bar.symbol].View()
                == old(stocksTrading.equities[bar.symbol].View()).(candles := c.(
                     tradingWindow := c.tradingWindow.Add(bar),
                     firstCandle := FirstCandleAfter(c.firstCandle, [bar])))
    {
      var equity := stocksTrading.GetEquity(bar.symbol);
      if equity.Some? {
        var e := equity.value;
        e.currentTradingWindow := e.currentTradingWindow.Add(bar);
        if e.firstCandle.None? {
          e.firstCandle := Some(bar);
        }
      }
    }

    /** `LowConsolidateHandler`: the bar enters its symbol's low-price window. */
    method LowConsolidateHandler(bar: Bar)
      requires Valid()
      modifies stocksTrading.equities.Values
      ensures Valid()
      ensures forall s :: s in stocksTrading.equities && s != bar.symbol ==>
                stocksTrading.equities[s].View() == old(stocksTrading.equities[s].View())
      ensures bar.symbol in stocksTrading.equities ==>
                var c := old(stocksTrading.equities[bar.symbol].Bars());
                stocksTrading.equities[bar.symbol].View()
                == old(stocksTrading.equities[bar.symbol].View()).(candles := c.(lowWindow := c.lowWindow.Add(bar)))
    {
      var equity := stocksTrading.GetEquity(bar.symbol);
      if equity.Some? {
        var e := equity.value;
        e.lowPriceWindow := e.lowPriceWindow.Add(bar);
      }
    }

    /** `UpdateOpenPriceAfterMarketOpenHandler`: recompute the gap flag from the last close, if known. */
    method UpdateOpenPriceAfterMarketOpenHandler(e: EquityTradeModel, openPrice: real)
      requires e.lastDayClosePrice.Some? ==> openPrice != 0.0
      modifies e`isAllowToTradeByGapPercent
      ensures e.isAllowToTradeByGapPercent
              == GapFlagAfterOpen(old(e.isAllowToTradeByGapPercent), e.lastDayClosePrice, openPrice,
                                  e.defaultGapPercentAllowToTrade)
    {
      if e.lastDayClosePrice.None? {
        return;
      }
      var gapPercent := MarketGapPercent(e.lastDayClosePrice.value, openPrice);
      e.isAllowToTradeByGapPercent := gapPercent > e.defaultGapPercentAllowToTrade;
    }

    /**
     * `UpdateLastBrokenCandle`: a no-op unless a "vwap" indicator is
     * registered; `vwap` is that indicator's current value.
     */
    method UpdateLastBrokenCandle(e: EquityTradeModel, vwap: real)
      requires e.currentTradingWindow.bars != []
      modifies e`lastBrokenCandle
      ensures e.lastBrokenCandle
              == if "vwap" in e.indicators
                 then BrokenCandleLatch(old(e.lastBrokenCandle), e.currentTradingWindow.Latest(), vwap)
                 else old(e.lastBrokenCandle)
    {
      var currentTradingWindow := e.currentTradingWindow.Latest();
      var indicator := e.GetIndicator("vwap");
      if indicator.None? {
        return;
      }
      if e.lastBrokenCandle.Some? && currentTradingWindow.low < vwap && currentTradingWindow.close < vwap {
        e.lastBrokenCandle := None;
        return;
      }
      if e.lastBrokenCandle.None? && IsPositiveBrokenCandle(Some(vwap), currentTradingWindow) {
        e.lastBrokenCandle := Some(currentTradingWindow);
      }
    }

    /** The entry branch of the loop body of `OnData`. */
    method EnterToBuy(symbol: Symbol, e: EquityTradeModel, price: real, now: int) returns (action: Action)
      requires Valid() && symbol in stocksTrading.equities && e == stocksTrading.equities[symbol]
      requires !ShouldIgnoreOnDataEvent(e.Bars())
      modifies stocksTrading`registeredOrders
      modifies e`invested, e`lastEntryPrice, e`lastEntryExitOnLostPrice, e`lastEntryExitOnWinPrice, e`lastTradeTime
      ensures Valid()
      ensures var d := EnterDecision(old(e.Trade()), e.Bars(), price, now);
              && e.Trade() == d.state && action == d.action
              && stocksTrading.registeredOrders
                 == if d.registersBuy then RegisterBuy(old(stocksTrading.registeredOrders), symbol)
                    else old(stocksTrading.registeredOrders)
    {
      action := NoAction;
      e.RecordEntry(price, MinPrice(e.lowPriceWindow.Latest().low, e.currentTradingWindow.Latest().low));
      var denominator := price - e.lastEntryExitOnLostPrice.value;
      if denominator == 0.0 {
        return;
      }
      var countActionsToBuy := TruncateToInt(RiskPerTrade / denominator);
      action := LimitBuy(countActionsToBuy, price + LimitPriceOffset);
      e.SetLastTradeTime(Some(now));
      stocksTrading.RegisterBuyOrder(symbol);
    }

    /** The exit branch of the loop body of `OnData`. */
    method ExitOnLostOrWin(symbol: Symbol, e: EquityTradeModel, price: real, now: int) returns (action: Action)
      requires Valid() && symbol in stocksTrading.equities && e == stocksTrading.equities[symbol]
      requires e.invested
      modifies e`invested, e`lastTradeTime
      ensures Valid()
      ensures var d := ExitDecision(old(e.Trade()), price, now);
              e.Trade() == d.state && action == d.action
    {
      action := NoAction;
      if e.lastEntryExitOnLostPrice.value > price || e.lastEntryExitOnWinPrice.value <= price {
        e.invested := false;
        action := Liquidate;
        e.SetLastTradeTime(Some(now));
      }
    }

    /** The loop body of `OnData` for one symbol that has a bar, after the day check. */
    method TradeEquity(symbol: Symbol, e: EquityTradeModel, price: real, held: bool, now: int) returns (action: Action)
      requires Valid() && symbol in stocksTrading.equities && e == stocksTrading.equities[symbol]
      requires liquidateState == ToWin && held ==> e.lastEntryPrice.Some?
      modifies stocksTrading`registeredOrders
      modifies e`invested, e`lastEntryPrice, e`lastEntryExitOnLostPrice, e`lastEntryExitOnWinPrice, e`lastTradeTime
      ensures Valid()
      ensures var d := Decide(old(e.Trade()), e.Bars(), liquidateState, isAllowToTradeByTime, price, held,
                              CapacityAllows(MaxAllowedTradePerDay, old(stocksTrading.registeredOrders), symbol), now);
              && e.Trade() == d.state
              && action == d.action
              && stocksTrading.registeredOrders
                 == if d.registersBuy then RegisterBuy(old(stocksTrading.registeredOrders), symbol)
                    else old(stocksTrading.registeredOrders)
    {
      action := NoAction;
      if ShouldIgnoreOnDataEvent(e.Bars()) {
        return;
      }
      if ShouldLiquidateToWin(liquidateState, held, e.lastEntryPrice, price) || ShouldForceLiquidate(liquidateState, held) {
        action := Liquidate;
        return;
      }
      if !e.invested && stocksTrading.IsAllowToBuyByTradesPerDayCapacity(symbol)
         && ShouldEnterToBuy(isAllowToTradeByTime, e.firstCandle, price) {
        action := EnterToBuy(symbol, e, price, now);
      } else if e.invested {
        action := ExitOnLostOrWin(symbol, e, price, now);
      }
    }

    /** The day check of the loop body of `OnData`: the first bar of a new day clears the buy register. */
    method StartTradingDay(day: int)
      requires Valid()
      modifies this`currentTradingDay, stocksTrading`registeredOrders
      ensures Valid()
      ensures stocksTrading.TradesBySymbol() == old(stocksTrading.TradesBySymbol())
      ensures stocksTrading.BarsBySymbol() == old(stocksTrading.BarsBySymbol())
      ensures currentTradingDay == day
      ensures stocksTrading.registeredOrders
              == if old(currentTradingDay) != day then map[] else old(stocksTrading.registeredOrders)
    {
      if currentTradingDay != day {
        stocksTrading.ResetDailyTradeRegister();
        currentTradingDay := day;
      }
    }

    /** `TradeEquity` seen from the registry: only `symbol`'s trade fields change. */
    method TradeSymbol(symbol: Symbol, e: EquityTradeModel, price: real, held: bool, now: int) returns (action: Action)
      requires Valid() && symbol in stocksTrading.equities && e == stocksTrading.equities[symbol]
      requires liquidateState == ToWin && held ==> e.lastEntryPrice.Some?
      modifies stocksTrading`registeredOrders
      modifies e`invested, e`lastEntryPrice, e`lastEntryExitOnLostPrice, e`lastEntryExitOnWinPrice, e`lastTradeTime
      ensures Valid()
      ensures var d := Decide(old(stocksTrading.TradesBySymbol())[symbol], stocksTrading.BarsBySymbol()[symbol],
                              liquidateState, isAllowToTradeByTime, price, held,
                              CapacityAllows(MaxAllowedTradePerDay, old(stocksTrading.registeredOrders), symbol), now);
              && stocksTrading.TradesBySymbol() == old(stocksTrading.TradesBySymbol())[symbol := d.state]
              && action == d.action
              && stocksTrading.registeredOrders
                 == if d.registersBuy then RegisterBuy(old(stocksTrading.registeredOrders), symbol)
                    else old(stocksTrading.registeredOrders)
      ensures stocksTrading.BarsBySymbol() == old(stocksTrading.BarsBySymbol())
    {
      action := TradeEquity(symbol, e, price, held, now);
      forall s | s in stocksTrading.equities && s != symbol
        ensures stocksTrading.equities[s].Trade() == old(stocksTrading.equities[s].Trade())
      {
        assert stocksTrading.equities[s].symbol == s;
      }
      assert stocksTrading.TradesBySymbol() == old(stocksTrading.TradesBySymbol())[symbol := e.Trade()];
    }

    /** The loop body of `OnData` for a symbol that has a bar, as one `VisitSymbol` step of pass `p`. */
    method VisitEquity(symbol: Symbol, e: EquityTradeModel, ev: Slice, ghost p: Pass) returns (action: Action)
      requires Valid() && symbol in stocksTrading.equities && e == stocksTrading.equities[symbol] && symbol in ev.prices
      requires p.day == currentTradingDay && p.trades == stocksTrading.TradesBySymbol()
      requires p.registered == stocksTrading.registeredOrders
      requires PassReady(p, stocksTrading.BarsBySymbol(), liquidateState, ev.holdings)
      modifies this`currentTradingDay, stocksTrading`registeredOrders
      modifies e`invested, e`lastEntryPrice, e`lastEntryExitOnLostPrice, e`lastEntryExitOnWinPrice, e`lastTradeTime
      ensures Valid() && stocksTrading.BarsBySymbol() == old(stocksTrading.BarsBySymbol())
      ensures var r := VisitSymbol(p, symbol, stocksTrading.BarsBySymbol(), liquidateState, isAllowToTradeByTime, ev);
              && currentTradingDay == r.day && stocksTrading.TradesBySymbol() == r.trades
              && stocksTrading.registeredOrders == r.registered && r.orders == p.orders[symbol := action]
    {
      StartTradingDay(ev.day);
      action := TradeSymbol(symbol, e, ev.prices[symbol], symbol in ev.holdings, ev.now);
    }

    /** The invariant of the `OnData` loop after the first `i` symbols. */
    ghost predicate PassInvariant(symbols: seq<Symbol>, i: int, p0: Pass, p: Pass, bars: map<Symbol, Candles>,
                                  ev: Slice, orders: map<Symbol, Action>)
      reads this`currentTradingDay, this`liquidateState, this`isAllowToTradeByTime
      reads stocksTrading`equities, stocksTrading`symbols, stocksTrading`registeredOrders
      reads stocksTrading.equities.Values`invested, stocksTrading.equities.Values`lastEntryPrice
      reads stocksTrading.equities.Values`lastEntryExitOnLostPrice, stocksTrading.equities.Values`lastEntryExitOnWinPrice
      reads stocksTrading.equities.Values`currentTradingWindow, stocksTrading.equities.Values`lowPriceWindow
      reads stocksTrading.equities.Values`firstCandle, stocksTrading.equities.Values`lastTradeTime
    {
      && 0 <= i <= |symbols|
      && Valid() && stocksTrading.symbols == symbols && stocksTrading.BarsBySymbol() == bars
      && PassReady(p0, bars, liquidateState, ev.holdings) && p0.trades.Keys == stocksTrading.equities.Keys
      && p == RunPass(p0, symbols[..i], bars, liquidateState, isAllowToTradeByTime, ev)
      && currentTradingDay == p.day && stocksTrading.TradesBySymbol() == p.trades
      && stocksTrading.registeredOrders == p.registered && orders == p.orders
    }

    /** The loop body of `OnData` for the symbol at position `i`. */
    method OnDataStep(symbols: seq<Symbol>, i: int, ghost p0: Pass, ghost p: Pass, ghost bars: map<Symbol, Candles>,
                      ev: Slice, orders: map<Symbol, Action>)
      returns (orders': map<Symbol, Action>, ghost p': Pass)
      requires PassInvariant(symbols, i, p0, p, bars, ev, orders) && i < |symbols|
      modifies this`currentTradingDay, stocksTrading`registeredOrders
      modifies stocksTrading.equities.Values`invested, stocksTrading.equities.Values`lastEntryPrice
      modifies stocksTrading.equities.Values`lastEntryExitOnLostPrice, stocksTrading.equities.Values`lastEntryExitOnWinPrice
      modifies stocksTrading.equities.Values`lastTradeTime
      ensures PassInvariant(symbols, i + 1, p0, p', bars, ev, orders')
    {
      var symbol := symbols[i];
      assert symbols[..i + 1][..i] == symbols[..i];
      orders' := orders;
      if symbol in ev.prices {
        var e := stocksTrading.equities[symbol];
        var action := VisitEquity(symbol, e, ev, p);
        orders' := orders[symbol := action];
      }
      p' := VisitSymbol(p, symbol, bars, liquidateState, isAllowToTradeByTime, ev);
    }

    /**
     * `OnData`: one `VisitSymbol` step per model, in insertion order.
     * `barPrices` holds the price of each symbol's bar in this slice,
     * `holdings` the symbols the engine holds a position in; `orders` is
     * what was asked of the engine.
     */
    method OnData(day: int, now: int, barPrices: map<Symbol, real>, holdings: set<Symbol>)
      returns (orders: map<Symbol, Action>)
      requires Valid()
      requires forall s :: liquidateState == ToWin && s in holdings && s in stocksTrading.equities ==>
                 stocksTrading.equities[s].lastEntryPrice.Some?
      modifies this`currentTradingDay, stocksTrading`registeredOrders
      modifies stocksTrading.equities.Values`invested, stocksTrading.equities.Values`lastEntryPrice
      modifies stocksTrading.equities.Values`lastEntryExitOnLostPrice, stocksTrading.equities.Values`lastEntryExitOnWinPrice
      modifies stocksTrading.equities.Values`lastTradeTime
      ensures Valid()
      ensures var r := RunPass(Pass(old(currentTradingDay), old(stocksTrading.TradesBySymbol()),
                                    old(stocksTrading.registeredOrders), map[]),
                               stocksTrading.symbols, stocksTrading.BarsBySymbol(), liquidateState,
                               isAllowToTradeByTime, Slice(day, now, barPrices, holdings));
              && currentTradingDay == r.day && stocksTrading.TradesBySymbol() == r.trades
              && stocksTrading.registeredOrders == r.registered && orders == r.orders
    {
      var ev := Slice(day, now, barPrices, holdings);
      ghost var bars := stocksTrading.BarsBySymbol();
      ghost var p0 := Pass(currentTradingDay, stocksTrading.TradesBySymbol(), stocksTrading.registeredOrders, map[]);
      ghost var p := p0;
      orders := map[];
      var symbols := stocksTrading.symbols;
      var i := 0;
      while i < |symbols|
        invariant PassInvariant(symbols, i, p0, p, bars, ev, orders)
      {
        orders, p := OnDataStep(symbols, i, p0, p, bars, ev, orders);
        i := i + 1;
      }
      assert symbols[..i] == symbols;
    }
  }
}
