/**
 * Vocabulary shared by the intraday strategies: bars, the engine's
 * rolling windows, order actions, the liquidation state, and the price
 * arithmetic both strategy files use in the same form.
 *
 * Prices are exact reals; the scripts use binary floating point, which
 * this model abstracts away. Times are whole seconds.
 */
module Market {

  /**
   * The engine's `Symbol` handle of a subscribed security. The scripts
   * only compare symbols and use them as dictionary keys, so a symbol is
   * modelled by a number identifying it.
   */
  type Symbol = int

  datatype Option<+T> = None | Some(value: T)

  /** One consolidated OHLC bar of a symbol, stamped with its start time. */
  datatype Bar = Bar(symbol: Symbol, time: int, open: real, high: real, low: real, close: real)

  /** A handle to an engine-computed indicator; its value is an input to the model. */
  datatype Indicator = Indicator(name: string, symbol: Symbol)

  /** How an open position must be handled near the close. */
  datatype LiquidateState =
    | Normal   // closing is not mandatory
    | ToWin    // close when the price has not fallen below the entry
    | Force    // close now

  /** What a data event asks the engine to do for one symbol. */
  datatype Action =
    | NoAction
    | Liquidate
    | LimitBuy(quantity: int, limitPrice: real)
    | MarketBuy(quantity: int)

  /**
   * The engine's fixed-capacity window of the most recent bars,
   * most recent first (index 0).
   */
  datatype RollingWindow = RollingWindow(size: nat, bars: seq<Bar>)
  {
    predicate Valid() { 1 <= size && |bars| <= size }

    /** Ready once it holds as many bars as its capacity. */
    predicate IsReady() { |bars| == size }

    function Latest(): Bar
      requires bars != []
    {
      bars[0]
    }

    /** Pushes a bar in front, dropping the oldest one when full. */
    function Add(b: Bar): (w: RollingWindow)
      requires Valid()
      ensures w.Valid() && w.size == size
      ensures w.bars != [] && w.Latest() == b
      ensures |w.bars| == if |bars| < size then |bars| + 1 else size
      ensures forall k :: 1 <= k < |w.bars| ==> w.bars[k] == bars[k - 1]
    {
      var n := if |bars| < size then |bars| + 1 else size;
      RollingWindow(size, ([b] + bars)[..n])
    }
  }

  /** A freshly created `RollingWindow[TradeBar](size)`. */
  function EmptyWindow(size: nat): RollingWindow
    requires 1 <= size
  {
    RollingWindow(size, [])
  }

  /** The window after the consolidator delivered `bs`, in order. */
  function AddAll(w: RollingWindow, bs: seq<Bar>): (r: RollingWindow)
    requires w.Valid()
    ensures r.Valid() && r.size == w.size
    decreases |bs|
  {
    if bs == [] then w else AddAll(w.Add(bs[0]), bs[1..])
  }

  function MinInt(a: int, b: int): int { if a <= b then a else b }

  /** Adding bars fills the window up to its capacity and keeps the last bar in front. */
  lemma {:induction false} AddAllFills(w: RollingWindow, bs: seq<Bar>)
    requires w.Valid()
    ensures |AddAll(w, bs).bars| == MinInt(w.size, |w.bars| + |bs|)
    ensures bs != [] ==> AddAll(w, bs).bars != [] && AddAll(w, bs).Latest() == bs[|bs| - 1]
    decreases |bs|
  {
    if bs != [] {
      AddAllFills(w.Add(bs[0]), bs[1..]);
    }
  }

  /** A window created empty is ready exactly after `size` bars. */
  lemma ReadyAfterSizeBars(size: nat, bs: seq<Bar>)
    requires 1 <= size
    ensures AddAll(EmptyWindow(size), bs).IsReady() <==> |bs| >= size
  {
    AddAllFills(EmptyWindow(size), bs);
  }

  /** Python's `int(x)` on a float: truncation toward zero. */
  function TruncateToInt(x: real): (n: int)
    ensures 0.0 <= x ==> 0 <= n && n as real <= x < n as real + 1.0
    ensures x < 0.0 ==> n <= 0 && n as real - 1.0 < x <= n as real
  {
    if 0.0 <= x then x.Floor else -((-x).Floor)
  }

  /** Python's `min(a, b)`. */
  function MinPrice(a: real, b: real): (m: real)
    ensures m <= a && m <= b
    ensures m == a || m == b
  {
    if b < a then b else a
  }

  /** The opening gap in percent of the opening price. */
  function MarketGapPercent(lastClose: real, open: real): (gap: real)
    requires open != 0.0
    ensures gap * open == (open - lastClose) * 100.0
  {
    (open - lastClose) / open * 100.0
  }

  /** For a positive opening price the gap is positive exactly when the market opened above the last close. */
  lemma GapSign(lastClose: real, open: real)
    requires 0.0 < open
    ensures MarketGapPercent(lastClose, open) > 0.0 <==> open > lastClose
    ensures MarketGapPercent(lastClose, open) == 0.0 <==> open == lastClose
  {
    var gap := MarketGapPercent(lastClose, open);
    assert gap * open == (open - lastClose) * 100.0;
    if gap > 0.0 {
      assert gap * open > 0.0;
    } else if gap < 0.0 {
      assert gap * open < 0.0;
    }
  }

  /**
   * `UpdateOpenPriceAfterMarketOpenHandler`: the gap flag after the open,
   * left as it was while no previous close is known.
   */
  function GapFlagAfterOpen(flag: bool, lastDayClosePrice: Option<real>, openPrice: real, defaultGapPercent: real): bool
    requires lastDayClosePrice.Some? ==> openPrice != 0.0
  {
    if lastDayClosePrice.None? then flag
    else MarketGapPercent(lastDayClosePrice.value, openPrice) > defaultGapPercent
  }

  /** With the configured default of 0 percent, trading is allowed after a gap up only. */
  lemma GapFlagWithDefaultZero(flag: bool, lastClose: real, openPrice: real)
    requires 0.0 < openPrice
    ensures GapFlagAfterOpen(flag, Some(lastClose), openPrice, 0.0) <==> openPrice > lastClose
  {
    GapSign(lastClose, openPrice);
  }

  /**
   * Close the position in the ToWin state: only when the engine holds it
   * and the price is not below the entry. The entry price is read only
   * when the first two conditions hold, as Python's `and` does.
   */
  predicate ShouldLiquidateToWin(state: LiquidateState, held: bool, lastEntryPrice: Option<real>, price: real)
    requires state == ToWin && held ==> lastEntryPrice.Some?
  {
    state == ToWin && held && lastEntryPrice.value <= price
  }

  /** Close the position unconditionally in the Force state. */
  predicate ShouldForceLiquidate(state: LiquidateState, held: bool)
  {
    state == Force && held
  }

  /** In the Normal state no time-based liquidation happens, whatever the price. */
  lemma NormalStateNeverLiquidatesByTime(held: bool, lastEntryPrice: Option<real>, price: real)
    ensures !ShouldLiquidateToWin(Normal, held, lastEntryPrice, price)
    ensures !ShouldForceLiquidate(Normal, held)
  {
  }

  /** The liquidation rules only act on a position the engine holds. */
  lemma TimeLiquidationNeedsPosition(state: LiquidateState, lastEntryPrice: Option<real>, price: real)
    ensures !ShouldLiquidateToWin(state, false, lastEntryPrice, price)
    ensures !ShouldForceLiquidate(state, false)
  {
  }
}
