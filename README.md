# Intraday strategy state machines, modelled in Dafny

This project models two intraday trading strategies written for the
QuantConnect engine, together with the per-symbol trade registry that one of
them uses:

- **Second-minute-candle strategy** (`Second_Min_Candle_v0.0.1.py`, class
  `VWAPStrategy`). It trades nineteen equities. The first one-minute candle of
  each day is latched. A limit buy is placed when the price rises above that
  candle's high. The stop is the lower low of two one-bar windows. The target
  is twice the risk above the entry. The order is sized to a fixed risk of
  200, and each symbol may buy at most once per day. Near the close,
  positions are liquidated by time: in the ToWin state only when the price has
  not fallen below the entry, in the Force state always.
- **Its registry** (`EquityTradeModel`, `QCEquityTradeModel`, `StocksTrading`
  and `QCStocksTrading` in the same file). It keeps one mutable trade model
  per symbol, in insertion order. Each model has a name-to-indicator table
  with boolean register and unregister calls. A per-symbol counter of the
  day's buy orders is checked against the daily cap.
- **The VWAP strategy, version 0.0.0.7** (`VWAP_v0.0.0.7.py`, class `VWAP`).
  It trades one equity against its volume-weighted average price. It latches
  the last "positive broken" one-minute candle: one that straddles the VWAP
  and closes at or above it. It buys with a market order sized to the same
  risk budget when the price rises above such a candle's high. It exits under
  the five-minute low or above a 1:1 target. A lower opening gap switches
  trading off for the day.

Files:

- `market.dfy` (module `Market`) holds the shared vocabulary: bars, the
  engine's rolling window as a value, order actions, the liquidation state,
  Python's `int()` truncation, `min`, the opening-gap percentage and the two
  time-liquidation rules.
- `second_min_candle_registry.dfy` (module `SecondMinCandleRegistry`) holds the
  trade model and registry classes, and the buy-order register as a pure map
  with its laws.
- `second_min_candle_strategy.dfy` (module `SecondMinCandleStrategy`) holds the
  per-symbol decision `Decide`, the `OnData` loop as a left fold `RunPass`
  with lemmas about what each symbol ends with, and the class `VwapStrategy`.
  The class's handlers and `OnData` are proved against those functions.
- `vwap_v7.dfy` (module `VwapV7`) holds the VWAP strategy. `Step` is one
  `OnData` call as a pure function, with lemmas for each trading rule. The
  class `Vwap` has the algorithm's fields and handlers, and its `OnData` is
  proved equal to `Step`.

The engine is outside the model. Prices, the clock, the VWAP value and its
readiness, the consolidated bars, and whether the engine holds a position are
parameters. Orders come back as `Action` values instead of calls to
`LimitOrder`, `MarketOrder` or `Liquidate`. Prices are exact `real` numbers,
an abstraction of the scripts' binary floating point. Times are whole
seconds.

## Model

| member | source | states |
|---|---|---|
| Market.AddAllFills | QuantConnect/SecondMinCandle/Second_Min_Candle_v0.0.1.py:158-168 | Consolidated bars fill a rolling window up to its capacity, and the last bar added is the one at index 0. |
| Market.ReadyAfterSizeBars | QuantConnect/SecondMinCandle/Second_Min_Candle_v0.0.1.py:119-123 | A window created empty is ready exactly once it has received as many bars as its capacity. |
| Market.TruncateToInt | QuantConnect/SecondMinCandle/Second_Min_Candle_v0.0.1.py:105 | `int(x)` truncates toward zero: the floor for non-negative x, the ceiling for negative x. |
| Market.MinPrice | QuantConnect/SecondMinCandle/Second_Min_Candle_v0.0.1.py:100 | `min(a, b)` is one of its arguments and is at most both. |
| Market.MarketGapPercent | QuantConnect/SecondMinCandle/Second_Min_Candle_v0.0.1.py:211-212 | The gap times the opening price is 100 times the move from the last close. |
| Market.GapSign | QuantConnect/VWAP-strategies/VWAP_v0.0.0.7.py:179-180 | For a positive opening price the gap is positive iff the open is above the last close, and zero iff they are equal. |
| Market.GapFlagWithDefaultZero | QuantConnect/SecondMinCandle/Second_Min_Candle_v0.0.1.py:125-129 | With the default gap threshold of 0 and a known close, trading becomes allowed iff the market opened above the last close. |
| Market.NormalStateNeverLiquidatesByTime | QuantConnect/SecondMinCandle/Second_Min_Candle_v0.0.1.py:171-182 | In the Normal state neither time-liquidation rule fires, whatever the price, position or entry price. |
| Market.TimeLiquidationNeedsPosition | QuantConnect/SecondMinCandle/Second_Min_Candle_v0.0.1.py:171-182 | Neither time-liquidation rule fires when the engine holds no position. |
| Market.GapFlagAfterOpen | QuantConnect/SecondMinCandle/Second_Min_Candle_v0.0.1.py:125-129 | The gap flag after the open: unchanged without a last close, otherwise `gap > default`; `GapFlagWithDefaultZero` states what it means for the default threshold. |
| Market.ShouldLiquidateToWin | QuantConnect/SecondMinCandle/Second_Min_Candle_v0.0.1.py:171-176 | The ToWin rule fires only in the ToWin state on a held position whose price is not below the entry; the entry is read only in that case. `NormalStateNeverLiquidatesByTime` and `TimeLiquidationNeedsPosition` state its guards. |
| Market.ShouldForceLiquidate | QuantConnect/SecondMinCandle/Second_Min_Candle_v0.0.1.py:178-182 | The Force rule fires exactly on a held position in the Force state; the same two lemmas state its guards. |
| SecondMinCandleRegistry.EquityTradeModel.constructor | QuantConnect/SecondMinCandle/Second_Min_Candle_v0.0.1.py:271-278 | A new model has no indicators, no entry, no trade time, gap trading allowed, no latched candles and two empty one-bar windows. |
| SecondMinCandleRegistry.EquityTradeModel.RegisterIndicator | QuantConnect/SecondMinCandle/Second_Min_Candle_v0.0.1.py:247-251 | Returns true iff the name was absent; on true the name maps to the indicator, on false the table is unchanged. |
| SecondMinCandleRegistry.EquityTradeModel.UnRegisterIndicator | QuantConnect/SecondMinCandle/Second_Min_Candle_v0.0.1.py:254-258 | Returns true iff the name was present; afterwards the name is absent and nothing else in the table changed. |
| SecondMinCandleRegistry.EquityTradeModel.GetIndicator | QuantConnect/SecondMinCandle/Second_Min_Candle_v0.0.1.py:266-269 | Returns the stored indicator iff the name is registered, and None otherwise. |
| SecondMinCandleRegistry.EquityTradeModel.ClearCandles | QuantConnect/SecondMinCandle/Second_Min_Candle_v0.0.1.py:135-138 | One model's first candle is cleared and both windows are empty again; its trade fields stay consistent. |
| SecondMinCandleRegistry.EquityTradeModel.RecordEntry | QuantConnect/SecondMinCandle/Second_Min_Candle_v0.0.1.py:97-101 | An entry marks the model invested and records the price, the stop and the target `price + 2 * (price - stop)`; nothing else changes. |
| SecondMinCandleRegistry.EquityTradeModel.SetLastTradeTime | QuantConnect/SecondMinCandle/Second_Min_Candle_v0.0.1.py:260-261 | The trade time becomes the given one. |
| SecondMinCandleRegistry.EquityTradeModel.ResetEquityLastTradeTime | QuantConnect/SecondMinCandle/Second_Min_Candle_v0.0.1.py:263-264 | The trade time is cleared; the override inside `QCEquityTradeModel.__init__` at lines 280-281 is a local function and never replaces it. |
| SecondMinCandleRegistry.RegisterBuy | QuantConnect/SecondMinCandle/Second_Min_Candle_v0.0.1.py:333-336 | A symbol's first buy order leaves its count at 2 and each later one adds 1; other symbols' counts are unchanged. |
| SecondMinCandleRegistry.CountAfterOrders | QuantConnect/SecondMinCandle/Second_Min_Candle_v0.0.1.py:333-336 | After n >= 1 buy orders of a symbol that had none, its count is n + 1, and the other symbols' counts are as before. |
| SecondMinCandleRegistry.AllowedAfterOrders | QuantConnect/SecondMinCandle/Second_Min_Candle_v0.0.1.py:338-343 | After n buys of a symbol since the reset, another is allowed iff the cap is -1, n is 0, or n + 1 is at most the cap. |
| SecondMinCandleRegistry.BuysPerDayUnderCap | QuantConnect/SecondMinCandle/Second_Min_Candle_v0.0.1.py:338-343 | With a cap of at least 1, a buy is allowed after n buys of the day iff n is below the cap, so exactly cap buys get through. |
| SecondMinCandleRegistry.ConfiguredCapBlocksSecondBuy | QuantConnect/SecondMinCandle/Second_Min_Candle_v0.0.1.py:22 | With the configured cap of 1, a symbol may buy once and is blocked after its first buy order. |
| SecondMinCandleRegistry.ResetAllowsEverySymbol | QuantConnect/SecondMinCandle/Second_Min_Candle_v0.0.1.py:345-346 | After the daily reset every symbol is allowed to buy, whatever the cap. |
| SecondMinCandleRegistry.OtherSymbolsCapacityUnchanged | QuantConnect/SecondMinCandle/Second_Min_Candle_v0.0.1.py:333-343 | A buy order of one symbol does not change whether another symbol may buy. |
| SecondMinCandleRegistry.RegisterBuyExtends | QuantConnect/SecondMinCandle/Second_Min_Candle_v0.0.1.py:333-336 | Registering one buy of a new symbol on top of a set of buyers gives the register for the set extended by that symbol, whatever the order of the buys. |
| SecondMinCandleRegistry.CapacityBeforeOwnBuy | QuantConnect/SecondMinCandle/Second_Min_Candle_v0.0.1.py:338-343 | The buys of other symbols leave a symbol's allowance what it was at the start of the day's register. |
| SecondMinCandleRegistry.CapacityAllows | QuantConnect/SecondMinCandle/Second_Min_Candle_v0.0.1.py:338-343 | The daily-cap test on a register: `AllowedAfterOrders`, `BuysPerDayUnderCap` and `ResetAllowsEverySymbol` state what it allows. |
| SecondMinCandleRegistry.StocksTrading.constructor | QuantConnect/SecondMinCandle/Second_Min_Candle_v0.0.1.py:284-288 | A new registry has no equities and no buy orders, and keeps the given cap, with -1 meaning unlimited. |
| SecondMinCandleRegistry.StocksTrading.AddEquity | QuantConnect/SecondMinCandle/Second_Min_Candle_v0.0.1.py:354-361 | A symbol already traded leaves the registry unchanged and answers `False`. Otherwise a fresh model stamped with the current time is appended, the existing models stay as they were, and the answer is `None`. |
| SecondMinCandleRegistry.StocksTrading.RegisterIndicatorForEquity | QuantConnect/SecondMinCandle/Second_Min_Candle_v0.0.1.py:302-305 | For a traded symbol, the indicator is stored under the name unless the name is already registered; the registry stays well formed. |
| SecondMinCandleRegistry.StocksTrading.UnRegisterIndicatorForEquity | QuantConnect/SecondMinCandle/Second_Min_Candle_v0.0.1.py:308-311 | Returns true iff the symbol is traded and had the name; afterwards a traded symbol's model no longer has it. |
| SecondMinCandleRegistry.StocksTrading.GetTradingEquities | QuantConnect/SecondMinCandle/Second_Min_Candle_v0.0.1.py:317-318 | Gives every model once, in insertion order, each model knowing its own symbol. |
| SecondMinCandleRegistry.StocksTrading.GetEquitiesTradingSymbols | QuantConnect/SecondMinCandle/Second_Min_Candle_v0.0.1.py:314-315 | The traded symbols are exactly those of the insertion order. |
| SecondMinCandleRegistry.StocksTrading.TotalStocksBeingTrading | QuantConnect/SecondMinCandle/Second_Min_Candle_v0.0.1.py:321-322 | The number of traded equities equals the number of symbols in insertion order. |
| SecondMinCandleRegistry.StocksTrading.IsEquityBeingTrading | QuantConnect/SecondMinCandle/Second_Min_Candle_v0.0.1.py:324-325 | A symbol is traded iff it is in the insertion order. |
| SecondMinCandleRegistry.StocksTrading.GetEquity | QuantConnect/SecondMinCandle/Second_Min_Candle_v0.0.1.py:328-331 | Gives the model iff the symbol is traded, and that model's symbol is the one asked for; None otherwise. |
| SecondMinCandleRegistry.StocksTrading.RegisterBuyOrder | QuantConnect/SecondMinCandle/Second_Min_Candle_v0.0.1.py:333-336 | The register becomes `RegisterBuy` of the old one, so the counting laws above apply to it. |
| SecondMinCandleRegistry.StocksTrading.IsAllowToBuyByTradesPerDayCapacity | QuantConnect/SecondMinCandle/Second_Min_Candle_v0.0.1.py:338-343 | `CapacityAllows` on the registry's own cap and register, so the cap lemmas apply to it. |
| SecondMinCandleRegistry.StocksTrading.ResetDailyTradeRegister | QuantConnect/SecondMinCandle/Second_Min_Candle_v0.0.1.py:345-346 | The register is empty afterwards. |
| SecondMinCandleStrategy.ShouldIgnoreOnDataEvent | QuantConnect/SecondMinCandle/Second_Min_Candle_v0.0.1.py:119-123 | An event is ignored while either window is not ready; `IgnoredWhileWindowsFill` states that nothing then changes. |
| SecondMinCandleStrategy.ShouldEnterToBuy | QuantConnect/SecondMinCandle/Second_Min_Candle_v0.0.1.py:187-189 | The entry signal: trading by time is on and the price is above the first candle's high; `EntryRule` states when it leads to an entry. |
| SecondMinCandleStrategy.IsPositiveBrokenCandle | QuantConnect/SecondMinCandle/Second_Min_Candle_v0.0.1.py:191-195 | A candle with a VWAP value, low under it and close at or above it; `BrokenCandleLatch` states its effect on the latch. |
| SecondMinCandleStrategy.EnterDecision | QuantConnect/SecondMinCandle/Second_Min_Candle_v0.0.1.py:97-109 | The entry branch; `EntryRule`, `ZeroRiskEntryExitsNextStep` and `EntryQuantitySign` state its prices, order and size. |
| SecondMinCandleStrategy.ExitDecision | QuantConnect/SecondMinCandle/Second_Min_Candle_v0.0.1.py:111-116 | The exit branch; `ExitRule` states when it closes the position and what it writes. |
| SecondMinCandleStrategy.Decide | QuantConnect/SecondMinCandle/Second_Min_Candle_v0.0.1.py:78-116 | One symbol's loop body after the day check; `DecideKeepsValid`, `IgnoredWhileWindowsFill`, `TimeLiquidationKeepsModel`, `EntryRule` and `ExitRule` state each branch. |
| SecondMinCandleStrategy.DecideKeepsValid | QuantConnect/SecondMinCandle/Second_Min_Candle_v0.0.1.py:78-116 | Each symbol's step leaves an invested model with entry, stop and target known, and counts a buy iff it placed a limit order. |
| SecondMinCandleStrategy.IgnoredWhileWindowsFill | QuantConnect/SecondMinCandle/Second_Min_Candle_v0.0.1.py:119-123 | While either window lacks its bar, the step places no order and changes nothing. |
| SecondMinCandleStrategy.TimeLiquidationKeepsModel | QuantConnect/SecondMinCandle/Second_Min_Candle_v0.0.1.py:87-91 | When a time-liquidation rule fires, the step liquidates and leaves the model's own flag, prices and time unchanged. |
| SecondMinCandleStrategy.EntryRule | QuantConnect/SecondMinCandle/Second_Min_Candle_v0.0.1.py:93-109 | An entry happens iff the windows are full, no time liquidation fires, the model is not invested, the cap allows it, trading by time is on, and the price is above the first candle's high. The stop is min of the two lows and the target is twice the risk above the entry. With nonzero risk it places `LimitBuy(int(200 / risk), price + 0.01)`, counts the buy and stamps the time. With zero risk there is no order and no count, but the model is already invested. |
| SecondMinCandleStrategy.ExitRule | QuantConnect/SecondMinCandle/Second_Min_Candle_v0.0.1.py:111-116 | While invested and not liquidated by time, the position is closed iff the price is under the stop or at or above the target. Closing clears the flag and stamps the time; otherwise nothing changes. |
| SecondMinCandleStrategy.ZeroRiskEntryExitsNextStep | QuantConnect/SecondMinCandle/Second_Min_Candle_v0.0.1.py:101-104 | A zero-risk entry has stop equal to target, so the next exit test closes it at any price. |
| SecondMinCandleStrategy.EntryQuantitySign | QuantConnect/SecondMinCandle/Second_Min_Candle_v0.0.1.py:105 | The order size is at least 1 for a risk of at most 200, zero for a larger risk, and not positive when the stop lies above the price. |
| SecondMinCandleStrategy.FirstCandleLatch | QuantConnect/SecondMinCandle/Second_Min_Candle_v0.0.1.py:158-163 | After a reset the first consolidated bar becomes the first candle, and later bars never overwrite it. |
| SecondMinCandleStrategy.BrokenCandleLatch | QuantConnect/SecondMinCandle/Second_Min_Candle_v0.0.1.py:197-209 | A latched candle is dropped when a candle's low and close are both under the VWAP. An empty latch takes a candle with low under and close at or above, and stays empty for any other candle. A low at or above the VWAP, or a latched candle with close at or above, leaves it unchanged. |
| SecondMinCandleStrategy.VisitSymbol | QuantConnect/SecondMinCandle/Second_Min_Candle_v0.0.1.py:67-116 | One pass of the loop body keeps every model ready for its next step and keeps the set of models; `VisitFrame` states what it touches. |
| SecondMinCandleStrategy.RunPass | QuantConnect/SecondMinCandle/Second_Min_Candle_v0.0.1.py:66-116 | The loop over the symbols keeps every model ready and the set of models; `RunPassDay`, `RunPassUntouched`, `RunPassRegister` and `RunPassSteps` state the outcome per symbol. |
| SecondMinCandleStrategy.RunPassDay | QuantConnect/SecondMinCandle/Second_Min_Candle_v0.0.1.py:74-76 | After the loop the current trading day is the slice's day iff some traded symbol had a bar, and is unchanged otherwise. |
| SecondMinCandleStrategy.VisitFrame | QuantConnect/SecondMinCandle/Second_Min_Candle_v0.0.1.py:67-70 | One pass of the loop body touches only its own symbol's state and order, and only when the symbol has a bar. |
| SecondMinCandleStrategy.RunPassUntouched | QuantConnect/SecondMinCandle/Second_Min_Candle_v0.0.1.py:67-70 | A symbol gets an order iff it has a bar; a symbol without a bar keeps its trade fields. |
| SecondMinCandleStrategy.RunPassRegister | QuantConnect/SecondMinCandle/Second_Min_Candle_v0.0.1.py:74-109 | After the loop the register is the start register (cleared on a new day) plus one buy order for each symbol whose step placed a limit buy. |
| SecondMinCandleStrategy.RunPassSteps | QuantConnect/SecondMinCandle/Second_Min_Candle_v0.0.1.py:66-116 | Each symbol with a bar ends with one `Decide` step taken from its state before the loop, judged against the start register; other symbols' buys in the same loop never change its allowance. |
| SecondMinCandleStrategy.FirstOccurrencesElements | QuantConnect/SecondMinCandle/Second_Min_Candle_v0.0.1.py:28-30 | The symbols `Initialize` lists are those it was given, each listed once. |
| SecondMinCandleStrategy.FirstOccurrencesSnoc | QuantConnect/SecondMinCandle/Second_Min_Candle_v0.0.1.py:354-361 | One more symbol is appended to the list exactly when it is not yet traded. |
| SecondMinCandleStrategy.FirstOccurrencesOfDistinct | QuantConnect/SecondMinCandle/Second_Min_Candle_v0.0.1.py:26-30 | Given symbols without repeats, as the configured tickers are, the registry lists them in their own order. |
| SecondMinCandleStrategy.VwapStrategy.constructor | QuantConnect/SecondMinCandle/Second_Min_Candle_v0.0.1.py:14-64 | Trading by time is off, no trading day is set yet, the state is Normal and the cap is 1. Every distinct subscribed symbol has a fresh model stamped with the current time, which holds exactly its VWAP indicator under "vwap". The symbols are listed in the order of their first occurrence. |
| SecondMinCandleStrategy.VwapStrategy.AddEquities | QuantConnect/SecondMinCandle/Second_Min_Candle_v0.0.1.py:28-30 | The traded symbols are exactly the given ones, listed in the order of their first occurrence; each has a fresh model stamped with the current time. |
| SecondMinCandleStrategy.VwapStrategy.AddNextEquity | QuantConnect/SecondMinCandle/Second_Min_Candle_v0.0.1.py:28-30 | One pass of the subscription loop adds the symbol to the traded set, extends the order as `FirstOccurrences` says, keeps the existing models, and gives a new symbol a fresh model stamped with the current time. |
| SecondMinCandleStrategy.VwapStrategy.RegisterVwapIndicators | QuantConnect/SecondMinCandle/Second_Min_Candle_v0.0.1.py:57-61 | Every model without a "vwap" indicator gets its own symbol's VWAP under that name, and the others keep theirs. |
| SecondMinCandleStrategy.VwapStrategy.ResetDataAfterMarketOpenHandler | QuantConnect/SecondMinCandle/Second_Min_Candle_v0.0.1.py:132-138 | Trading by time is on, the state is Normal, and every model's first candle and windows are cleared. |
| SecondMinCandleStrategy.VwapStrategy.BeforeMarketCloseHandler | QuantConnect/SecondMinCandle/Second_Min_Candle_v0.0.1.py:142-145 | Trading by time is off, and every model records the engine's current price of its symbol as the last day close. |
| SecondMinCandleStrategy.VwapStrategy.BeforeMarketCloseTryToLiquidateOnWinStateHandler | QuantConnect/SecondMinCandle/Second_Min_Candle_v0.0.1.py:147-148 | The liquidation state becomes ToWin and nothing else changes. |
| SecondMinCandleStrategy.VwapStrategy.BeforeMarketCloseLiquidateOnDayStateHandler | QuantConnect/SecondMinCandle/Second_Min_Candle_v0.0.1.py:150-151 | The liquidation state becomes Force and nothing else changes. |
| SecondMinCandleStrategy.VwapStrategy.PassSecondMinHandler | QuantConnect/SecondMinCandle/Second_Min_Candle_v0.0.1.py:154-155 | Trading by time is off and nothing else changes. |
| SecondMinCandleStrategy.VwapStrategy.CurrentTradingWindowConsolidateHandler | QuantConnect/SecondMinCandle/Second_Min_Candle_v0.0.1.py:158-163 | The bar enters its own symbol's trading window and becomes the first candle if none is latched; other models do not change. |
| SecondMinCandleStrategy.VwapStrategy.LowConsolidateHandler | QuantConnect/SecondMinCandle/Second_Min_Candle_v0.0.1.py:165-168 | The bar enters its own symbol's low-price window; other models do not change. |
| SecondMinCandleStrategy.VwapStrategy.UpdateOpenPriceAfterMarketOpenHandler | QuantConnect/SecondMinCandle/Second_Min_Candle_v0.0.1.py:125-129 | The gap flag becomes `gap > default` when a last close is known, and stays as it was otherwise. |
| SecondMinCandleStrategy.VwapStrategy.UpdateLastBrokenCandle | QuantConnect/SecondMinCandle/Second_Min_Candle_v0.0.1.py:197-209 | Without a registered "vwap" indicator the latch is unchanged; with one, it follows `BrokenCandleLatch` on the latest candle. |
| SecondMinCandleStrategy.VwapStrategy.EnterToBuy | QuantConnect/SecondMinCandle/Second_Min_Candle_v0.0.1.py:97-109 | The model's trade fields, the order and the buy register are those of the pure entry decision. |
| SecondMinCandleStrategy.VwapStrategy.ExitOnLostOrWin | QuantConnect/SecondMinCandle/Second_Min_Candle_v0.0.1.py:111-116 | The model's trade fields and the order are those of the pure exit decision. |
| SecondMinCandleStrategy.VwapStrategy.TradeEquity | QuantConnect/SecondMinCandle/Second_Min_Candle_v0.0.1.py:78-116 | One symbol's loop body after the day check does what `Decide` says, with the cap judged on the register as it stands. |
| SecondMinCandleStrategy.VwapStrategy.StartTradingDay | QuantConnect/SecondMinCandle/Second_Min_Candle_v0.0.1.py:74-76 | The first bar of a new day clears the buy register and sets the day; the models do not change. |
| SecondMinCandleStrategy.VwapStrategy.TradeSymbol | QuantConnect/SecondMinCandle/Second_Min_Candle_v0.0.1.py:78-116 | Only the visited symbol's trade fields change, to those of its `Decide` step; the candles of every model stay as they were. |
| SecondMinCandleStrategy.VwapStrategy.VisitEquity | QuantConnect/SecondMinCandle/Second_Min_Candle_v0.0.1.py:72-116 | The loop body for a symbol with a bar performs exactly one `VisitSymbol` step on the day, the trade fields and the register. |
| SecondMinCandleStrategy.VwapStrategy.OnData | QuantConnect/SecondMinCandle/Second_Min_Candle_v0.0.1.py:66-116 | The trading day, every model's trade fields, the buy register and the orders placed equal the fold `RunPass` over the symbols in insertion order. The `RunPass` lemmas above then give each symbol's outcome. |
| VwapV7.LatchTakesPositiveCandle | QuantConnect/VWAP-strategies/VWAP_v0.0.0.7.py:164-170 | A positive broken candle becomes the latch, whatever was latched before. |
| VwapV7.LatchDroppedBelowVwap | QuantConnect/VWAP-strategies/VWAP_v0.0.0.7.py:164-170 | A set latch is dropped by a candle whose low is under the VWAP and that is not positive broken. |
| VwapV7.LatchKeptAtOrAboveVwap | QuantConnect/VWAP-strategies/VWAP_v0.0.0.7.py:164-170 | A candle whose low is at or above the VWAP leaves the latch unchanged. |
| VwapV7.IsPositiveBrokenCandle | QuantConnect/VWAP-strategies/VWAP_v0.0.0.7.py:159-162 | A candle straddling the VWAP and closing at or above it; `LatchTakesPositiveCandle` states that it becomes the latch. |
| VwapV7.LatchAfter | QuantConnect/VWAP-strategies/VWAP_v0.0.0.7.py:164-170 | The two latch tests in turn; `LatchTakesPositiveCandle`, `LatchDroppedBelowVwap` and `LatchKeptAtOrAboveVwap` state its cases. |
| VwapV7.ShouldEnterToBuy | QuantConnect/VWAP-strategies/VWAP_v0.0.0.7.py:153-157 | The entry signal on the latest candle; `EntryAfterLatchUpdate` states what it amounts to after the latch update. |
| VwapV7.EntryAfterLatchUpdate | QuantConnect/VWAP-strategies/VWAP_v0.0.0.7.py:153-157 | Since the latch is updated with the latest candle just before the test, the entry test holds iff that candle is positive broken and the price is above its high. |
| VwapV7.OpenDay | QuantConnect/VWAP-strategies/VWAP_v0.0.0.7.py:71-73 | The first bar of a new day sets the day and recomputes the gap flag from the last close; a bar of the same day changes nothing; no other field changes. |
| VwapV7.GapRaises | QuantConnect/VWAP-strategies/VWAP_v0.0.0.7.py:71-72 | The first bar of a new day with a last close known and an opening price of 0 raises in the gap division; `ZeroDivisionCauses` states it. |
| VwapV7.ShouldIgnoreOnDataEvent | QuantConnect/VWAP-strategies/VWAP_v0.0.0.7.py:102-113 | The event filter; `NoOrderDuringCooldown`, `NoOrderOutsideTradingTime` and `IgnoredEventPlacesNoOrder` state its effect. |
| VwapV7.Entry | QuantConnect/VWAP-strategies/VWAP_v0.0.0.7.py:89-94 | The entry branch; `EntryRule`, `EntryQuantity` and `ZeroDivisionCauses` state its order, size and error. |
| VwapV7.Exit | QuantConnect/VWAP-strategies/VWAP_v0.0.0.7.py:95-99 | The exit branch; `ExitRule` states when it liquidates and what it writes. |
| VwapV7.Step | QuantConnect/VWAP-strategies/VWAP_v0.0.0.7.py:63-99 | An `OnData` call keeps the state well formed and never writes the windows, the liquidation state, the time flag or the last close. |
| VwapV7.NoBarNoChange | QuantConnect/VWAP-strategies/VWAP_v0.0.0.7.py:65-66 | Without a bar for the equity, no order is placed and nothing changes. |
| VwapV7.IgnoredEventPlacesNoOrder | QuantConnect/VWAP-strategies/VWAP_v0.0.0.7.py:102-113 | An ignored event places no order and leaves the latch, entry price, entry low and trade time unchanged. It raises iff the gap division does. |
| VwapV7.NoOrderDuringCooldown | QuantConnect/VWAP-strategies/VWAP_v0.0.0.7.py:111-112 | Within 60 seconds of the last trade no order of any kind is placed. |
| VwapV7.NoOrderOutsideTradingTime | QuantConnect/VWAP-strategies/VWAP_v0.0.0.7.py:105-106 | While trading by time is off, no order of any kind is placed. |
| VwapV7.NoEntryUnlessNormal | QuantConnect/VWAP-strategies/VWAP_v0.0.0.7.py:86-87 | Outside the Normal state no market buy is placed and the entry price is not written. |
| VwapV7.TimeLiquidation | QuantConnect/VWAP-strategies/VWAP_v0.0.0.7.py:81-84 | On a traded event with a position outside the Normal state, the position is liquidated iff the state is Force or the price is not below the entry price read. The trade time is left unchanged. |
| VwapV7.EntryRule | QuantConnect/VWAP-strategies/VWAP_v0.0.0.7.py:89-94 | On a traded event in the Normal state without a position, a market buy of `int(200 / (price - low))` is placed iff the latest candle is positive broken, the price is above its high, and the price differs from the five-minute low. The entry price, the low and the trade time are recorded. When the price equals that low the division raises, after the entry price and low were recorded. |
| VwapV7.ExitRule | QuantConnect/VWAP-strategies/VWAP_v0.0.0.7.py:95-99 | In the Normal state with a position, the position is liquidated iff the price is under the entry low or strictly above the 1:1 target. Liquidating stamps the trade time; the entry fields never change. |
| VwapV7.ZeroDivisionCauses | QuantConnect/VWAP-strategies/VWAP_v0.0.0.7.py:63-99 | A call raises exactly when the gap division meets a zero opening price, or when an entry meets a zero per-share risk. |
| VwapV7.EntryQuantity | QuantConnect/VWAP-strategies/VWAP_v0.0.0.7.py:92 | Above the entry low the size buys at most 200 of per-share risk and one more share would exceed it; below it the size is not positive. |
| VwapV7.GapUpAllowsTrading | QuantConnect/VWAP-strategies/VWAP_v0.0.0.7.py:115-119 | With the default threshold 0 and a known close, the first bar of a new day allows trading iff it opens above the last close. |
| VwapV7.EquityTradeModel.constructor | QuantConnect/VWAP-strategies/VWAP_v0.0.0.7.py:186-199 | A new model has no indicators, entry, close or trade time, and allows trading by gap with the given threshold. |
| VwapV7.EquityTradeModel.RegisterIndicator | QuantConnect/VWAP-strategies/VWAP_v0.0.0.7.py:208-212 | Returns true iff the name was absent, and then stores it; on false the table is unchanged. |
| VwapV7.EquityTradeModel.UnRegisterIndicator | QuantConnect/VWAP-strategies/VWAP_v0.0.0.7.py:215-219 | Returns true iff the name was present, and then removes it; on false the table is unchanged. |
| VwapV7.EquityTradeModel.SetLastTradeTime | QuantConnect/VWAP-strategies/VWAP_v0.0.0.7.py:221-222 | The trade time becomes the given one. |
| VwapV7.IndicatorRoundTrip | QuantConnect/VWAP-strategies/VWAP_v0.0.0.7.py:208-219 | Register, register again and unregister: the first call succeeds iff the name was absent, the second fails, the removal succeeds, and the name is gone afterwards. |
| VwapV7.Vwap.constructor | QuantConnect/VWAP-strategies/VWAP_v0.0.0.7.py:13-61 | The equity model is stamped with the current time and holds its VWAP under "vwap". The windows hold two and one bars and start empty. The state is Normal, trading by time is off, and no trade day is set. |
| VwapV7.Vwap.UpdateOpenPriceAfterMarketOpenHandler | QuantConnect/VWAP-strategies/VWAP_v0.0.0.7.py:115-119 | The gap flag becomes `gap > default` when a last close is known, and stays as it was otherwise. |
| VwapV7.Vwap.ResetDataAfterMarketOpenHandler | QuantConnect/VWAP-strategies/VWAP_v0.0.0.7.py:121-124 | Trading by time is on, a fresh two-bar trading window is in place and the state is Normal; nothing else changes, the low window included. |
| VwapV7.Vwap.BeforeMarketCloseHandler | QuantConnect/VWAP-strategies/VWAP_v0.0.0.7.py:126-129 | Trading by time is off and the equity's current price becomes the last close; nothing else changes. |
| VwapV7.Vwap.BeforeMarketCloseTryToLiquidateOnWinStateHandler | QuantConnect/VWAP-strategies/VWAP_v0.0.0.7.py:131-132 | The liquidation state becomes ToWin and nothing else changes. |
| VwapV7.Vwap.BeforeMarketCloseLiquidateOnDayStateHandler | QuantConnect/VWAP-strategies/VWAP_v0.0.0.7.py:134-135 | The liquidation state becomes Force and nothing else changes. |
| VwapV7.Vwap.MinuteConsolidateHandler | QuantConnect/VWAP-strategies/VWAP_v0.0.0.7.py:173-174 | The bar enters the two-bar trading window and nothing else changes. |
| VwapV7.Vwap.LowConsolidateHandler | QuantConnect/VWAP-strategies/VWAP_v0.0.0.7.py:176-177 | The bar enters the low-price window and nothing else changes. |
| VwapV7.Vwap.UpdateLastBrokenCandle | QuantConnect/VWAP-strategies/VWAP_v0.0.0.7.py:164-170 | The two tests in turn leave the latch as `LatchAfter` says, so the three latch lemmas apply. |
| VwapV7.Vwap.EnterToBuy | QuantConnect/VWAP-strategies/VWAP_v0.0.0.7.py:89-94 | The fields and the outcome are those of the pure `Entry`, the raised division included. |
| VwapV7.Vwap.ExitOnLossOrTarget | QuantConnect/VWAP-strategies/VWAP_v0.0.0.7.py:95-99 | The fields and the outcome are those of the pure `Exit`. |
| VwapV7.Vwap.OnData | QuantConnect/VWAP-strategies/VWAP_v0.0.0.7.py:63-99 | The new fields and the outcome equal `Step` of the old fields, so every `Step` lemma above holds of the method. |

## Left out

- Order tickets: `OnData` of the second-minute-candle file cancels an unfilled ticket while trading by time is off and keeps the ticket of each limit order (lines 81-85, 107). Ticket status is engine state, so the model neither keeps nor cancels tickets. The `Log` call at line 98 is output only.
- Engine plumbing is not modelled: start and end dates, cash, brokerage model, `Schedule.On`, `Consolidate`, `SetDataNormalizationMode` and `SetBenchmark`. The handlers are methods that a caller may invoke in any order.
- The VWAP indicator's computation and the engine's holding of a position are inputs: `vwap`, `vwapReady`, `held`, `holdings` and `Tick.invested`.
- Floating point: prices are exact reals, so rounding in the gap, target and size arithmetic is not modelled. Times are whole seconds, so sub-second bar times are not represented.
- `main.py`, `authentication.py` and `plot_candles.py` are API-client, login and plotting scripts with no trading logic; they are not part of this model.
- In `VWAP_v0.0.0.7.py` the classes `StocksTrading`, `QCStocksTrading` and `QCEquityTradeModel` (lines 224-296) cannot run. They use an undefined `self.__equitie` (237, 284, 296), call `self.super()` (226) and a missing `AddIndicatorForEquity` (292), and test `symbol is self.__equities` (248, 254, 270), which is never true. The model therefore holds the one equity's trade model directly. The lookups `GetEquity` and `IsEquityBeingTrading` of that file are not modelled.
- VwapV7.Vwap.OnData: models `ResetEquityLastTradeTime` (lines 94 and 98) as intended, setting the trade time to the current time. As written, its guard `IsEquityBeingTrading` tests `symbol is self.__equities` (269-270), which is never true, so the call does nothing and `LastTradeTime` would keep its stamp from `AddEquity`; the line that would fail on `self.__equitie` (296) is never reached.
- VwapV7.Step: the algorithm subscribes one equity, so the loop over symbols runs once. `self.Portfolio.Invested` (139, 146) and `self.Portfolio[symbol].Invested` (89, 95) are the same input. The `trading_equity['vwap']` readiness test (107) would fail because the model class has no item access, so the indicator's readiness is an input.
- VwapV7.Step: the ToWin rule reads `self.LastEntryPrice` (140), an attribute the algorithm never assigns, and `self.vwap` (160, 161, 166), which is never assigned either. Both are inputs of the `Tick`, the first as `algorithmLastEntryPrice`; the error these reads raise is not modelled.
- Market.ShouldLiquidateToWin: requires an entry price only in the ToWin state with a held position, the one case where the script compares `LastEntryPrice <= price` (174) and would raise on `None`; the model excludes that path instead of representing the error. SecondMinCandleStrategy.Decide, SecondMinCandleStrategy.VwapStrategy.TradeEquity, SecondMinCandleStrategy.VwapStrategy.TradeSymbol, SecondMinCandleStrategy.RunPass and SecondMinCandleStrategy.VwapStrategy.OnData carry the same condition. VwapV7.Step and VwapV7.Vwap.OnData require both entry fields only for a held position in the Normal state, where the exit test compares `LastEntryLowPrice > price` (96) and would raise on `None`.
- SecondMinCandleStrategy.VwapStrategy.UpdateOpenPriceAfterMarketOpenHandler: requires a nonzero opening price when a last close is known, because the gap division would raise. For the VWAP file that error is modelled as the `ZeroDivisionError` outcome of `Step`, since `OnData` calls the handler there.
- The base `StocksTrading.AddEquity` of the second-minute-candle file (lines 291-295) is not modelled: it uses the undefined `self.__equitie` and `QCStocksTrading` overrides it. `RemoveEquity` (298-299) is never called and is not modelled either.
- The `QCStocksTrading` override of `RegisterIndicatorForEquity` in force is the second definition (366-367, which replaces the one at 363-364); it discards the base version's boolean and returns `None`; the model's method returns nothing. Its override of `AddEquity` returns `False` for a symbol already traded (355-356) and `None` otherwise, and the model returns these as `Some(false)` and `None`; `Initialize` (30) ignores the value.
- SecondMinCandleStrategy.VwapStrategy.UpdateLastBrokenCandle: requires a bar in the trading window. On an empty window the script's `CurrentTradingWindow[0]` (198) raises before the indicator is looked up; the model excludes that call instead of representing the error.
- The second-minute-candle `UpdateLastBrokenCandle` and its `LastBrokenCandle` latch are modelled, but `OnData` never calls them (the entry rule uses the first candle), so they do not take part in the `OnData` model.
- The second-minute-candle `UpdateOpenPriceAfterMarketOpenHandler` is neither scheduled nor called by its `OnData`; it is modelled on its own.
