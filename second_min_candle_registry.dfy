/**
 * The per-symbol trade registry of the second-minute-candle strategy:
 * one mutable trade model per equity, each with a name-to-indicator
 * table, and a registry that owns the models and counts the buy orders
 * of the current day against a per-symbol daily cap.
 */
module SecondMinCandleRegistry {
  import opened Market

  /** The fields the data handler reads and writes when it trades. */
  datatype TradeState = TradeState(
    invested: bool,
    lastEntryPrice: Option<real>,
    exitOnLostPrice: Option<real>,
    exitOnWinPrice: Option<real>,
    lastTradeTime: Option<int>)
  {
    /** An internally invested model always knows its entry, stop and target. */
    predicate Valid()
    {
      invested ==> lastEntryPrice.Some? && exitOnLostPrice.Some? && exitOnWinPrice.Some?
    }
  }

  /** The consolidated bars a model keeps: the day's first candle and two one-bar windows. */
  datatype Candles = Candles(firstCandle: Option<Bar>, tradingWindow: RollingWindow, lowWindow: RollingWindow)
  {
    /** Both windows hold one bar; a bar in the trading window means the first candle is latched. */
    predicate Valid()
    {
      && tradingWindow.Valid() && tradingWindow.size == 1
      && lowWindow.Valid() && lowWindow.size == 1
      && (tradingWindow.bars != [] ==> firstCandle.Some?)
    }
  }

  /** The whole observable state of one trade model. */
  datatype EquityView = EquityView(
    indicators: map<string, Indicator>,
    trade: TradeState,
    lastDayClosePrice: Option<real>,
    isAllowToTradeByGapPercent: bool,
    lastBrokenCandle: Option<Bar>,
    candles: Candles)
  {
    predicate Valid() { trade.Valid() && candles.Valid() }
  }

  /** `QCEquityTradeModel`: the mutable record kept for one traded equity. */
  class EquityTradeModel {
    const symbol: Symbol
    const defaultGapPercentAllowToTrade: real
    var indicators: map<string, Indicator>
    var lastEntryPrice: Option<real>
    var lastEntryExitOnLostPrice: Option<real>
    var lastEntryExitOnWinPrice: Option<real>
    var lastDayClosePrice: Option<real>
    var lastTradeTime: Option<int>
    var isAllowToTradeByGapPercent: bool
    var lastBrokenCandle: Option<Bar>
    var currentTradingWindow: RollingWindow
    var lowPriceWindow: RollingWindow
    var firstCandle: Option<Bar>
    var invested: bool

    function Trade(): TradeState
      reads this`invested, this`lastEntryPrice, this`lastEntryExitOnLostPrice, this`lastEntryExitOnWinPrice
      reads this`lastTradeTime
    {
      TradeState(invested, lastEntryPrice, lastEntryExitOnLostPrice, lastEntryExitOnWinPrice, lastTradeTime)
    }

    function Bars(): Candles
      reads this`firstCandle, this`currentTradingWindow, this`lowPriceWindow
    {
      Candles(firstCandle, currentTradingWindow, lowPriceWindow)
    }

    function View(): EquityView
      reads this
    {
      EquityView(indicators, Trade(), lastDayClosePrice, isAllowToTradeByGapPercent, lastBrokenCandle, Bars())
    }

    /** `TradeState.Valid` on the fields; the trade time plays no part in it. */
    ghost predicate TradeValid()
      reads this`invested, this`lastEntryPrice, this`lastEntryExitOnLostPrice, this`lastEntryExitOnWinPrice
    {
      TradeState(invested, lastEntryPrice, lastEntryExitOnLostPrice, lastEntryExitOnWinPrice, None).Valid()
    }

    /** `Candles.Valid` on the fields. */
    ghost predicate CandlesValid()
      reads this`currentTradingWindow, this`lowPriceWindow, this`firstCandle
    {
      Bars().Valid()
    }

    ghost predicate Valid()
      reads this`invested, this`lastEntryPrice, this`lastEntryExitOnLostPrice, this`lastEntryExitOnWinPrice
      reads this`currentTradingWindow, this`lowPriceWindow, this`firstCandle
    {
      TradeValid() && CandlesValid()
    }

    /** A fresh model: no indicators, no entry, gap trading allowed, empty one-bar windows. */
    constructor (symbol: Symbol, defaultGapPercentAllowToTrade: real)
      ensures Valid()
      ensures this.symbol == symbol && this.defaultGapPercentAllowToTrade == defaultGapPercentAllowToTrade
      ensures View() == EquityView(map[], TradeState(false, None, None, None, None), None, true, None,
                                   Candles(None, EmptyWindow(1), EmptyWindow(1)))
    {
      this.symbol := symbol;
      this.defaultGapPercentAllowToTrade := defaultGapPercentAllowToTrade;
      indicators := map[];
      lastEntryPrice, lastEntryExitOnLostPrice, lastEntryExitOnWinPrice := None, None, None;
      lastDayClosePrice := None;
      lastTradeTime := None;
      isAllowToTradeByGapPercent := true;
      lastBrokenCandle := None;
      currentTradingWindow := EmptyWindow(1);
      lowPriceWindow := EmptyWindow(1);
      firstCandle := None;
      invested := false;
    }

    /** Registers only a name not yet present; the result tells whether it did. */
    method RegisterIndicator(name: string, indicator: Indicator) returns (registered: bool)
      modifies this`indicators
      ensures registered <==> name !in old(indicators)
      ensures indicators == if registered then old(indicators)[name := indicator] else old(indicators)
    {
      if name !in indicators {
        indicators := indicators[name := indicator];
        return true;
      }
      return false;
    }

    /** Removes a present name; the result tells whether it was present. */
    method UnRegisterIndicator(name: string) returns (unregistered: bool)
      modifies this`indicators
      ensures unregistered <==> name in old(indicators)
      ensures indicators == old(indicators) - {name}
      ensures !unregistered ==> indicators == old(indicators)
    {
      if name in indicators {
        indicators := indicators - {name};
        return true;
      }
      return false;
    }

    /** The stored indicator, or None when the name is not registered. */
    function GetIndicator(name: string): (r: Option<Indicator>)
      reads this
      ensures r.Some? <==> name in indicators
      ensures r.Some? ==> r.value == indicators[name]
    {
      if name in indicators then Some(indicators[name]) else None
    }

    /** The part of `ResetDataAfterMarketOpenHandler` that clears one model's candles. */
    method ClearCandles()
      modifies this`firstCandle, this`currentTradingWindow, this`lowPriceWindow
      ensures Bars() == Candles(None, EmptyWindow(1), EmptyWindow(1))
      ensures TradeValid() == old(TradeValid()) && CandlesValid()
    {
      firstCandle := None;
      currentTradingWindow := EmptyWindow(1);
      lowPriceWindow := EmptyWindow(1);
    }

    /** The bookkeeping of a new entry in `OnData`: entry price, stop and the 2:1 target. */
    method RecordEntry(price: real, stop: real)
      modifies this`invested, this`lastEntryPrice, this`lastEntryExitOnLostPrice, this`lastEntryExitOnWinPrice
      ensures Trade() == old(Trade()).(invested := true, lastEntryPrice := Some(price), exitOnLostPrice := Some(stop),
                                       exitOnWinPrice := Some(price + (price - stop) * 2.0))
      ensures TradeValid()
    {
      invested := true;
      lastEntryPrice := Some(price);
      lastEntryExitOnLostPrice := Some(stop);
      lastEntryExitOnWinPrice := Some(price + (price - lastEntryExitOnLostPrice.value) * 2.0);
    }

    method SetLastTradeTime(time: Option<int>)
      modifies this`lastTradeTime
      ensures lastTradeTime == time
    {
      lastTradeTime := time;
    }

    /**
     * The base-class version, which clears the time: the override written
     * inside `QCEquityTradeModel.__init__` is a local function, never a method.
     */
    method ResetEquityLastTradeTime()
      modifies this`lastTradeTime
      ensures lastTradeTime == None
    {
      SetLastTradeTime(None);
    }
  }

  /** `registeredOrders` after `RegisterBuyOrder(symbol)`: a first order counts 2, later ones add 1. */
  function RegisterBuy(orders: map<Symbol, int>, symbol: Symbol): (r: map<Symbol, int>)
    ensures r.Keys == orders.Keys + {symbol}
    ensures symbol !in orders ==> r[symbol] == 2
    ensures symbol in orders ==> r[symbol] == orders[symbol] + 1
    ensures forall s :: s in orders && s != symbol ==> r[s] == orders[s]
  {
    orders[symbol := (if symbol in orders then orders[symbol] else 1) + 1]
  }

  /** `IsAllowToBuyByTradesPerDayCapacity`: -1 means unlimited; a symbol without orders may buy. */
  predicate CapacityAllows(maxAllowedTradePerDay: int, orders: map<Symbol, int>, symbol: Symbol)
  {
    maxAllowedTradePerDay == -1 || symbol !in orders || orders[symbol] <= maxAllowedTradePerDay
  }

  /** The register after `n` buy orders of one symbol. */
  function RegisterTimes(orders: map<Symbol, int>, symbol: Symbol, n: nat): map<Symbol, int>
  {
    if n == 0 then orders else RegisterBuy(RegisterTimes(orders, symbol, n - 1), symbol)
  }

  /** After a reset, `n >= 1` buy orders of a symbol leave its count at `n + 1`, and nothing else changes. */
  lemma {:induction false} CountAfterOrders(orders: map<Symbol, int>, symbol: Symbol, n: nat)
    requires symbol !in orders
    ensures n == 0 ==> RegisterTimes(orders, symbol, n) == orders
    ensures n >= 1 ==> RegisterTimes(orders, symbol, n).Keys == orders.Keys + {symbol}
    ensures n >= 1 ==> RegisterTimes(orders, symbol, n)[symbol] == n + 1
    ensures forall s :: s in orders ==> RegisterTimes(orders, symbol, n)[s] == orders[s]
  {
    if n > 1 {
      CountAfterOrders(orders, symbol, n - 1);
    }
  }

  /**
   * The daily cap as the source counts: after `n` buys of a symbol since the
   * last reset, one more is allowed iff the cap is unlimited, nothing was
   * bought yet, or `n + 1 <= cap`.
   */
  lemma AllowedAfterOrders(maxAllowedTradePerDay: int, symbol: Symbol, n: nat)
    ensures CapacityAllows(maxAllowedTradePerDay, RegisterTimes(map[], symbol, n), symbol)
            <==> maxAllowedTradePerDay == -1 || n == 0 || n + 1 <= maxAllowedTradePerDay
  {
    CountAfterOrders(map[], symbol, n);
  }

  /** With a cap of at least 1, exactly `cap` buys per symbol and day get through. */
  lemma BuysPerDayUnderCap(maxAllowedTradePerDay: int, symbol: Symbol, n: nat)
    requires 1 <= maxAllowedTradePerDay
    ensures CapacityAllows(maxAllowedTradePerDay, RegisterTimes(map[], symbol, n), symbol) <==> n < maxAllowedTradePerDay
  {
    AllowedAfterOrders(maxAllowedTradePerDay, symbol, n);
  }

  /** With the configured cap of 1 a symbol is blocked after its first buy of the day. */
  lemma ConfiguredCapBlocksSecondBuy(symbol: Symbol)
    ensures CapacityAllows(1, map[], symbol)
    ensures !CapacityAllows(1, RegisterBuy(map[], symbol), symbol)
  {
  }

  /** After the daily reset every symbol is allowed again. */
  lemma ResetAllowsEverySymbol(maxAllowedTradePerDay: int, symbol: Symbol)
    ensures CapacityAllows(maxAllowedTradePerDay, map[], symbol)
  {
  }

  /** A buy order of one symbol never changes what another symbol is allowed. */
  lemma OtherSymbolsCapacityUnchanged(maxAllowedTradePerDay: int, orders: map<Symbol, int>, symbol: Symbol, other: Symbol)
    requires other != symbol
    ensures CapacityAllows(maxAllowedTradePerDay, RegisterBuy(orders, symbol), other)
            == CapacityAllows(maxAllowedTradePerDay, orders, other)
  {
  }

  /** The register after one buy order of each symbol of `buyers`, in any order. */
  function RegisteredAfter(start: map<Symbol, int>, buyers: set<Symbol>): (r: map<Symbol, int>)
    ensures r.Keys == start.Keys + buyers
  {
    map s | s in start.Keys + buyers :: if s in buyers then (if s in start then start[s] else 1) + 1 else start[s]
  }

  /** With no buyers the register is as it was. */
  lemma RegisteredAfterNone(start: map<Symbol, int>)
    ensures RegisteredAfter(start, {}) == start
  {
  }

  /** One more buy order of a symbol not bought yet extends the set of buyers. */
  lemma RegisterBuyExtends(start: map<Symbol, int>, buyers: set<Symbol>, symbol: Symbol)
    requires symbol !in buyers
    ensures RegisterBuy(RegisteredAfter(start, buyers), symbol) == RegisteredAfter(start, buyers + {symbol})
  {
    var l := RegisterBuy(RegisteredAfter(start, buyers), symbol);
    var r := RegisteredAfter(start, buyers + {symbol});
    assert l.Keys == r.Keys;
    forall s | s in l.Keys
      ensures l[s] == r[s]
    {
    }
  }

  /** The buys of the other symbols leave a symbol's allowance as it was at the start. */
  lemma CapacityBeforeOwnBuy(maxAllowedTradePerDay: int, start: map<Symbol, int>, buyers: set<Symbol>, symbol: Symbol)
    requires symbol !in buyers
    ensures CapacityAllows(maxAllowedTradePerDay, RegisteredAfter(start, buyers), symbol)
            == CapacityAllows(maxAllowedTradePerDay, start, symbol)
  {
  }

  /** A sequence without repetitions has as many elements as its set. */
  lemma {:induction false} DistinctCardinality(ss: seq<Symbol>)
    requires forall i, j :: 0 <= i < j < |ss| ==> ss[i] != ss[j]
    ensures |set s | s in ss| == |ss|
  {
    if ss != [] {
      DistinctCardinality(ss[1..]);
      assert (set s | s in ss) == (set s | s in ss[1..]) + {ss[0]};
      assert ss[0] !in ss[1..];
    }
  }

  /** `QCStocksTrading`: the registry of traded equities and of the day's buy orders. */
  class StocksTrading {
    const maxAllowedTradePerDay: int
    var equities: map<Symbol, EquityTradeModel>
    /** The keys of `equities` in insertion order, the order a Python dict iterates in. */
    var symbols: seq<Symbol>
    var registeredOrders: map<Symbol, int>

    /**
     * The shape of the registry: each listed symbol is listed once and has
     * its own model, which knows its symbol (so no model serves two symbols).
     */
    ghost predicate WellFormed()
      reads this`equities, this`symbols
    {
      && (forall i, j :: 0 <= i < j < |symbols| ==> symbols[i] != symbols[j])
      && (forall s :: s in equities ==> s in symbols)
      && (forall k :: 0 <= k < |symbols| ==> symbols[k] in equities)
      && (forall s :: s in equities ==> equities[s].symbol == s)
    }

    ghost predicate Valid()
      reads this`equities, this`symbols, equities.Values`invested, equities.Values`lastEntryPrice
      reads equities.Values`lastEntryExitOnLostPrice
      reads equities.Values`lastEntryExitOnWinPrice, equities.Values`currentTradingWindow
      reads equities.Values`lowPriceWindow, equities.Values`firstCandle
    {
      WellFormed() && forall s :: s in equities ==> equities[s].Valid()
    }

    /** The trade fields of every model, by symbol. */
    ghost function TradesBySymbol(): (r: map<Symbol, TradeState>)
      reads this`equities, equities.Values`invested, equities.Values`lastEntryPrice
      reads equities.Values`lastEntryExitOnLostPrice, equities.Values`lastEntryExitOnWinPrice, equities.Values`lastTradeTime
      ensures r.Keys == equities.Keys
    {
      map s | s in equities :: equities[s].Trade()
    }

    /** The bars every model keeps, by symbol. */
    ghost function BarsBySymbol(): (r: map<Symbol, Candles>)
      reads this`equities, equities.Values`firstCandle, equities.Values`currentTradingWindow, equities.Values`lowPriceWindow
      ensures r.Keys == equities.Keys
    {
      map s | s in equities :: equities[s].Bars()
    }

    /** An empty registry; `-1` means no daily cap. */
    constructor (maxAllowedTradePerDay: int)
      ensures Valid()
      ensures this.maxAllowedTradePerDay == maxAllowedTradePerDay
      ensures equities == map[] && symbols == [] && registeredOrders == map[]
    {
      this.maxAllowedTradePerDay := maxAllowedTradePerDay;
      equities := map[];
      symbols := [];
      registeredOrders := map[];
    }

    /** The model `AddEquity` creates: a fresh model stamped with the current time. */
    static method NewModel(symbol: Symbol, now: int) returns (model: EquityTradeModel)
      ensures fresh(model) && model.Valid()
      ensures model.symbol == symbol && model.defaultGapPercentAllowToTrade == 0.0
      ensures model.View() == EquityView(map[], TradeState(false, None, None, None, Some(now)), None, true, None,
                                         Candles(None, EmptyWindow(1), EmptyWindow(1)))
    {
      model := new EquityTradeModel(symbol, 0.0);
      model.lastTradeTime := Some(now);
    }

    /**
     * Adds a fresh model stamped with the current time, unless the symbol is
     * already traded, in which case nothing changes and the answer is
     * `Some(false)` (Python's `False`); an added symbol answers `None`, as the
     * override falls off its end without a `return`.
     */
    method AddEquity(symbol: Symbol, now: int) returns (result: Option<bool>)
      requires Valid()
      modifies this`equities, this`symbols
      ensures Valid()
      ensures result == if symbol in old(equities) then Some(false) else None
      ensures symbol in old(equities) ==> equities == old(equities) && symbols == old(symbols)
      ensures symbol !in old(equities) ==>
        && symbols == old(symbols) + [symbol]
        && equities.Keys == old(equities).Keys + {symbol}
        && (forall s :: s in old(equities) ==> equities[s] == old(equities)[s])
        && fresh(equities[symbol])
        && equities[symbol].symbol == symbol
        && equities[symbol].defaultGapPercentAllowToTrade == 0.0
        && equities[symbol].View()
           == EquityView(map[], TradeState(false, None, None, None, Some(now)), None, true, None,
                         Candles(None, EmptyWindow(1), EmptyWindow(1)))
    {
      if symbol in equities {
        return Some(false);
      }
      result := None;
      var model := NewModel(symbol, now);
      equities := equities[symbol := model];
      symbols := symbols + [symbol];
    }

    /** Registers the indicator on the symbol's model, when the symbol is traded. */
    method RegisterIndicatorForEquity(symbol: Symbol, name: string, indicator: Indicator)
      requires Valid()
      modifies (if symbol in equities then {equities[symbol]} else {})`indicators
      ensures Valid()
      ensures symbol in equities ==>
        equities[symbol].indicators
        == if name in old(equities[symbol].indicators) then old(equities[symbol].indicators)
           else old(equities[symbol].indicators)[name := indicator]
    {
      if symbol in equities {
        var _ := equities[symbol].RegisterIndicator(name, indicator);
      }
    }

    /** Unregisters the indicator from the symbol's model; true iff the symbol is traded and had it. */
    method UnRegisterIndicatorForEquity(symbol: Symbol, name: string) returns (unregistered: bool)
      requires Valid()
      modifies (if symbol in equities then {equities[symbol]} else {})`indicators
      ensures Valid()
      ensures unregistered <==> symbol in equities && name in old(equities[symbol].indicators)
      ensures symbol in equities ==> equities[symbol].indicators == old(equities[symbol].indicators) - {name}
    {
      unregistered := false;
      if symbol in equities {
        unregistered := equities[symbol].UnRegisterIndicator(name);
      }
    }

    /** The traded symbols: exactly those of the insertion order. */
    function GetEquitiesTradingSymbols(): (r: set<Symbol>)
      reads this
      requires WellFormed()
      ensures forall s :: s in r <==> s in symbols
    {
      equities.Keys
    }

    /** The models of `ss`, in that order. */
    function ModelsOf(ss: seq<Symbol>): (models: seq<EquityTradeModel>)
      reads this
      requires forall i :: 0 <= i < |ss| ==> ss[i] in equities
      ensures |models| == |ss|
      ensures forall i :: 0 <= i < |ss| ==> models[i] == equities[ss[i]]
      decreases |ss|
    {
      if ss == [] then []
      else
        assert forall i :: 0 <= i < |ss| - 1 ==> ss[1..][i] == ss[i + 1];
        [equities[ss[0]]] + ModelsOf(ss[1..])
    }

    /** The models in the order the equities were added. */
    function GetTradingEquities(): (models: seq<EquityTradeModel>)
      reads this
      requires WellFormed()
      ensures |models| == |symbols|
      ensures forall i :: 0 <= i < |symbols| ==> models[i] == equities[symbols[i]] && models[i].symbol == symbols[i]
    {
      ModelsOf(symbols)
    }

    /** The number of traded equities, which is the length of the insertion order. */
    function TotalStocksBeingTrading(): (n: nat)
      reads this, equities.Values
      requires Valid()
      ensures n == |symbols|
    {
      DistinctCardinality(symbols);
      assert equities.Keys == set s | s in symbols by {
        assert forall s :: s in equities ==> s in symbols;
        assert forall k :: 0 <= k < |symbols| ==> symbols[k] in equities;
      }
      |equities|
    }

    /** Whether a symbol is traded, which is whether it is in the insertion order. */
    function IsEquityBeingTrading(symbol: Symbol): (traded: bool)
      reads this
      requires WellFormed()
      ensures traded <==> symbol in symbols
    {
      symbol in equities
    }

    /** The model of a traded symbol, or None. */
    function GetEquity(symbol: Symbol): (r: Option<EquityTradeModel>)
      reads this, equities.Values
      requires Valid()
      ensures r.Some? <==> symbol in equities
      ensures r.Some? ==> r.value == equities[symbol] && r.value.symbol == symbol
    {
      if IsEquityBeingTrading(symbol) then Some(equities[symbol]) else None
    }

    method RegisterBuyOrder(symbol: Symbol)
      modifies this`registeredOrders
      ensures registeredOrders == RegisterBuy(old(registeredOrders), symbol)
    {
      if symbol !in registeredOrders {
        registeredOrders := registeredOrders[symbol := 1];
      }
      registeredOrders := registeredOrders[symbol := registeredOrders[symbol] + 1];
    }

    predicate IsAllowToBuyByTradesPerDayCapacity(symbol: Symbol)
      reads this
    {
      CapacityAllows(maxAllowedTradePerDay, registeredOrders, symbol)
    }

    method ResetDailyTradeRegister()
      modifies this`registeredOrders
      ensures registeredOrders == map[]
    {
      registeredOrders := map[];
    }
  }
}
