/** The simulated portfolio of rac/backtest/portfolio.py. */
module BacktestPortfolio {
  import opened Basics

  datatype ExitReason = StopLoss | TakeProfit | SellSignal | EndOfBacktest

  datatype Holding = Holding(
    symbol: string,
    quantity: real,
    entryPrice: real,
    entryTime: int,
    stopLoss: real,
    takeProfit: real,
    entryBar: nat)

  datatype Trade = Trade(
    entryTime: int,
    exitTime: int,
    symbol: string,
    quantity: real,
    entryPrice: real,
    exitPrice: real,
    pnl: real,
    pnlPct: real,
    exitReason: ExitReason,
    barsHeld: int)

  datatype EquityPoint = EquityPoint(time: int, equity: real)

  /** Slippage as a fraction, and the fee charged on every fill. */
  datatype Terms = Terms(slippage: real, commission: real)
  {
    predicate Valid() { 0.0 <= slippage && 0.0 <= commission }
  }

  /** Everything that changes while a backtest runs. */
  datatype Book = Book(
    cash: real,
    position: Option<Holding>,
    trades: seq<Trade>,
    curve: seq<EquityPoint>)

  /** The percentages a signal asks for. */
  datatype Sizing = Sizing(maxPositionPct: real, stopLossPct: real, takeProfitPct: real)

  predicate Holds(book: Book, symbol: string)
  {
    book.position.Some? && book.position.value.symbol == symbol
  }

  // Prices and amounts.

  function BuyPrice(price: real, slippage: real): real { price * (1.0 + slippage) }

  function SellPrice(price: real, slippage: real): real { price * (1.0 - slippage) }

  function Percent(amount: real, pct: real): real { amount * (pct / 100.0) }

  function StopLevel(fill: real, pct: real): real { fill * (1.0 - pct / 100.0) }

  function TargetLevel(fill: real, pct: real): real { fill * (1.0 + pct / 100.0) }

  lemma BuyPricePositive(price: real, slippage: real)
    requires 0.0 <= slippage && 0.0 < price
    ensures 0.0 < price <= BuyPrice(price, slippage)
  {}

  /** A buy that cannot be afforded, or would buy nothing, is dropped. */
  function Opened(book: Book, terms: Terms, symbol: string, price: real, sizing: Sizing, time: int, bar: nat): Book
    requires terms.Valid() && 0.0 < price
  {
    BuyPricePositive(price, terms.slippage);
    var fill := BuyPrice(price, terms.slippage);
    var notional := Percent(book.cash, sizing.maxPositionPct);
    var quantity := notional / fill;
    var cost := notional + terms.commission;
    if cost > book.cash || quantity <= 0.0 then book
    else book.(
      cash := book.cash - cost,
      position := Some(Holding(symbol, quantity, fill, time,
                               StopLevel(fill, sizing.stopLossPct), TargetLevel(fill, sizing.takeProfitPct), bar)))
  }

  function TradeOf(position: Holding, terms: Terms, price: real, time: int, reason: ExitReason, bar: nat): Trade
  {
    var exitPrice := SellPrice(price, terms.slippage);
    var basis := Value(position.quantity, position.entryPrice);
    var pnl := Value(position.quantity, exitPrice) - terms.commission - basis;
    Trade(position.entryTime, time, position.symbol, position.quantity, position.entryPrice, exitPrice,
          pnl, if basis == 0.0 then 0.0 else pnl / basis * 100.0, reason, bar - position.entryBar)
  }

  function Closed(book: Book, terms: Terms, symbol: string, price: real, time: int, reason: ExitReason, bar: nat): Book
  {
    if !Holds(book, symbol) then book
    else
      var position := book.position.value;
      var proceeds := Value(position.quantity, SellPrice(price, terms.slippage)) - terms.commission;
      Book(book.cash + proceeds, None, book.trades + [TradeOf(position, terms, price, time, reason, bar)], book.curve)
  }

  /** The stop is looked at before the target; a level of zero counts as absent. */
  function Trigger(book: Book, symbol: string, price: real): Option<ExitReason>
  {
    if !Holds(book, symbol) then None
    else if book.position.value.stopLoss != 0.0 && price <= book.position.value.stopLoss then Some(StopLoss)
    else if book.position.value.takeProfit != 0.0 && price >= book.position.value.takeProfit then Some(TakeProfit)
    else None
  }

  function Equity(book: Book, symbol: string, price: real): real
  {
    book.cash + if Holds(book, symbol) then Value(book.position.value.quantity, price) else 0.0
  }

  function Marked(book: Book, symbol: string, price: real, time: int): Book
  {
    book.(curve := book.curve + [EquityPoint(time, Equity(book, symbol, price))])
  }

  class Portfolio {
    var cash: real
    const initialCash: real
    const slippage: real
    const commission: real
    var position: Option<Holding>
    var trades: seq<Trade>
    var equityCurve: seq<EquityPoint>

    function Rules(): Terms { Terms(slippage, commission) }

    function State(): Book
      reads this
    {
      Book(cash, position, trades, equityCurve)
    }

    constructor (initialCash: real, slippagePct: real, commissionPerTrade: real)
      ensures State() == Book(initialCash, None, [], [])
      ensures this.initialCash == initialCash
      ensures Rules() == Terms(slippagePct / 100.0, commissionPerTrade)
    {
      cash := initialCash;
      this.initialCash := initialCash;
      slippage := slippagePct / 100.0;
      commission := commissionPerTrade;
      position := None;
      trades := [];
      equityCurve := [];
    }

    method HasPosition(symbol: string) returns (r: bool)
      ensures r <==> Holds(State(), symbol)
    {
      r := position.Some? && position.value.symbol == symbol;
    }

    method OpenPosition(symbol: string, price: real, sizing: Sizing, entryTime: int, barIndex: nat)
      requires Rules().Valid() && 0.0 < price
      modifies this
      ensures State() == Opened(old(State()), Rules(), symbol, price, sizing, entryTime, barIndex)
    {
      BuyPricePositive(price, slippage);
      var fillPrice := BuyPrice(price, slippage);
      var notional := Percent(cash, sizing.maxPositionPct);
      var quantity := notional / fillPrice;
      var cost := notional + commission;
      if cost > cash || quantity <= 0.0 {
        return;
      }
      cash := cash - cost;
      var sl := StopLevel(fillPrice, sizing.stopLossPct);
      var tp := TargetLevel(fillPrice, sizing.takeProfitPct);
      position := Some(Holding(symbol, quantity, fillPrice, entryTime, sl, tp, barIndex));
    }

    method ClosePosition(symbol: string, price: real, exitTime: int, reason: ExitReason, barIndex: nat)
      modifies this
      ensures State() == Closed(old(State()), Rules(), symbol, price, exitTime, reason, barIndex)
    {
      if position.None? || position.value.symbol != symbol {
        return;
      }
      var pos := position.value;
      var fillPrice := SellPrice(price, slippage);
      var proceeds := Value(pos.quantity, fillPrice) - commission;
      cash := cash + proceeds;
      var costBasis := Value(pos.quantity, pos.entryPrice);
      var pnl := proceeds - costBasis;
      var pnlPct := if costBasis == 0.0 then 0.0 else pnl / costBasis * 100.0;
      trades := trades + [Trade(pos.entryTime, exitTime, symbol, pos.quantity, pos.entryPrice, fillPrice,
                                pnl, pnlPct, reason, barIndex - pos.entryBar)];
      position := None;
    }

    method CheckSlTp(symbol: string, currentPrice: real) returns (r: Option<ExitReason>)
      ensures r == Trigger(State(), symbol, currentPrice)
    {
      if position.None? || position.value.symbol != symbol {
        return None;
      }
      var pos := position.value;
      if pos.stopLoss != 0.0 && currentPrice <= pos.stopLoss {
        return Some(StopLoss);
      }
      if pos.takeProfit != 0.0 && currentPrice >= pos.takeProfit {
        return Some(TakeProfit);
      }
      return None;
    }

    method MarkToMarket(symbol: string, price: real, time: int) returns (equity: real)
      modifies this
      ensures State() == Marked(old(State()), symbol, price, time)
      ensures equity == Equity(old(State()), symbol, price)
    {
      var posValue := 0.0;
      if position.Some? && position.value.symbol == symbol {
        posValue := Value(position.value.quantity, price);
      }
      equity := cash + posValue;
      equityCurve := equityCurve + [EquityPoint(time, equity)];
    }
  }
}
