/** Money in the simulated portfolio: nothing is created or lost on any run. */
module BacktestLedger {
  import opened Basics
  import opened Features
  import opened Strategies
  import opened BacktestPortfolio
  import opened BacktestEngine
  import Metrics

  function Entries(book: Book): nat
  {
    |book.trades| + if book.position.Some? then 1 else 0
  }

  function OpenCost(book: Book): real
  {
    if book.position.Some? then Value(book.position.value.quantity, book.position.value.entryPrice) else 0.0
  }

  /** Cash is the starting cash plus what the trades made, less one commission
      for every entry and the cost of what is still held. */
  predicate Balanced(book: Book, initialCash: real, commission: real)
  {
    book.cash == initialCash + Metrics.SumPnl(book.trades) - Entries(book) as real * commission - OpenCost(book)
  }

  /** Cash never falls further below zero than one commission, and not at all
      while something is held; what is held is a positive quantity. */
  predicate Solvent(book: Book, commission: real)
  {
    && -commission <= book.cash
    && (book.position.Some? ==> 0.0 <= book.cash && 0.0 < book.position.value.quantity)
  }

  lemma OneMoreFee(n: nat, fee: real)
    ensures (n + 1) as real * fee == n as real * fee + fee
  {}

  lemma OpenedKeepsBooks(book: Book, terms: Terms, symbol: string, price: real, sizing: Sizing, time: int, bar: nat,
                         initialCash: real)
    requires terms.Valid() && 0.0 < price && book.position.None?
    ensures var b := Opened(book, terms, symbol, price, sizing, time, bar);
      && (Balanced(book, initialCash, terms.commission) ==> Balanced(b, initialCash, terms.commission))
      && (Solvent(book, terms.commission) ==> Solvent(b, terms.commission))
  {
    BuyPricePositive(price, terms.slippage);
    DivideTimes(Percent(book.cash, sizing.maxPositionPct), BuyPrice(price, terms.slippage));
    OneMoreFee(|book.trades|, terms.commission);
    hide BuyPrice, Percent, StopLevel, TargetLevel;
  }

  lemma ClosedKeepsBalance(book: Book, terms: Terms, symbol: string, price: real, time: int, reason: ExitReason,
                           bar: nat, initialCash: real)
    requires Balanced(book, initialCash, terms.commission)
    ensures Balanced(Closed(book, terms, symbol, price, time, reason, bar), initialCash, terms.commission)
  {
    hide Value, SellPrice;
    if Holds(book, symbol) {
      Metrics.SumPnlSnoc(book.trades, TradeOf(book.position.value, terms, price, time, reason, bar));
    }
  }

  /** Selling cannot make the portfolio owe more than the commission as long as
      slippage takes at most the whole price. */
  lemma ClosedKeepsSolvency(book: Book, terms: Terms, symbol: string, price: real, time: int, reason: ExitReason,
                            bar: nat)
    requires Solvent(book, terms.commission) && terms.slippage <= 1.0 && 0.0 < price
    ensures Solvent(Closed(book, terms, symbol, price, time, reason, bar), terms.commission)
  {
    if Holds(book, symbol) {
      NonNegativeProduct(price, 1.0 - terms.slippage);
      NonNegativeProduct(book.position.value.quantity, SellPrice(price, terms.slippage));
    }
  }

  ghost predicate OnlySymbol(book: Book, symbol: string)
  {
    book.position.Some? ==> book.position.value.symbol == symbol
  }

  lemma StepKeepsShape(book: Book, terms: Terms, symbol: string, bar: Bar, i: nat, decision: Option<Signal>)
    requires terms.Valid() && 0.0 < bar.close && OnlySymbol(book, symbol)
    ensures OnlySymbol(Step(book, terms, symbol, bar, i, decision), symbol)
    ensures |Step(book, terms, symbol, bar, i, decision).curve| == |book.curve| + 1
  {
    hide TradeOf, BuyPrice, Percent, Value, StopLevel, TargetLevel, SellPrice;
  }

  lemma MarkedKeepsBooks(book: Book, symbol: string, price: real, time: int, initialCash: real, commission: real)
    ensures Balanced(Marked(book, symbol, price, time), initialCash, commission)
      == Balanced(book, initialCash, commission)
    ensures Solvent(Marked(book, symbol, price, time), commission) == Solvent(book, commission)
  {}

  lemma StepKeepsBalance(book: Book, terms: Terms, symbol: string, bar: Bar, i: nat, decision: Option<Signal>,
                         initialCash: real)
    requires terms.Valid() && 0.0 < bar.close && OnlySymbol(book, symbol)
    requires Balanced(book, initialCash, terms.commission)
    ensures Balanced(Step(book, terms, symbol, bar, i, decision), initialCash, terms.commission)
  {
    forall b: Book, reason | Balanced(b, initialCash, terms.commission)
      ensures Balanced(Closed(b, terms, symbol, bar.close, bar.time, reason, i), initialCash, terms.commission)
    {
      ClosedKeepsBalance(b, terms, symbol, bar.close, bar.time, reason, i, initialCash);
    }
    var stopped := Stopped(book, terms, symbol, bar, i);
    hide Balanced, Opened, Marked;
    if stopped.position.None? && decision.Some? {
      OpenedKeepsBooks(stopped, terms, symbol, bar.close, SizingOf(decision.value), bar.time, i, initialCash);
    }
    var acted := Acted(stopped, terms, symbol, bar, i, decision);
    MarkedKeepsBooks(acted, symbol, bar.close, bar.time, initialCash, terms.commission);
  }

  lemma StepKeepsSolvency(book: Book, terms: Terms, symbol: string, bar: Bar, i: nat, decision: Option<Signal>)
    requires terms.Valid() && terms.slippage <= 1.0 && 0.0 < bar.close && OnlySymbol(book, symbol)
    requires Solvent(book, terms.commission)
    ensures Solvent(Step(book, terms, symbol, bar, i, decision), terms.commission)
  {
    forall b: Book, reason | Solvent(b, terms.commission)
      ensures Solvent(Closed(b, terms, symbol, bar.close, bar.time, reason, i), terms.commission)
    {
      ClosedKeepsSolvency(b, terms, symbol, bar.close, bar.time, reason, i);
    }
    var stopped := Stopped(book, terms, symbol, bar, i);
    if stopped.position.None? && decision.Some? {
      OpenedKeepsBooks(stopped, terms, symbol, bar.close, SizingOf(decision.value), bar.time, i, 0.0);
    }
    hide Metrics.SumPnl, Value, TradeOf;
  }

  /** The ledger identity after every bar of every run, whatever was decided. */
  lemma {:induction false} RunIsBalanced(request: Request, symbol: string, bars: seq<Bar>,
                                         decisions: seq<Option<Signal>>, n: nat)
    requires n <= |bars| == |decisions| && request.Valid() && Priced(bars)
    ensures var book := After(request.Start(), request.Terms(), symbol, bars, decisions, n);
      && Balanced(book, request.initialCash, request.commission)
      && OnlySymbol(book, symbol)
      && |book.curve| == n
  {
    hide Step;
    if n > 0 {
      hide Balanced, OnlySymbol;
      RunIsBalanced(request, symbol, bars, decisions, n - 1);
      StepKeepsShape(After(request.Start(), request.Terms(), symbol, bars, decisions, n - 1), request.Terms(), symbol,
                     bars[n - 1], n - 1, decisions[n - 1]);
      StepKeepsBalance(After(request.Start(), request.Terms(), symbol, bars, decisions, n - 1), request.Terms(), symbol,
                       bars[n - 1], n - 1, decisions[n - 1], request.initialCash);
    }
  }

  /** Solvency after every bar, for slippage of at most 100 percent. */
  lemma {:induction false} RunIsSolvent(request: Request, symbol: string, bars: seq<Bar>,
                                        decisions: seq<Option<Signal>>, n: nat)
    requires n <= |bars| == |decisions| && request.Valid() && Priced(bars)
    requires request.slippagePct <= 100.0
    ensures Solvent(After(request.Start(), request.Terms(), symbol, bars, decisions, n), request.commission)
  {
    hide Step;
    if n > 0 {
      hide Solvent;
      RunIsSolvent(request, symbol, bars, decisions, n - 1);
      RunIsBalanced(request, symbol, bars, decisions, n - 1);
      StepKeepsSolvency(After(request.Start(), request.Terms(), symbol, bars, decisions, n - 1), request.Terms(),
                        symbol, bars[n - 1], n - 1, decisions[n - 1]);
    }
  }

  // ---------------------------------------------------------------- what a finished run reports

  function SlippageCost(terms: Terms, quantity: real, price: real): real
  {
    terms.slippage * Value(quantity, price)
  }

  lemma FinishedGap(book: Book, terms: Terms, symbol: string, bars: seq<Bar>)
    requires bars != [] && book.curve != []
    requires book.curve[|book.curve| - 1].equity == Equity(book, symbol, bars[|bars| - 1].close)
    ensures var done := Finished(book, terms, symbol, bars);
      book.curve[|book.curve| - 1].equity - done.cash
      == if Holds(book, symbol)
         then SlippageCost(terms, book.position.value.quantity, bars[|bars| - 1].close) + terms.commission
         else 0.0
  {
    hide SlippageCost, Value, SellPrice;
    if Holds(book, symbol) {
      SlippageShare(terms, book.position.value.quantity, bars[|bars| - 1].close);
    }
  }

  lemma SlippageShare(terms: Terms, quantity: real, price: real)
    ensures Value(quantity, SellPrice(price, terms.slippage))
      == Value(quantity, price) - SlippageCost(terms, quantity, price)
  {}

  /** The reported final equity is taken before the forced close: it overstates
      the cash the run ends with by that close's slippage and commission, and
      by nothing when the last bar ends flat. */
  lemma FinalEquityOverstatesCash(request: Request, strategy: Strategy, bars: seq<Bar>, root: real -> real)
    requires request.Valid() && Priced(bars) && bars != []
    ensures var symbol := Upper(request.symbol);
      var book := BookOf(request, strategy, bars, root);
      ReportOf(request, strategy, bars, root).finalEquity - Finished(book, request.Terms(), symbol, bars).cash
      == if book.position.Some?
         then SlippageCost(request.Terms(), book.position.value.quantity, bars[|bars| - 1].close) + request.commission
         else 0.0
  {
    hide After, Balanced, Metrics.StatsOf, WalkForward, Value, SlippageCost, TradeOf, Upper, Equity;
    var symbol, n := Upper(request.symbol), |bars|;
    var decisions := Decisions(strategy, bars, request.featureSet, root);
    RunIsBalanced(request, symbol, bars, decisions, n);
    LastPointIsEquity(request, symbol, bars, decisions, n);
    FinishedGap(BookOf(request, strategy, bars, root), request.Terms(), symbol, bars);
  }

  lemma LastPointIsEquity(request: Request, symbol: string, bars: seq<Bar>, decisions: seq<Option<Signal>>, n: nat)
    requires 0 < n <= |bars| == |decisions| && request.Valid() && Priced(bars)
    ensures var book := After(request.Start(), request.Terms(), symbol, bars, decisions, n);
      && book.curve != []
      && book.curve[|book.curve| - 1].equity == Equity(book, symbol, bars[n - 1].close)
  {
    hide Acted, Stopped;
  }

  /** The reported trades account for the final cash: gross profit less gross
      loss less one commission per trade is all that changed, the equity curve
      has a point for every bar, and nothing is left open. */
  lemma ReportReconciles(request: Request, strategy: Strategy, bars: seq<Bar>, root: real -> real)
    requires request.Valid() && Priced(bars) && bars != []
    ensures var report := ReportOf(request, strategy, bars, root);
      var done := Finished(BookOf(request, strategy, bars, root), request.Terms(), Upper(request.symbol), bars);
      && done.position.None?
      && |report.curve| == |bars|
      && report.stats.winningTrades + report.stats.losingTrades == report.stats.totalTrades == |report.trades|
      && done.cash == request.initialCash
                      + Metrics.SumPnl(Metrics.Wins(report.trades)) - Abs(Metrics.SumPnl(Metrics.Losses(report.trades)))
                      - |report.trades| as real * request.commission
  {
    hide After, WalkForward, Value, TradeOf, Upper, Metrics.SumPnl, Metrics.Wins, Metrics.Losses, Metrics.MaxDrawdown,
      Metrics.PnlPcts, Metrics.AbsPnlPcts, Metrics.EquityValues;
    var symbol, book := Upper(request.symbol), BookOf(request, strategy, bars, root);
    var decisions := Decisions(strategy, bars, request.featureSet, root);
    var last := bars[|bars| - 1];
    RunIsBalanced(request, symbol, bars, decisions, |bars|);
    ClosedKeepsBalance(book, request.Terms(), symbol, last.close, last.time, EndOfBacktest, |bars| - 1,
                       request.initialCash);
    Metrics.WinsAndLossesPartition(Finished(book, request.Terms(), symbol, bars).trades);
  }

  // ---------------------------------------------------------------- percentages

  /** What is held was bought at a cost, and every trade's percentage has the sign of its profit. */
  ghost predicate CostsPositive(book: Book)
  {
    && (book.position.Some? ==> 0.0 < Value(book.position.value.quantity, book.position.value.entryPrice))
    && Metrics.SignedPcts(book.trades)
  }

  lemma PctHasSign(pnl: real, basis: real)
    requires 0.0 < basis
    ensures (pnl > 0.0 ==> 0.0 <= pnl / basis * 100.0) && (pnl <= 0.0 ==> pnl / basis * 100.0 <= 0.0)
  {
    DivideTimes(pnl, basis);
    SameSign(pnl / basis, basis, pnl);
  }

  lemma ClosedKeepsCosts(book: Book, terms: Terms, symbol: string, price: real, time: int, reason: ExitReason, bar: nat)
    requires CostsPositive(book)
    ensures CostsPositive(Closed(book, terms, symbol, price, time, reason, bar))
  {
    hide Value, SellPrice;
    if Holds(book, symbol) {
      var t := TradeOf(book.position.value, terms, price, time, reason, bar);
      PctHasSign(t.pnl, Value(book.position.value.quantity, book.position.value.entryPrice));
    }
  }

  lemma OpenedKeepsCosts(book: Book, terms: Terms, symbol: string, price: real, sizing: Sizing, time: int, bar: nat)
    requires terms.Valid() && 0.0 < price && CostsPositive(book)
    ensures CostsPositive(Opened(book, terms, symbol, price, sizing, time, bar))
  {
    BuyPricePositive(price, terms.slippage);
    var fill := BuyPrice(price, terms.slippage);
    var quantity := Percent(book.cash, sizing.maxPositionPct) / fill;
    if 0.0 < quantity {
      PositiveProduct(quantity, fill);
    }
    hide BuyPrice, Percent, StopLevel, TargetLevel, Metrics.SignedPcts;
  }

  lemma StepKeepsCosts(book: Book, terms: Terms, symbol: string, bar: Bar, i: nat, decision: Option<Signal>)
    requires terms.Valid() && 0.0 < bar.close && CostsPositive(book)
    ensures CostsPositive(Step(book, terms, symbol, bar, i, decision))
  {
    forall b: Book, reason | CostsPositive(b)
      ensures CostsPositive(Closed(b, terms, symbol, bar.close, bar.time, reason, i))
    {
      ClosedKeepsCosts(b, terms, symbol, bar.close, bar.time, reason, i);
    }
    var stopped := Stopped(book, terms, symbol, bar, i);
    if decision.Some? {
      OpenedKeepsCosts(stopped, terms, symbol, bar.close, SizingOf(decision.value), bar.time, i);
    }
    hide Opened, Closed, Metrics.SignedPcts;
  }

  lemma {:induction false} RunKeepsCosts(request: Request, symbol: string, bars: seq<Bar>,
                                         decisions: seq<Option<Signal>>, n: nat)
    requires n <= |bars| == |decisions| && request.Valid() && Priced(bars)
    ensures CostsPositive(After(request.Start(), request.Terms(), symbol, bars, decisions, n))
  {
    hide Step;
    if n > 0 {
      hide CostsPositive;
      RunKeepsCosts(request, symbol, bars, decisions, n - 1);
      StepKeepsCosts(After(request.Start(), request.Terms(), symbol, bars, decisions, n - 1), request.Terms(), symbol,
                     bars[n - 1], n - 1, decisions[n - 1]);
    }
  }

  /** So in a report the averages are those of the trades it lists: times their
      number they give what all wins and all losses made, in percent. */
  lemma ReportedAverages(request: Request, strategy: Strategy, bars: seq<Bar>, root: real -> real)
    requires request.Valid() && Priced(bars) && bars != []
    ensures var report := ReportOf(request, strategy, bars, root);
      && report.stats.avgWinPct * report.stats.winningTrades as real == Metrics.SumPct(report.trades, true)
      && report.stats.avgLossPct * report.stats.losingTrades as real == -Metrics.SumPct(report.trades, false)
  {
    hide After, Decisions, Closed, Metrics.StatsOf, Metrics.SumPct, Metrics.SignedPcts, Upper;
    var book, last := BookOf(request, strategy, bars, root), bars[|bars| - 1];
    RunKeepsCosts(request, Upper(request.symbol), bars, Decisions(strategy, bars, request.featureSet, root), |bars|);
    ClosedKeepsCosts(book, request.Terms(), Upper(request.symbol), last.close, last.time, EndOfBacktest, |bars| - 1);
    var done := Finished(book, request.Terms(), Upper(request.symbol), bars);
    Metrics.AveragesReadBack(done.curve, done.trades, request.initialCash);
  }
}
