/** The walk-forward simulator of rac/backtest/engine.py. */
module BacktestEngine {
  import opened Basics
  import opened Features
  import opened Strategies
  import opened BacktestPortfolio
  import Metrics
  import Sorting

  /** Bounds as the request model checks them. */
  datatype Request = Request(
    strategyId: string,
    symbol: string,
    featureSet: string,
    initialCash: real,
    slippagePct: real,
    commission: real)
  {
    predicate Valid() { 0.0 < initialCash && 0.0 <= slippagePct && 0.0 <= commission }

    function Terms(): Terms { BacktestPortfolio.Terms(slippagePct / 100.0, commission) }

    function Start(): Book { Book(initialCash, None, [], []) }
  }

  datatype Report = Report(
    finalEquity: real,
    barsProcessed: nat,
    stats: Metrics.TradeStats,
    curve: seq<EquityPoint>,
    trades: seq<Trade>)

  datatype Error = InsufficientData(bars: nat) | UnsupportedStrategy(id: string)

  function LoadStrategy(id: string): Option<Strategy>
  {
    if id == "EQ_TREND_001" then Some(TrendFollowing)
    else if id == "EQ_REVERSION_001" then Some(MeanReversion)
    else None
  }

  ghost predicate Priced(bars: seq<Bar>)
  {
    forall i :: 0 <= i < |bars| ==> 0.0 < bars[i].close
  }

  // ---------------------------------------------------------------- one bar

  /** Stop-loss and take-profit are checked before any signal. */
  function Stopped(book: Book, terms: Terms, symbol: string, bar: Bar, i: nat): Book
  {
    match Trigger(book, symbol, bar.close)
    case Some(reason) => Closed(book, terms, symbol, bar.close, bar.time, reason, i)
    case None => book
  }

  function SizingOf(signal: Signal): Sizing
  {
    Sizing(signal.maxPositionPct, signal.stopLossPct, signal.takeProfitPct)
  }

  function Acted(book: Book, terms: Terms, symbol: string, bar: Bar, i: nat, decision: Option<Signal>): Book
    requires terms.Valid() && 0.0 < bar.close
  {
    match decision
    case None => book
    case Some(signal) =>
      if signal.direction == BUY && !Holds(book, symbol) then
        Opened(book, terms, symbol, bar.close, SizingOf(signal), bar.time, i)
      else if signal.direction == SELL && Holds(book, symbol) then
        Closed(book, terms, symbol, bar.close, bar.time, SellSignal, i)
      else book
  }

  function Step(book: Book, terms: Terms, symbol: string, bar: Bar, i: nat, decision: Option<Signal>): Book
    requires terms.Valid() && 0.0 < bar.close
  {
    Marked(Acted(Stopped(book, terms, symbol, bar, i), terms, symbol, bar, i, decision), symbol, bar.close, bar.time)
  }

  // ---------------------------------------------------------------- a run driven by given decisions

  /** The book after the first `n` bars, acting on `decisions[i]` at bar `i`. */
  function After(start: Book, terms: Terms, symbol: string, bars: seq<Bar>, decisions: seq<Option<Signal>>,
                 n: nat): Book
    requires n <= |bars| == |decisions|
    requires terms.Valid() && Priced(bars)
  {
    if n == 0 then start
    else Step(After(start, terms, symbol, bars, decisions, n - 1), terms, symbol, bars[n - 1], n - 1, decisions[n - 1])
  }

  /** The forced close at the last bar. */
  function Finished(book: Book, terms: Terms, symbol: string, bars: seq<Bar>): Book
    requires bars != []
  {
    var last := bars[|bars| - 1];
    Closed(book, terms, symbol, last.close, last.time, EndOfBacktest, |bars| - 1)
  }

  // ---------------------------------------------------------------- decisions

  /** What the engine decides at bar `i`: it re-sorts the bars seen so far,
      recomputes every feature and signal, and keeps the last signal. */
  function WalkForward(strategy: Strategy, bars: seq<Bar>, featureSet: string, root: real -> real,
                       i: nat): Option<Signal>
    requires i < |bars|
  {
    var window := bars[..i + 1];
    var points := Points(Sorting.Sort(window, BarNotAfter), featureSet, root);
    LastOf(Signals(strategy, points, "backtest"))
  }

  function LastOf(signals: seq<Signal>): Option<Signal>
  {
    if signals == [] then None else Some(signals[|signals| - 1])
  }

  function Decisions(strategy: Strategy, bars: seq<Bar>, featureSet: string,
                     root: real -> real): (r: seq<Option<Signal>>)
    ensures |r| == |bars|
    ensures forall i :: 0 <= i < |bars| ==> r[i] == WalkForward(strategy, bars, featureSet, root, i)
  {
    seq(|bars|, i requires 0 <= i < |bars| => WalkForward(strategy, bars, featureSet, root, i))
  }

  // ---------------------------------------------------------------- the engine

  /** The book when the loop over the bars ends, before the forced close. */
  function BookOf(request: Request, strategy: Strategy, bars: seq<Bar>, root: real -> real): Book
    requires request.Valid() && Priced(bars)
  {
    After(request.Start(), request.Terms(), Upper(request.symbol), bars,
          Decisions(strategy, bars, request.featureSet, root), |bars|)
  }

  function ReportOf(request: Request, strategy: Strategy, bars: seq<Bar>, root: real -> real): Report
    requires request.Valid() && Priced(bars) && bars != []
  {
    var book := Finished(BookOf(request, strategy, bars, root), request.Terms(), Upper(request.symbol), bars);
    Report(
      if book.curve == [] then request.initialCash else book.curve[|book.curve| - 1].equity,
      |bars|, Metrics.StatsOf(book.curve, book.trades, request.initialCash), book.curve, book.trades)
  }

  /** The body of the loop over the bars. Every window is non-empty and so has
      feature points; the engine's branch for a window without any never runs. */
  method Advance(portfolio: Portfolio, request: Request, symbol: string, strategy: Strategy, bars: seq<Bar>,
                 root: real -> real, i: nat)
    requires i < |bars| && Priced(bars) && portfolio.Rules().Valid()
    modifies portfolio
    ensures portfolio.State() == Step(old(portfolio.State()), portfolio.Rules(), symbol, bars[i], i,
                                      WalkForward(strategy, bars, request.featureSet, root, i))
  {
    hide PointAt, Signals, Opened, Closed, Marked, Trigger, Holds, Sorting.Sort;
    var bar := bars[i];
    var trigger := portfolio.CheckSlTp(symbol, bar.close);
    if trigger.Some? {
      portfolio.ClosePosition(symbol, bar.close, bar.time, trigger.value, i);
    }
    var window := bars[..i + 1];
    var points := ComputeTechnicalV1(window, request.featureSet, root);
    var signals := Generate(strategy, points, "backtest");
    if signals != [] {
      var signal := signals[|signals| - 1];
      var holding := portfolio.HasPosition(symbol);
      if signal.direction == BUY && !holding {
        portfolio.OpenPosition(symbol, bar.close, SizingOf(signal), bar.time, i);
      } else if signal.direction == SELL && holding {
        portfolio.ClosePosition(symbol, bar.close, bar.time, SellSignal, i);
      }
    }
    var _ := portfolio.MarkToMarket(symbol, bar.close, bar.time);
  }

  /** The loop over the bars. */
  method Drive(portfolio: Portfolio, request: Request, strategy: Strategy, bars: seq<Bar>, root: real -> real)
    requires request.Valid() && Priced(bars)
    requires portfolio.Rules() == request.Terms() && portfolio.State() == request.Start()
    modifies portfolio
    ensures portfolio.State() == BookOf(request, strategy, bars, root)
  {
    hide Step, WalkForward, Decisions;
    var symbol := Upper(request.symbol);
    ghost var start, decisions := request.Start(), Decisions(strategy, bars, request.featureSet, root);
    assert After(start, request.Terms(), symbol, bars, decisions, 0) == start;
    hide After;
    for i := 0 to |bars|
      invariant portfolio.State() == After(start, request.Terms(), symbol, bars, decisions, i)
    {
      AfterNext(start, request.Terms(), symbol, bars, decisions, i);
      Advance(portfolio, request, symbol, strategy, bars, root, i);
    }
  }

  /** `BacktestEngine.run`. */
  method Run(request: Request, bars: seq<Bar>, root: real -> real) returns (r: Result<Report, Error>)
    requires request.Valid() && Priced(bars)
    ensures r == if |bars| < 5 then Failure(InsufficientData(|bars|))
                 else match LoadStrategy(request.strategyId)
                      case None => Failure(UnsupportedStrategy(request.strategyId))
                      case Some(strategy) => Success(ReportOf(request, strategy, bars, root))
  {
    hide Closed, BookOf, Metrics.StatsOf;
    if |bars| < 5 {
      return Failure(InsufficientData(|bars|));
    }
    var loaded := LoadStrategy(request.strategyId);
    if loaded.None? {
      return Failure(UnsupportedStrategy(request.strategyId));
    }
    var strategy, symbol := loaded.value, Upper(request.symbol);
    var portfolio := new Portfolio(request.initialCash, request.slippagePct, request.commission);
    Drive(portfolio, request, strategy, bars, root);
    NothingToClose(portfolio.State(), request.Terms(), symbol, bars);
    var open := portfolio.HasPosition(symbol);
    if open {
      var last := bars[|bars| - 1];
      portfolio.ClosePosition(symbol, last.close, last.time, EndOfBacktest, |bars| - 1);
    }
    var curve := portfolio.equityCurve;
    var finalEquity := if curve == [] then request.initialCash else curve[|curve| - 1].equity;
    var stats := Metrics.StatsOf(curve, portfolio.trades, request.initialCash);
    return Success(Report(finalEquity, |bars|, stats, curve, portfolio.trades));
  }

  lemma AfterNext(start: Book, terms: Terms, symbol: string, bars: seq<Bar>, decisions: seq<Option<Signal>>, i: nat)
    requires i < |bars| == |decisions| && terms.Valid() && Priced(bars)
    ensures After(start, terms, symbol, bars, decisions, i + 1)
         == Step(After(start, terms, symbol, bars, decisions, i), terms, symbol, bars[i], i, decisions[i])
  {
    hide Step;
  }

  lemma NothingToClose(book: Book, terms: Terms, symbol: string, bars: seq<Bar>)
    requires bars != []
    ensures !Holds(book, symbol) ==> Finished(book, terms, symbol, bars) == book
  {}
}
