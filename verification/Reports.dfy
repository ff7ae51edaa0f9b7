/** What the numbers of a finished backtest's report say about its own equity
    curve and trades. */
module Reports {
  import opened Basics
  import opened Features
  import opened Strategies
  import opened BacktestPortfolio
  import opened BacktestEngine
  import opened BacktestLedger
  import Metrics

  ghost predicate NonNegativeEquity(curve: seq<EquityPoint>)
  {
    forall k :: 0 <= k < |curve| ==> 0.0 <= curve[k].equity
  }

  /** From point `a` to the later point `b` the curve loses at most `pct` percent. */
  ghost predicate LosesAtMost(curve: seq<EquityPoint>, a: nat, b: nat, pct: real)
    requires a <= b < |curve|
  {
    (curve[a].equity - curve[b].equity) * 100.0 <= pct * curve[a].equity
  }

  /** And for these two points exactly that. */
  ghost predicate LosesExactly(curve: seq<EquityPoint>, a: nat, b: nat, pct: real)
    requires a <= b < |curve|
  {
    (curve[a].equity - curve[b].equity) * 100.0 == pct * curve[a].equity
  }

  /** `pct` is the largest loss from any point of the curve to a later one: none is
      larger, some is as large unless it is zero, and it is a percentage. */
  ghost predicate IsLargestLoss(curve: seq<EquityPoint>, pct: real)
  {
    && 0.0 <= pct <= 100.0
    && (forall i: nat, j: nat | i <= j < |curve| && 0.0 < curve[i].equity :: LosesAtMost(curve, i, j, pct))
    && (pct == 0.0
        || exists i: nat, j: nat :: i <= j < |curve| && 0.0 < curve[i].equity && LosesExactly(curve, i, j, pct))
  }

  lemma CurveDrawdown(curve: seq<EquityPoint>)
    requires NonNegativeEquity(curve)
    ensures IsLargestLoss(curve, Metrics.MaxDrawdown(Metrics.EquityValues(curve)))
  {
    hide Metrics.MaxDrawdown, Metrics.Drop, LosesAtMost, LosesExactly;
    var values := Metrics.EquityValues(curve);
    var a, b := Metrics.MaxDrawdownIsLargestDrop(values);
    var pct := Metrics.MaxDrawdown(values);
    forall i: nat, j: nat | i <= j < |curve| && 0.0 < curve[i].equity
      ensures LosesAtMost(curve, i, j, pct)
    {
      assert Metrics.Drop(values[i], values[j]) <= pct;
      DropMeans(curve, i, j, pct);
    }
    if pct != 0.0 {
      DropMeans(curve, a, b, pct);
      assert LosesExactly(curve, a, b, pct);
    }
  }

  /** The maximum drawdown a backtest reports is that of the curve it reports. */
  lemma ReportedDrawdown(request: Request, strategy: Strategy, bars: seq<Bar>, root: real -> real)
    requires request.Valid() && Priced(bars) && bars != []
    ensures var report := ReportOf(request, strategy, bars, root);
      NonNegativeEquity(report.curve) ==> IsLargestLoss(report.curve, report.stats.maxDrawdownPct)
  {
    hide BookOf, Finished, NonNegativeEquity, IsLargestLoss, Metrics.MaxDrawdown;
    if NonNegativeEquity(ReportOf(request, strategy, bars, root).curve) {
      CurveDrawdown(ReportOf(request, strategy, bars, root).curve);
    }
  }

  lemma DropMeans(curve: seq<EquityPoint>, a: nat, b: nat, pct: real)
    requires a <= b < |curve| && 0.0 < curve[a].equity
    ensures Metrics.Drop(curve[a].equity, curve[b].equity) <= pct ==> LosesAtMost(curve, a, b, pct)
    ensures Metrics.Drop(curve[a].equity, curve[b].equity) == pct ==> LosesExactly(curve, a, b, pct)
  {
    var high, low := curve[a].equity, curve[b].equity;
    DivideTimes(high - low, high);
    assert Metrics.Drop(high, low) * high == (high - low) * 100.0;
    if Metrics.Drop(high, low) <= pct {
      TimesMonotone(Metrics.Drop(high, low), pct, high);
    }
  }

  // The other numbers, multiplied back to what they summarise.

  predicate ReturnReads(stats: Metrics.TradeStats, finalEquity: real, initialCash: real)
  {
    initialCash * (1.0 + stats.totalReturnPct / 100.0) == finalEquity
  }

  predicate CountsRead(stats: Metrics.TradeStats, trades: seq<Trade>)
  {
    && stats.totalTrades == |trades|
    && stats.winningTrades == |Metrics.Wins(trades)|
    && stats.losingTrades == |Metrics.Losses(trades)|
    && stats.winRatePct * |trades| as real == 100.0 * |Metrics.Wins(trades)| as real
  }

  predicate FactorReads(stats: Metrics.TradeStats, trades: seq<Trade>)
  {
    var grossLoss := Abs(Metrics.SumPnl(Metrics.Losses(trades)));
    && (grossLoss > 0.0 ==> stats.profitFactor * grossLoss == Metrics.SumPnl(Metrics.Wins(trades)))
    && (grossLoss == 0.0 ==> stats.profitFactor == 0.0)
  }

  predicate AveragesRead(stats: Metrics.TradeStats, trades: seq<Trade>)
  {
    && stats.avgWinPct * stats.winningTrades as real == Metrics.SumPct(trades, true)
    && stats.avgLossPct * stats.losingTrades as real == -Metrics.SumPct(trades, false)
  }

  lemma StatsReadReturn(curve: seq<EquityPoint>, trades: seq<Trade>, initialCash: real)
    requires 0.0 < initialCash && curve != []
    ensures ReturnReads(Metrics.StatsOf(curve, trades, initialCash), curve[|curve| - 1].equity, initialCash)
  {
    hide Metrics.StatsOf;
    Metrics.TotalReadBack(curve, trades, initialCash);
  }

  lemma StatsReadCounts(curve: seq<EquityPoint>, trades: seq<Trade>, initialCash: real)
    requires 0.0 < initialCash
    ensures CountsRead(Metrics.StatsOf(curve, trades, initialCash), trades)
  {
    hide Metrics.MaxDrawdown, Metrics.SumPnl, Metrics.Wins, Metrics.Losses;
    Metrics.WinRateReadBack(curve, trades, initialCash);
  }

  lemma StatsReadFactor(curve: seq<EquityPoint>, trades: seq<Trade>, initialCash: real)
    requires 0.0 < initialCash
    ensures FactorReads(Metrics.StatsOf(curve, trades, initialCash), trades)
  {
    hide Metrics.StatsOf, Abs, Metrics.SumPnl;
    Metrics.FactorReadBack(curve, trades, initialCash);
  }

  lemma StatsReadAverages(curve: seq<EquityPoint>, trades: seq<Trade>, initialCash: real)
    requires 0.0 < initialCash && Metrics.SignedPcts(trades)
    ensures AveragesRead(Metrics.StatsOf(curve, trades, initialCash), trades)
  {
    hide Metrics.StatsOf, Metrics.SumPct, Metrics.SignedPcts;
    Metrics.AveragesReadBack(curve, trades, initialCash);
  }

  /** All numbers of a report belong to the curve and the trades it lists, and the
      curve has a point for every bar. */
  lemma ReportReadBack(request: Request, strategy: Strategy, bars: seq<Bar>, root: real -> real)
    requires request.Valid() && Priced(bars) && bars != []
    ensures var report := ReportOf(request, strategy, bars, root);
      && report.barsProcessed == |report.curve| == |bars|
      && report.finalEquity == report.curve[|bars| - 1].equity
      && ReturnReads(report.stats, report.finalEquity, request.initialCash)
      && CountsRead(report.stats, report.trades)
      && FactorReads(report.stats, report.trades)
      && AveragesRead(report.stats, report.trades)
  {
    hide After, Closed, Decisions, Metrics.StatsOf, Metrics.SignedPcts, Upper, BookOf, CostsPositive;
    hide ReturnReads, CountsRead, FactorReads, AveragesRead, Metrics.Wins, Metrics.Losses, Metrics.SumPnl, Abs;
    ReportReconciles(request, strategy, bars, root);
    FinishedCosts(request, strategy, bars, root);
    var done := Finished(BookOf(request, strategy, bars, root), request.Terms(), Upper(request.symbol), bars);
    StatsReadReturn(done.curve, done.trades, request.initialCash);
    StatsReadCounts(done.curve, done.trades, request.initialCash);
    StatsReadFactor(done.curve, done.trades, request.initialCash);
    StatsReadAverages(done.curve, done.trades, request.initialCash);
  }

  lemma FinishedCosts(request: Request, strategy: Strategy, bars: seq<Bar>, root: real -> real)
    requires request.Valid() && Priced(bars) && bars != []
    ensures Metrics.SignedPcts(Finished(BookOf(request, strategy, bars, root), request.Terms(), Upper(request.symbol),
                                        bars).trades)
  {
    hide After, Closed, Decisions, Metrics.SignedPcts, Upper;
    var book, last := BookOf(request, strategy, bars, root), bars[|bars| - 1];
    var decisions := Decisions(strategy, bars, request.featureSet, root);
    RunKeepsCosts(request, Upper(request.symbol), bars, decisions, |bars|);
    ClosedKeepsCosts(book, request.Terms(), Upper(request.symbol), last.close, last.time, EndOfBacktest, |bars| - 1);
  }
}
