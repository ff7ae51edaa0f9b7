/** Backtest statistics of rac/backtest/metrics.py. */
module Metrics {
  import opened Basics
  import opened Sums
  import opened BacktestPortfolio

  // ---------------------------------------------------------------- drawdown

  function Peak(equity: seq<real>): real
    requires equity != []
  {
    if |equity| == 1 then equity[0] else Max(Peak(equity[..|equity| - 1]), equity[|equity| - 1])
  }

  /** Percentage lost on the way down from `high` to `low`. */
  function Drop(high: real, low: real): real
    requires high != 0.0
  {
    (high - low) / high * 100.0
  }

  /** Loss at each point against the highest equity up to it, at its worst. */
  function MaxDrawdown(equity: seq<real>): (r: real)
    ensures 0.0 <= r
  {
    if equity == [] then 0.0
    else
      var before, peak := MaxDrawdown(equity[..|equity| - 1]), Peak(equity);
      if peak > 0.0 then Max(before, Drop(peak, equity[|equity| - 1])) else before
  }

  /** The one-pass loop of `_max_drawdown`. */
  method ComputeMaxDrawdown(equity: seq<real>) returns (maxDd: real)
    ensures maxDd == MaxDrawdown(equity)
  {
    if |equity| < 2 {
      if |equity| == 1 && equity[0] > 0.0 {
        DropRange(equity[0], equity[0]);
      }
      return 0.0;
    }
    var peak := equity[0];
    maxDd := 0.0;
    for i := 0 to |equity|
      invariant maxDd == MaxDrawdown(equity[..i])
      invariant peak == if i == 0 then equity[0] else Peak(equity[..i])
    {
      var eq := equity[i];
      assert equity[..i + 1][..i] == equity[..i];
      if eq > peak {
        peak := eq;
      }
      if peak > 0.0 {
        var dd := (peak - eq) / peak * 100.0;
        maxDd := Max(maxDd, dd);
      }
    }
    assert equity[..|equity|] == equity;
  }

  lemma DropRange(high: real, low: real)
    requires 0.0 < high
    ensures low == high ==> Drop(high, low) == 0.0
    ensures 0.0 <= low <= high ==> 0.0 <= Drop(high, low) <= 100.0
  {
    if low == high {
      DivideUnique(high - low, high, 0.0);
    }
    if 0.0 <= low <= high {
      QuotientBetween(high - low, high, 0.0, 1.0);
    }
  }

  lemma {:induction false} PeakIsMaximum(equity: seq<real>) returns (k: nat)
    requires equity != []
    ensures k < |equity| && equity[k] == Peak(equity)
    ensures forall i :: 0 <= i < |equity| ==> equity[i] <= Peak(equity)
  {
    if |equity| == 1 {
      k := 0;
    } else {
      var front := equity[..|equity| - 1];
      k := PeakIsMaximum(front);
      assert forall i :: 0 <= i < |front| ==> equity[i] == front[i];
      if Peak(front) < equity[|equity| - 1] {
        k := |equity| - 1;
      }
    }
  }

  lemma DropGrowsWithHigh(low: real, high: real, higher: real)
    requires 0.0 <= low && 0.0 < high <= higher
    ensures Drop(high, low) <= Drop(higher, low)
  {
    var a, b := (high - low) / high, (higher - low) / higher;
    DivideTimes(high - low, high);
    DivideTimes(higher - low, higher);
    assert (1.0 - a) * high == low && (1.0 - b) * higher == low;
    SmallerShare(1.0 - a, 1.0 - b, low, high, higher);
  }

  lemma SmallerShare(p: real, q: real, low: real, high: real, higher: real)
    requires 0.0 <= low && 0.0 < high <= higher
    requires p * high == low && q * higher == low
    ensures q <= p
  {
    CancelPositive(high, p);
    TimesMonotone(high, higher, p);
    assert 0.0 <= higher * (p - q);
    CancelPositive(higher, p - q);
  }

  ghost predicate BoundsEveryDrop(equity: seq<real>, m: real)
  {
    forall i, j :: 0 <= i <= j < |equity| && equity[i] > 0.0 ==> Drop(equity[i], equity[j]) <= m
  }

  /** The single pass finds the worst loss over all pairs of an earlier and a
      later point, and it is a percentage. */
  lemma {:induction false} MaxDrawdownIsLargestDrop(equity: seq<real>) returns (i: nat, j: nat)
    requires forall k :: 0 <= k < |equity| ==> 0.0 <= equity[k]
    ensures 0.0 <= MaxDrawdown(equity) <= 100.0
    ensures BoundsEveryDrop(equity, MaxDrawdown(equity))
    ensures MaxDrawdown(equity) == 0.0
         || (i <= j < |equity| && equity[i] > 0.0 && Drop(equity[i], equity[j]) == MaxDrawdown(equity))
  {
    i, j := 0, 0;
    hide Drop;
    if equity != [] {
      var n := |equity| - 1;
      var front, last := equity[..n], equity[n];
      i, j := MaxDrawdownIsLargestDrop(front);
      var k := PeakIsMaximum(equity);
      forall a, b | 0 <= a <= b < |equity| && equity[a] > 0.0
        ensures Drop(equity[a], equity[b]) <= MaxDrawdown(equity)
      {
        if b == n {
          DropGrowsWithHigh(last, equity[a], Peak(equity));
        } else {
          assert front[a] == equity[a] && front[b] == equity[b];
        }
      }
      if Peak(equity) > 0.0 {
        DropRange(Peak(equity), last);
        if MaxDrawdown(front) < Drop(Peak(equity), last) {
          i, j := k, n;
        }
      }
    }
  }

  // ---------------------------------------------------------------- drawdown as stored with each snapshot

  /** `_drawdown_pct`: loss against the best net asset value stored before. */
  function StoredDrawdown(earlier: seq<real>, nav: real): real
  {
    var peak := if earlier == [] then 0.0 else Peak(earlier);
    if peak <= 0.0 then 0.0 else Max(0.0, Drop(peak, nav))
  }

  function WorstStored(navs: seq<real>): real
  {
    if navs == [] then 0.0
    else Max(WorstStored(navs[..|navs| - 1]), StoredDrawdown(navs[..|navs| - 1], navs[|navs| - 1]))
  }

  /** The worst drawdown ever stored is the backtest statistic of the same history. */
  lemma {:induction false} StoredDrawdownsAgree(navs: seq<real>)
    ensures WorstStored(navs) == MaxDrawdown(navs)
  {
    if navs != [] {
      var front, nav := navs[..|navs| - 1], navs[|navs| - 1];
      StoredDrawdownsAgree(front);
      if nav > 0.0 {
        DropRange(nav, nav);
      }
      if front != [] && 0.0 < Peak(front) < nav {
        NoDropAtNewHigh(Peak(front), nav);
      }
    }
  }

  lemma NoDropAtNewHigh(peak: real, nav: real)
    requires 0.0 < peak <= nav
    ensures Drop(peak, nav) <= 0.0
  {
    DivideTimes(peak - nav, peak);
    CancelPositive(peak, -((peak - nav) / peak));
  }

  // ---------------------------------------------------------------- trade statistics

  datatype TradeStats = TradeStats(
    totalReturnPct: real,
    maxDrawdownPct: real,
    winRatePct: real,
    profitFactor: real,
    totalTrades: nat,
    winningTrades: nat,
    losingTrades: nat,
    avgWinPct: real,
    avgLossPct: real)

  function Wins(trades: seq<Trade>): seq<Trade>
  {
    if trades == [] then []
    else Wins(trades[..|trades| - 1]) + if trades[|trades| - 1].pnl > 0.0 then [trades[|trades| - 1]] else []
  }

  function Losses(trades: seq<Trade>): seq<Trade>
  {
    if trades == [] then []
    else Losses(trades[..|trades| - 1]) + if trades[|trades| - 1].pnl <= 0.0 then [trades[|trades| - 1]] else []
  }

  function SumPnl(trades: seq<Trade>): real
  {
    if trades == [] then 0.0 else SumPnl(trades[..|trades| - 1]) + trades[|trades| - 1].pnl
  }

  function PnlPcts(trades: seq<Trade>): (r: seq<real>)
    ensures |r| == |trades|
    ensures forall i :: 0 <= i < |r| ==> r[i] == trades[i].pnlPct
  {
    seq(|trades|, i requires 0 <= i < |trades| => trades[i].pnlPct)
  }

  function AbsPnlPcts(trades: seq<Trade>): (r: seq<real>)
    ensures |r| == |trades|
    ensures forall i :: 0 <= i < |r| ==> r[i] == Abs(trades[i].pnlPct)
  {
    seq(|trades|, i requires 0 <= i < |trades| => Abs(trades[i].pnlPct))
  }

  function EquityValues(curve: seq<EquityPoint>): (r: seq<real>)
    ensures |r| == |curve|
    ensures forall i :: 0 <= i < |curve| ==> r[i] == curve[i].equity
  {
    seq(|curve|, i requires 0 <= i < |curve| => curve[i].equity)
  }

  /** `compute_metrics`, without rounding and without the Sharpe ratio. */
  function StatsOf(curve: seq<EquityPoint>, trades: seq<Trade>, initialCash: real): TradeStats
    requires initialCash != 0.0
  {
    var finalEquity := if curve == [] then initialCash else curve[|curve| - 1].equity;
    var wins, losses := Wins(trades), Losses(trades);
    var grossProfit, grossLoss := SumPnl(wins), Abs(SumPnl(losses));
    TradeStats(
      (finalEquity - initialCash) / initialCash * 100.0,
      MaxDrawdown(EquityValues(curve)),
      if trades == [] then 0.0 else |wins| as real / |trades| as real * 100.0,
      if grossLoss > 0.0 then grossProfit / grossLoss else 0.0,
      |trades|,
      |wins|,
      |losses|,
      if wins == [] then 0.0 else Mean(PnlPcts(wins)),
      if losses == [] then 0.0 else Mean(AbsPnlPcts(losses)))
  }

  lemma SumPnlSnoc(trades: seq<Trade>, t: Trade)
    ensures SumPnl(trades + [t]) == SumPnl(trades) + t.pnl
  {
    assert (trades + [t])[..|trades|] == trades;
  }

  /** Wins and losses partition the trades, in number and in money: gross profit
      less gross loss is everything the trades made. */
  lemma {:induction false} WinsAndLossesPartition(trades: seq<Trade>)
    ensures |Wins(trades)| + |Losses(trades)| == |trades|
    ensures SumPnl(Wins(trades)) - Abs(SumPnl(Losses(trades))) == SumPnl(trades)
    ensures 0.0 <= SumPnl(Wins(trades)) && SumPnl(Losses(trades)) <= 0.0
  {
    if trades != [] {
      var front, last := trades[..|trades| - 1], trades[|trades| - 1];
      WinsAndLossesPartition(front);
      SumPnlSnoc(Wins(front), last);
      SumPnlSnoc(Losses(front), last);
      assert Wins(front) + [] == Wins(front) && Losses(front) + [] == Losses(front);
    }
  }

  lemma ReturnReadBack(finalEquity: real, initialCash: real)
    requires 0.0 < initialCash
    ensures initialCash * (1.0 + ((finalEquity - initialCash) / initialCash * 100.0) / 100.0) == finalEquity
  {
    DivideTimes(finalEquity - initialCash, initialCash);
  }

  /** What the winning, or the other, trades made in percent of their cost, added up. */
  function SumPct(trades: seq<Trade>, winning: bool): real
  {
    if trades == [] then 0.0
    else
      var last := trades[|trades| - 1];
      SumPct(trades[..|trades| - 1], winning) + if (last.pnl > 0.0) == winning then last.pnlPct else 0.0
  }

  /** The percentage of a trade has the sign of its profit. */
  ghost predicate SignedPcts(trades: seq<Trade>)
  {
    forall i :: 0 <= i < |trades| ==>
      (trades[i].pnl > 0.0 ==> 0.0 <= trades[i].pnlPct) && (trades[i].pnl <= 0.0 ==> trades[i].pnlPct <= 0.0)
  }

  lemma {:induction false} WinPctsSum(trades: seq<Trade>)
    ensures Sum(PnlPcts(Wins(trades))) == SumPct(trades, true)
  {
    hide PnlPcts;
    if trades == [] {
      assert PnlPcts(Wins(trades)) == [];
    } else {
      var front, last := trades[..|trades| - 1], trades[|trades| - 1];
      WinPctsSum(front);
      assert Wins(front) + [] == Wins(front);
      assert PnlPcts(Wins(front) + [last]) == PnlPcts(Wins(front)) + [last.pnlPct];
      SumSnoc(PnlPcts(Wins(front)), last.pnlPct);
    }
  }

  lemma {:induction false} LossPctsSum(trades: seq<Trade>)
    requires SignedPcts(trades)
    ensures Sum(AbsPnlPcts(Losses(trades))) == -SumPct(trades, false)
  {
    hide AbsPnlPcts;
    if trades == [] {
      assert AbsPnlPcts(Losses(trades)) == [];
    } else {
      var front, last := trades[..|trades| - 1], trades[|trades| - 1];
      LossPctsSum(front);
      assert Losses(front) + [] == Losses(front);
      assert AbsPnlPcts(Losses(front) + [last]) == AbsPnlPcts(Losses(front)) + [Abs(last.pnlPct)];
      SumSnoc(AbsPnlPcts(Losses(front)), Abs(last.pnlPct));
    }
  }

  lemma MeanReadBack(s: seq<real>)
    requires s != []
    ensures Mean(s) * |s| as real == Sum(s)
  {
    DivideTimes(Sum(s), |s| as real);
  }

  lemma ShareReadBack(part: real, whole: real)
    requires 0.0 < whole
    ensures (part / whole * 100.0) * whole == 100.0 * part
  {
    DivideTimes(part, whole);
  }

  /** The percentages of a report, read back: returns as amounts, the win rate as
      a number of trades, and the averages as the totals of both sides. */
  lemma StatsReadBack(curve: seq<EquityPoint>, trades: seq<Trade>, initialCash: real)
    requires 0.0 < initialCash && curve != []
    ensures var stats, grossLoss := StatsOf(curve, trades, initialCash), Abs(SumPnl(Losses(trades)));
      && initialCash * (1.0 + stats.totalReturnPct / 100.0) == curve[|curve| - 1].equity
      && stats.winRatePct * |trades| as real == 100.0 * stats.winningTrades as real
      && (grossLoss > 0.0 ==> stats.profitFactor * grossLoss == SumPnl(Wins(trades)))
      && (grossLoss == 0.0 ==> stats.profitFactor == 0.0)
      && stats.avgWinPct * stats.winningTrades as real == SumPct(trades, true)
      && (SignedPcts(trades) ==> stats.avgLossPct * stats.losingTrades as real == -SumPct(trades, false))
  {
    TotalReadBack(curve, trades, initialCash);
    WinRateReadBack(curve, trades, initialCash);
    FactorReadBack(curve, trades, initialCash);
    AveragesReadBack(curve, trades, initialCash);
    hide StatsOf, SumPct, SignedPcts, SumPnl, Abs;
  }

  lemma TotalReadBack(curve: seq<EquityPoint>, trades: seq<Trade>, initialCash: real)
    requires 0.0 < initialCash && curve != []
    ensures initialCash * (1.0 + StatsOf(curve, trades, initialCash).totalReturnPct / 100.0)
      == curve[|curve| - 1].equity
  {
    hide SumPnl, Wins, Losses, MaxDrawdown, Mean, PnlPcts, AbsPnlPcts, EquityValues, Abs;
    ReturnReadBack(curve[|curve| - 1].equity, initialCash);
  }

  lemma FactorReadBack(curve: seq<EquityPoint>, trades: seq<Trade>, initialCash: real)
    requires 0.0 < initialCash
    ensures var factor, grossLoss := StatsOf(curve, trades, initialCash).profitFactor, Abs(SumPnl(Losses(trades)));
      && (grossLoss > 0.0 ==> factor * grossLoss == SumPnl(Wins(trades)))
      && (grossLoss == 0.0 ==> factor == 0.0)
  {
    hide SumPnl, Wins, Losses, MaxDrawdown, Mean, PnlPcts, AbsPnlPcts, EquityValues, Abs;
    var grossProfit, grossLoss := SumPnl(Wins(trades)), Abs(SumPnl(Losses(trades)));
    if grossLoss > 0.0 {
      DivideTimes(grossProfit, grossLoss);
    }
  }

  lemma WinRateReadBack(curve: seq<EquityPoint>, trades: seq<Trade>, initialCash: real)
    requires 0.0 < initialCash
    ensures var stats := StatsOf(curve, trades, initialCash);
      stats.winRatePct * |trades| as real == 100.0 * stats.winningTrades as real
  {
    hide SumPnl, Losses, MaxDrawdown, Mean, PnlPcts, AbsPnlPcts, EquityValues, Abs;
    if trades != [] {
      ShareReadBack(|Wins(trades)| as real, |trades| as real);
    }
  }

  lemma AveragesReadBack(curve: seq<EquityPoint>, trades: seq<Trade>, initialCash: real)
    requires initialCash != 0.0
    ensures var stats := StatsOf(curve, trades, initialCash);
      && stats.avgWinPct * stats.winningTrades as real == SumPct(trades, true)
      && (SignedPcts(trades) ==> stats.avgLossPct * stats.losingTrades as real == -SumPct(trades, false))
  {
    hide SumPnl, MaxDrawdown, EquityValues, SumPct, Mean, SignedPcts, Wins, Losses;
    WinPctsSum(trades);
    if SignedPcts(trades) {
      LossPctsSum(trades);
    }
    if Wins(trades) == [] {
      assert PnlPcts(Wins(trades)) == [];
    } else {
      MeanReadBack(PnlPcts(Wins(trades)));
    }
    if Losses(trades) == [] {
      assert AbsPnlPcts(Losses(trades)) == [];
    } else {
      MeanReadBack(AbsPnlPcts(Losses(trades)));
    }
  }
}
