/** Recomputing every feature on every prefix decides exactly what one pass over
    the whole series would have decided, as long as the bars come in time order. */
module WalkForward {
  import opened Basics
  import opened Sums
  import opened Features
  import opened Strategies
  import opened BacktestEngine
  import BP = BacktestPortfolio
  import Sorting

  // ---------------------------------------------------------------- features look only backwards

  lemma EmaPrefix(closes: seq<real>, n: nat, index: nat, period: nat)
    requires index < n <= |closes| && 0 < period
    ensures Ema(closes[..n], index, period) == Ema(closes, index, period)
  {
    assert closes[..n][..index + 1] == closes[..index + 1];
  }

  lemma MacdPrefix(closes: seq<real>, n: nat, index: nat)
    requires index < n <= |closes|
    ensures Macd(closes[..n], index) == Macd(closes, index)
  {
    EmaPrefix(closes, n, index, 12);
    EmaPrefix(closes, n, index, 26);
  }

  lemma MacdSignalPrefix(closes: seq<real>, n: nat, index: nat)
    requires index < n <= |closes|
    ensures MacdSignal(closes[..n], index) == MacdSignal(closes, index)
  {
    if 34 <= index {
      var a, b := MacdSeries(closes[..n], index), MacdSeries(closes, index);
      forall j | 0 <= j < 9
        ensures a[j] == b[j]
      {
        MacdPrefix(closes, n, index - 8 + j);
        assert Macd(closes[..n], index - 8 + j) == Some(a[j]);
        assert Macd(closes, index - 8 + j) == Some(b[j]);
      }
      assert a == b;
    }
  }

  lemma WindowPrefix(closes: seq<real>, n: nat, index: nat, size: nat)
    requires size <= index + 1 <= n <= |closes|
    ensures Window(closes[..n], index, size) == Window(closes, index, size)
  {}

  lemma WindowedPrefix(closes: seq<real>, n: nat, index: nat, size: nat, root: real -> real)
    requires index < n <= |closes| && 0 < size
    ensures Sma(closes[..n], index, size) == Sma(closes, index, size)
    ensures Volatility(closes[..n], index, size, root) == Volatility(closes, index, size, root)
    ensures Rsi(closes[..n], index, size) == Rsi(closes, index, size)
    ensures BbStd(closes[..n], index, size, root) == BbStd(closes, index, size, root)
  {
    hide Mean, Variance, Returns, RsiOfWindow;
    if size <= index + 1 {
      WindowPrefix(closes, n, index, size);
    }
  }

  lemma BandsPrefix(closes: seq<real>, n: nat, index: nat, root: real -> real)
    requires index < n <= |closes|
    ensures BbUpper(closes[..n], index, 20, 2.0, root) == BbUpper(closes, index, 20, 2.0, root)
    ensures BbLower(closes[..n], index, 20, 2.0, root) == BbLower(closes, index, 20, 2.0, root)
    ensures BbPctB(closes[..n], index, 20, 2.0, root) == BbPctB(closes, index, 20, 2.0, root)
  {
    hide Sma, BbStd, PctB, Volatility, Rsi;
    WindowedPrefix(closes, n, index, 20, root);
  }

  lemma ValuesPrefix(closes: seq<real>, n: nat, index: nat, root: real -> real)
    requires index < n <= |closes|
    ensures ValuesAt(closes[..n], index, root) == ValuesAt(closes, index, root)
  {
    hide Sma, BbUpper, BbLower, BbPctB, Volatility, Rsi, Macd, MacdSignal;
    WindowedPrefix(closes, n, index, 3, root);
    WindowedPrefix(closes, n, index, 5, root);
    WindowedPrefix(closes, n, index, 20, root);
    WindowedPrefix(closes, n, index, 14, root);
    BandsPrefix(closes, n, index, root);
    MacdPrefix(closes, n, index);
    MacdSignalPrefix(closes, n, index);
  }

  /** The feature points of a prefix are the first feature points of the series. */
  lemma PointsPrefix(bars: seq<Bar>, n: nat, featureSet: string, root: real -> real)
    requires n <= |bars|
    ensures Points(bars[..n], featureSet, root) == Points(bars, featureSet, root)[..n]
  {
    hide ValuesAt;
    assert Closes(bars[..n]) == Closes(bars)[..n];
    forall i | 0 <= i < n
      ensures PointAt(bars[..n], i, featureSet, root) == PointAt(bars, i, featureSet, root)
    {
      ValuesPrefix(Closes(bars), n, i, root);
    }
  }

  // ---------------------------------------------------------------- one pass

  /** The signal of the newest point at or before `i` that carries the required features. */
  function LatestAt(strategy: Strategy, points: seq<FeaturePoint>, i: int): Option<Signal>
    requires i < |points|
    decreases i
  {
    if i < 0 then None
    else if HasRequiredFeatures(strategy, points[i].values) then Some(SignalOf(strategy, points[i], "backtest"))
    else LatestAt(strategy, points, i - 1)
  }

  lemma {:induction false} LastSignalIsLatest(strategy: Strategy, points: seq<FeaturePoint>, n: nat)
    requires n <= |points|
    ensures LastOf(SignalsOf(strategy, points[..n], "backtest")) == LatestAt(strategy, points, n - 1)
  {
    hide HasRequiredFeatures, SignalOf;
    if n > 0 {
      LastSignalIsLatest(strategy, points, n - 1);
      assert points[..n][..n - 1] == points[..n - 1];
    }
  }

  /** On time-ordered bars the engine's decision at bar `i` is the latest signal
      of a single pass over all the bars, later ones included; while there are
      too few points there is none. */
  lemma WalkForwardIsSinglePass(strategy: Strategy, bars: seq<Bar>, featureSet: string, root: real -> real, i: nat)
    requires i < |bars| && Sorting.Ascending(bars, BarNotAfter)
    ensures WalkForward(strategy, bars, featureSet, root, i)
         == if i + 1 < ManifestOf(strategy).minFeaturePoints then None
            else LatestAt(strategy, Points(bars, featureSet, root), i)
  {
    hide Points, SignalsOf, Signals;
    var window := bars[..i + 1];
    Sorting.SortOfAscending(window, BarNotAfter);
    SignalsOfOrdered(strategy, window, featureSet, "backtest", root);
    PointsPrefix(bars, i + 1, featureSet, root);
    LastSignalIsLatest(strategy, Points(bars, featureSet, root), i + 1);
  }

  function SinglePass(strategy: Strategy, bars: seq<Bar>, featureSet: string,
                      root: real -> real): (r: seq<Option<Signal>>)
    ensures |r| == |bars|
  {
    var points := Points(bars, featureSet, root);
    seq(|bars|, i requires 0 <= i < |bars| =>
      if i + 1 < ManifestOf(strategy).minFeaturePoints then None else LatestAt(strategy, points, i))
  }

  /** So the whole run is the run driven by one pass. */
  lemma RunIsSinglePass(request: Request, strategy: Strategy, bars: seq<Bar>, root: real -> real)
    requires request.Valid() && Priced(bars) && Sorting.Ascending(bars, BarNotAfter)
    ensures BookOf(request, strategy, bars, root)
         == After(request.Start(), request.Terms(), Upper(request.symbol), bars,
                  SinglePass(strategy, bars, request.featureSet, root), |bars|)
  {
    hide After, WalkForward, Points, LatestAt;
    var walked, passed := Decisions(strategy, bars, request.featureSet, root),
        SinglePass(strategy, bars, request.featureSet, root);
    forall i | 0 <= i < |bars|
      ensures walked[i] == passed[i]
    {
      WalkForwardIsSinglePass(strategy, bars, request.featureSet, root, i);
    }
    assert walked == passed;
  }

  /** The state after `n` bars is that of a run over those `n` bars alone. */
  lemma {:induction false} LaterBarsDoNotMatter(start: BP.Book, terms: BP.Terms, symbol: string, bars: seq<Bar>,
                                                more: seq<Bar>,
                                                 decisions: seq<Option<Signal>>, others: seq<Option<Signal>>, n: nat)
    requires n <= |bars| == |decisions| && |bars + more| == |others|
    requires terms.Valid() && Priced(bars + more)
    requires forall i :: 0 <= i < n ==> decisions[i] == others[i]
    ensures Priced(bars)
    ensures After(start, terms, symbol, bars + more, others, n) == After(start, terms, symbol, bars, decisions, n)
  {
    assert forall i :: 0 <= i < |bars| ==> bars[i] == (bars + more)[i];
    hide Step;
    if n > 0 {
      LaterBarsDoNotMatter(start, terms, symbol, bars, more, decisions, others, n - 1);
    }
  }

  lemma EngineIgnoresLaterBars(request: Request, strategy: Strategy, bars: seq<Bar>, more: seq<Bar>, root: real -> real)
    requires request.Valid() && Priced(bars + more)
    ensures Priced(bars)
    ensures After(request.Start(), request.Terms(), Upper(request.symbol), bars + more,
                  Decisions(strategy, bars + more, request.featureSet, root), |bars|)
         == BookOf(request, strategy, bars, root)
  {
    hide After, Signals, Points, LastOf;
    var all, some := Decisions(strategy, bars + more, request.featureSet, root),
        Decisions(strategy, bars, request.featureSet, root);
    forall i | 0 <= i < |bars|
      ensures some[i] == all[i]
    {
      assert (bars + more)[..i + 1] == bars[..i + 1];
    }
    LaterBarsDoNotMatter(request.Start(), request.Terms(), Upper(request.symbol), bars, more, some, all, |bars|);
  }

  // ---------------------------------------------------------------- why the order matters

  /** At every bar the newest bar of the re-sorted window is the current one. */
  ghost predicate NewestIsCurrent(bars: seq<Bar>)
  {
    forall i {:trigger bars[i]} :: 0 <= i < |bars| ==> Sorting.Sort(bars[..i + 1], BarNotAfter)[i].time == bars[i].time
  }

  lemma SortedLastIsLatest(bars: seq<Bar>)
    requires bars != []
    ensures forall k :: 0 <= k < |bars| ==> bars[k].time <= Sorting.Sort(bars, BarNotAfter)[|bars| - 1].time
    ensures Sorting.Sort(bars, BarNotAfter)[|bars| - 1] in bars
  {
    var sorted := Sorting.Sort(bars, BarNotAfter);
    BarOrderIsTotal();
    Sorting.SortAscending(bars, BarNotAfter);
    forall k | 0 <= k < |bars|
      ensures bars[k].time <= sorted[|bars| - 1].time
    {
      assert bars[k] in multiset(sorted);
      var m :| 0 <= m < |sorted| && sorted[m] == bars[k];
      assert m == |sorted| - 1 || BarNotAfter(sorted[m], sorted[|sorted| - 1]);
    }
    assert sorted[|bars| - 1] in multiset(sorted);
  }

  /** The engine never looks past the current bar exactly when the bars arrive
      in time order. */
  lemma NoLookAheadIffAscending(bars: seq<Bar>)
    ensures NewestIsCurrent(bars) <==> Sorting.Ascending(bars, BarNotAfter)
  {
    if NewestIsCurrent(bars) {
      forall i, j | 0 <= i <= j < |bars|
        ensures i == j || BarNotAfter(bars[i], bars[j])
      {
        SortedLastIsLatest(bars[..j + 1]);
        assert bars[..j + 1][i] == bars[i];
      }
    }
    if Sorting.Ascending(bars, BarNotAfter) {
      forall i | 0 <= i < |bars|
        ensures Sorting.Sort(bars[..i + 1], BarNotAfter)[i].time == bars[i].time
      {
        Sorting.SortOfAscending(bars[..i + 1], BarNotAfter);
      }
    }
  }

  /** Rows that come newest first, as the market-data query returns them: every
      decision after the first rests on the first row, which lies in the future
      of the bar being decided. */
  lemma NewestFirstLooksAhead(strategy: Strategy, bars: seq<Bar>, featureSet: string, root: real -> real, i: nat)
    requires 0 < i < |bars|
    requires forall a, b :: 0 <= a < b < |bars| ==> bars[a].time > bars[b].time
    requires ManifestOf(strategy).minFeaturePoints <= i + 1
    requires HasRequiredFeatures(strategy,
                                 PointAt(Sorting.Sort(bars[..i + 1], BarNotAfter), i, featureSet, root).values)
    ensures WalkForward(strategy, bars, featureSet, root, i).Some?
    ensures WalkForward(strategy, bars, featureSet, root, i).value.time == bars[0].time > bars[i].time
  {
    hide ValuesAt, HasRequiredFeatures, ConfidenceOf, DirectionOf, SignalsOf, Signals, Sorting.Sort;
    var window := bars[..i + 1];
    var sorted := Sorting.Sort(window, BarNotAfter);
    SortedLastIsLatest(window);
    assert window[0] == bars[0];
    var k :| 0 <= k < |window| && window[k] == sorted[i];
    assert k == 0;
    BarOrderIsTotal();
    Sorting.SortAscending(window, BarNotAfter);
    SignalsOfOrdered(strategy, sorted, featureSet, "backtest", root);
    var points := Points(sorted, featureSet, root);
    LastSignalIsLatest(strategy, points, i + 1);
    assert points[..i + 1] == points;
  }
}
