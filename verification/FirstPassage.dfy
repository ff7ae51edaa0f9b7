/** What a label says about the prices of the bars after a signal. */
module FirstPassage {
  import opened Basics
  import opened Labeler
  import LabelService

  /** How many of the bars a label looks at. */
  function Horizon(bars: nat, maxBars: int): (n: nat)
    ensures n <= bars
  {
    if maxBars < 0 then (if bars + maxBars < 0 then 0 else bars + maxBars)
    else if maxBars < bars then maxBars else bars
  }

  lemma SliceIsHorizon(forward: seq<ForwardBar>, maxBars: int)
    ensures Slice(forward, maxBars) == forward[..Horizon(|forward|, maxBars)]
  {}

  // The two levels of a position entered at `entry`.

  function Above(entry: real, pct: real): real { entry * (1.0 + pct / 100.0) }

  function Below(entry: real, pct: real): real { entry * (1.0 - pct / 100.0) }

  /** The first `n` bars stay strictly between two levels, by their highs and lows. */
  ghost predicate Inside(forward: seq<ForwardBar>, n: nat, low: real, high: real)
    requires n <= |forward|
  {
    forall j :: 0 <= j < n ==> low < forward[j].low && forward[j].high < high
  }

  /** The outcomes of a buy. */
  ghost predicate BuyWins(entry: real, forward: seq<ForwardBar>, tp: real, sl: real, n: nat, k: nat)
    requires n <= |forward|
  {
    k < n && Inside(forward, k, Below(entry, sl), Above(entry, tp)) && forward[k].high >= Above(entry, tp)
  }

  ghost predicate BuyLoses(entry: real, forward: seq<ForwardBar>, tp: real, sl: real, n: nat, k: nat)
    requires n <= |forward|
  {
    && k < n && Inside(forward, k, Below(entry, sl), Above(entry, tp))
    && forward[k].high < Above(entry, tp) && forward[k].low <= Below(entry, sl)
  }

  /** The outcomes of a sell: the target lies below, the stop above. */
  ghost predicate SellWins(entry: real, forward: seq<ForwardBar>, tp: real, sl: real, n: nat, k: nat)
    requires n <= |forward|
  {
    k < n && Inside(forward, k, Below(entry, tp), Above(entry, sl)) && forward[k].low <= Below(entry, tp)
  }

  ghost predicate SellLoses(entry: real, forward: seq<ForwardBar>, tp: real, sl: real, n: nat, k: nat)
    requires n <= |forward|
  {
    && k < n && Inside(forward, k, Below(entry, tp), Above(entry, sl))
    && forward[k].low > Below(entry, tp) && forward[k].high >= Above(entry, sl)
  }

  lemma FirstTouchOf(entry: real, direction: string, forward: seq<ForwardBar>, tp: real, sl: real, n: nat, k: nat)
    requires direction == "buy" || direction == "sell"
    requires k <= n <= |forward|
    ensures var low, high := if direction == "buy" then Below(entry, sl) else Below(entry, tp),
                             if direction == "buy" then Above(entry, tp) else Above(entry, sl);
      FirstTouch(BarriersOf(entry, direction, tp, sl), forward[..n]) == k
      <==> Inside(forward, k, low, high) && (k < n ==> forward[k].low <= low || high <= forward[k].high)
  {
    var bars, barriers := forward[..n], BarriersOf(entry, direction, tp, sl).value;
    var low, high := if direction == "buy" then Below(entry, sl) else Below(entry, tp),
                     if direction == "buy" then Above(entry, tp) else Above(entry, sl);
    assert forall j :: 0 <= j < n ==> bars[j] == forward[j];
    assert forall bar: ForwardBar :: barriers.Touches(bar) <==> bar.low <= low || high <= bar.high;
    hide Above, Below, BarriersOf, Barriers.Touches;
    if Inside(forward, k, low, high) && (k < n ==> forward[k].low <= low || high <= forward[k].high) {
      FirstTouchIs(barriers, bars, k);
    }
  }

  /** Labels of a buy, by the highs and lows of the bars within the horizon: a win
      at bar `k + 1` exactly when bar `k` is the first to leave the two levels and
      reaches the target, a loss exactly when it leaves them by the stop alone, and
      a timeout exactly when no bar leaves them. */
  lemma BuyLabelIff(entry: real, forward: seq<ForwardBar>, tp: real, sl: real, maxBars: int, k: nat)
    requires 0.0 < entry && 0 < Horizon(|forward|, maxBars)
    ensures var n, made := Horizon(|forward|, maxBars), LabelOf(entry, "buy", forward, tp, sl, maxBars);
      && made.Some?
      && (BuyWins(entry, forward, tp, sl, n, k) <==> made.value.outcome == Win && made.value.exitBars == k + 1)
      && (BuyLoses(entry, forward, tp, sl, n, k) <==> made.value.outcome == Loss && made.value.exitBars == k + 1)
      && (Inside(forward, n, Below(entry, sl), Above(entry, tp)) <==> made.value.outcome == Timeout)
  {
    var n := Horizon(|forward|, maxBars);
    SliceIsHorizon(forward, maxBars);
    var first := FirstTouch(BarriersOf(entry, "buy", tp, sl), forward[..n]);
    FirstTouchOf(entry, "buy", forward, tp, sl, n, first);
    FirstTouchOf(entry, "buy", forward, tp, sl, n, n);
    if k < n {
      FirstTouchOf(entry, "buy", forward, tp, sl, n, k);
    }
    BuyTarget(entry, tp, sl);
    hide Above, Below, BarriersOf, FirstTouch, TimeoutPnl, Slice, Inside;
  }

  lemma BuyTarget(entry: real, tp: real, sl: real)
    ensures BarriersOf(entry, "buy", tp, sl).Some?
    ensures BarriersOf(entry, "buy", tp, sl).value == Barriers(true, Above(entry, tp), Below(entry, sl))
  {}

  lemma SellTarget(entry: real, tp: real, sl: real)
    ensures BarriersOf(entry, "sell", tp, sl).Some?
    ensures BarriersOf(entry, "sell", tp, sl).value == Barriers(false, Below(entry, tp), Above(entry, sl))
  {}

  /** Labels of a sell, likewise. */
  lemma SellLabelIff(entry: real, forward: seq<ForwardBar>, tp: real, sl: real, maxBars: int, k: nat)
    requires 0.0 < entry && 0 < Horizon(|forward|, maxBars)
    ensures var n, made := Horizon(|forward|, maxBars), LabelOf(entry, "sell", forward, tp, sl, maxBars);
      && made.Some?
      && (SellWins(entry, forward, tp, sl, n, k) <==> made.value.outcome == Win && made.value.exitBars == k + 1)
      && (SellLoses(entry, forward, tp, sl, n, k) <==> made.value.outcome == Loss && made.value.exitBars == k + 1)
      && (Inside(forward, n, Below(entry, tp), Above(entry, sl)) <==> made.value.outcome == Timeout)
  {
    var n := Horizon(|forward|, maxBars);
    SliceIsHorizon(forward, maxBars);
    var first := FirstTouch(BarriersOf(entry, "sell", tp, sl), forward[..n]);
    FirstTouchOf(entry, "sell", forward, tp, sl, n, first);
    FirstTouchOf(entry, "sell", forward, tp, sl, n, n);
    if k < n {
      FirstTouchOf(entry, "sell", forward, tp, sl, n, k);
    }
    SellTarget(entry, tp, sl);
    hide Above, Below, BarriersOf, FirstTouch, TimeoutPnl, Slice, Inside;
  }

  /** The profit a label carries: the target for a win, minus the stop for a loss,
      and for a timeout what the last close within the horizon made, in percent. */
  lemma LabelPnl(entry: real, direction: string, forward: seq<ForwardBar>, tp: real, sl: real, maxBars: int)
    requires 0.0 < entry && 0 < Horizon(|forward|, maxBars)
    ensures var n, made := Horizon(|forward|, maxBars), LabelOf(entry, direction, forward, tp, sl, maxBars);
      && made.Some?
      && (made.value.outcome == Win ==> made.value.pnlPct == tp)
      && (made.value.outcome == Loss ==> made.value.pnlPct == -sl)
      && (made.value.outcome == Timeout ==>
            && made.value.exitBars == n
            && made.value.pnlPct * entry
               == 100.0 * (if direction == "buy" then forward[n - 1].close - entry else entry - forward[n - 1].close))
  {
    SliceIsHorizon(forward, maxBars);
    var close := forward[Horizon(|forward|, maxBars) - 1].close;
    PnlOf(entry, direction, close);
    hide TimeoutPnl, BarriersOf, FirstTouch, Slice;
  }

  lemma PnlOf(entry: real, direction: string, close: real)
    requires 0.0 < entry
    ensures TimeoutPnl(entry, direction, close) * entry
         == 100.0 * (if direction == "buy" then close - entry else entry - close)
  {
    DivideTimes(close - entry, entry);
  }

  /** Without a positive entry or any bar there is nothing to label. */
  lemma NothingToLabel(entry: real, direction: string, forward: seq<ForwardBar>, tp: real, sl: real, maxBars: int)
    requires entry <= 0.0 || forward == []
    ensures LabelOf(entry, direction, forward, tp, sl, maxBars) == Some(Label(Timeout, 0, 0.0))
  {}

  // ---------------------------------------------------------------- stored labels

  /** A label stored by a batch for a buy or sell is the first passage of the bars
      after that signal. */
  lemma StoredLabelIff(labels: map<nat, Label>, batch: seq<LabelService.StoredSignal>,
                       market: nat -> seq<ForwardBar>, rules: LabelService.Barred, i: nat, k: nat)
    requires i < |batch| && LabelService.DistinctIds(batch) && batch[i].id !in labels
    requires batch[i].entry.Some? && 0.0 < batch[i].entry.value && market(batch[i].id) != [] && 0 < rules.maxBars
    ensures var s, after := batch[i], LabelService.LabelsAfter(labels, batch, market, rules);
      var entry, bars := s.entry.value, market(s.id);
      var n := Horizon(|bars|, rules.maxBars);
      && s.id in after
      && (s.direction == "buy" ==>
            && (BuyWins(entry, bars, rules.tpPct, rules.slPct, n, k) <==>
                  after[s.id].outcome == Win && after[s.id].exitBars == k + 1)
            && (BuyLoses(entry, bars, rules.tpPct, rules.slPct, n, k) <==>
                  after[s.id].outcome == Loss && after[s.id].exitBars == k + 1))
      && (s.direction == "sell" ==>
            && (SellWins(entry, bars, rules.tpPct, rules.slPct, n, k) <==>
                  after[s.id].outcome == Win && after[s.id].exitBars == k + 1)
            && (SellLoses(entry, bars, rules.tpPct, rules.slPct, n, k) <==>
                  after[s.id].outcome == Loss && after[s.id].exitBars == k + 1))
  {
    hide LabelOf, LabelService.LabelsAfter, BuyWins, BuyLoses, SellWins, SellLoses;
    var s := batch[i];
    var entry, bars, n := s.entry.value, market(s.id), Horizon(|market(s.id)|, rules.maxBars);
    SliceIsHorizon(bars, rules.maxBars);
    LabelService.LabelsInsideBatch(labels, batch, market, rules, i);
    SlicedTwice(entry, s.direction, bars, rules.tpPct, rules.slPct, rules.maxBars);
    BuyLabelIff(entry, bars, rules.tpPct, rules.slPct, rules.maxBars, k);
    SellLabelIff(entry, bars, rules.tpPct, rules.slPct, rules.maxBars, k);
  }

  /** The batch reads no more bars than a label looks at. */
  lemma SlicedTwice(entry: real, direction: string, forward: seq<ForwardBar>, tp: real, sl: real, maxBars: nat)
    requires forward != [] && 0 < maxBars
    ensures LabelOf(entry, direction, Slice(forward, maxBars), tp, sl, maxBars)
         == LabelOf(entry, direction, forward, tp, sl, maxBars)
  {
    assert Slice(Slice(forward, maxBars), maxBars) == Slice(forward, maxBars);
    hide FirstTouch, BarriersOf, TimeoutPnl;
  }
}
