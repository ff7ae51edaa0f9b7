/** Which bars each recorded trade covers, and why it ended where it did. */
module TradeSpans {
  import opened Basics
  import opened Features
  import opened Strategies
  import opened BacktestPortfolio
  import opened BacktestEngine

  /** Bars of entry and exit. */
  datatype Span = Span(entry: nat, exit: nat)

  /** The levels that guard a position opened at bar `e`. */
  function StopAt(terms: Terms, bars: seq<Bar>, decisions: seq<Option<Signal>>, e: nat): real
    requires e < |bars| == |decisions| && decisions[e].Some?
  {
    StopLevel(BuyPrice(bars[e].close, terms.slippage), decisions[e].value.stopLossPct)
  }

  function TargetAt(terms: Terms, bars: seq<Bar>, decisions: seq<Option<Signal>>, e: nat): real
    requires e < |bars| == |decisions| && decisions[e].Some?
  {
    TargetLevel(BuyPrice(bars[e].close, terms.slippage), decisions[e].value.takeProfitPct)
  }

  predicate SellAt(decisions: seq<Option<Signal>>, i: nat)
    requires i < |decisions|
  {
    decisions[i].Some? && decisions[i].value.direction == SELL
  }

  /** The closes strictly after `e` and before `end` stay strictly between stop and
      target, and none of these bars is decided as a sell. */
  ghost predicate Quiet(terms: Terms, bars: seq<Bar>, decisions: seq<Option<Signal>>, e: nat, end: int)
    requires e < |bars| == |decisions| && decisions[e].Some? && end <= |bars|
  {
    forall j :: e < j < end ==>
      StopAt(terms, bars, decisions, e) < bars[j].close < TargetAt(terms, bars, decisions, e)
      && !SellAt(decisions, j)
  }

  predicate BuyAt(decisions: seq<Option<Signal>>, e: nat)
    requires e < |decisions|
  {
    decisions[e].Some? && decisions[e].value.direction == BUY
  }

  ghost predicate Guarded(h: Holding, terms: Terms, bars: seq<Bar>, decisions: seq<Option<Signal>>)
    requires |bars| == |decisions|
  {
    var e := h.entryBar;
    && e < |bars| && BuyAt(decisions, e)
    && 0.0 < h.quantity && 0.0 < Value(h.quantity, h.entryPrice)
    && h.entryTime == bars[e].time
    && h.entryPrice == BuyPrice(bars[e].close, terms.slippage)
    && h.stopLoss == StopAt(terms, bars, decisions, e)
    && h.takeProfit == TargetAt(terms, bars, decisions, e)
  }

  /** The exit bar is the first to touch a level, and the reason says which;
      otherwise it is a sell signal or the end, met with no level touched. */
  ghost predicate ExitExplained(reason: ExitReason, s: Span, terms: Terms, bars: seq<Bar>,
                                decisions: seq<Option<Signal>>)
    requires s.entry <= s.exit < |bars| == |decisions| && decisions[s.entry].Some?
  {
    var price, stop, target := bars[s.exit].close, StopAt(terms, bars, decisions, s.entry),
        TargetAt(terms, bars, decisions, s.entry);
    && Quiet(terms, bars, decisions, s.entry, s.exit)
    && match reason
       case StopLoss => s.entry < s.exit && price <= stop
       case TakeProfit => s.entry < s.exit && stop < price && target <= price
       case SellSignal => s.entry < s.exit && stop < price < target
                          && SellAt(decisions, s.exit)
       case EndOfBacktest => s.exit == |bars| - 1
                             && (s.entry < s.exit ==> stop < price < target && !SellAt(decisions, s.exit))
  }

  ghost predicate Explains(s: Span, t: Trade, terms: Terms, bars: seq<Bar>, decisions: seq<Option<Signal>>)
    requires |bars| == |decisions|
  {
    && s.entry <= s.exit < |bars|
    && BuyAt(decisions, s.entry)
    && 0.0 < t.quantity
    && t.entryTime == bars[s.entry].time && t.exitTime == bars[s.exit].time
    && t.entryPrice == BuyPrice(bars[s.entry].close, terms.slippage)
    && t.exitPrice == SellPrice(bars[s.exit].close, terms.slippage)
    && t.barsHeld == s.exit - s.entry
    && ExitExplained(t.exitReason, s, terms, bars, decisions)
    && t.pnl == Value(t.quantity, t.exitPrice) - terms.commission - Value(t.quantity, t.entryPrice)
    && t.pnlPct * Value(t.quantity, t.entryPrice) == t.pnl * 100.0
  }

  /** Spans in order and without overlap, one per trade, the open position last. */
  ghost predicate Covered(book: Book, spans: seq<Span>, terms: Terms, symbol: string, bars: seq<Bar>,
                          decisions: seq<Option<Signal>>, n: nat)
    requires n <= |bars| == |decisions|
  {
    && |spans| == |book.trades|
    && (forall k :: 0 <= k < |spans| ==> Explains(spans[k], book.trades[k], terms, bars, decisions))
    && (forall k :: 0 <= k < |spans| ==> spans[k].exit < n)
    && (forall k, l :: 0 <= k < l < |spans| ==> spans[k].exit <= spans[l].entry)
    && (book.position.Some? ==>
         var h := book.position.value;
         && h.symbol == symbol && Guarded(h, terms, bars, decisions)
         && h.entryBar < n && Quiet(terms, bars, decisions, h.entryBar, n)
         && (forall k :: 0 <= k < |spans| ==> spans[k].exit <= h.entryBar))
  }

  /** Every take-profit percentage is positive, as the signal model demands. */
  ghost predicate Targeted(decisions: seq<Option<Signal>>)
  {
    forall i :: 0 <= i < |decisions| && decisions[i].Some? ==> 0.0 < decisions[i].value.takeProfitPct
  }

  lemma TargetPositive(terms: Terms, bars: seq<Bar>, decisions: seq<Option<Signal>>, e: nat)
    requires e < |bars| == |decisions| && decisions[e].Some?
    requires terms.Valid() && 0.0 < bars[e].close && 0.0 < decisions[e].value.takeProfitPct
    ensures 0.0 < TargetAt(terms, bars, decisions, e)
  {
    BuyPricePositive(bars[e].close, terms.slippage);
    PositiveProduct(BuyPrice(bars[e].close, terms.slippage), 1.0 + decisions[e].value.takeProfitPct / 100.0);
  }

  /** Recording the open position as a trade that ends at bar `x`. */
  lemma ClosingCovers(book: Book, spans: seq<Span>, terms: Terms, symbol: string, bars: seq<Bar>,
                      decisions: seq<Option<Signal>>, n: nat, x: nat, reason: ExitReason)
    requires n <= x + 1 <= |bars| == |decisions|
    requires Covered(book, spans, terms, symbol, bars, decisions, n) && book.position.Some?
    requires book.position.value.entryBar <= x
    requires ExitExplained(reason, Span(book.position.value.entryBar, x), terms, bars, decisions)
    ensures Covered(Closed(book, terms, symbol, bars[x].close, bars[x].time, reason, x),
                    spans + [Span(book.position.value.entryBar, x)], terms, symbol, bars, decisions, x + 1)
  {
    PctOfCost(book.position.value, terms, bars[x].close, bars[x].time, reason, x);
    hide StopAt, TargetAt, BuyPrice, SellPrice, Value, Quiet, ExitExplained;
  }

  lemma PctOfCost(h: Holding, terms: Terms, price: real, time: int, reason: ExitReason, bar: nat)
    ensures Value(h.quantity, h.entryPrice) != 0.0 ==>
      var t := TradeOf(h, terms, price, time, reason, bar);
      t.pnlPct * Value(h.quantity, h.entryPrice) == t.pnl * 100.0
  {
    if Value(h.quantity, h.entryPrice) != 0.0 {
      DivideTimes(TradeOf(h, terms, price, time, reason, bar).pnl, Value(h.quantity, h.entryPrice));
    }
  }

  lemma StoppedCovers(book: Book, spans: seq<Span>, terms: Terms, symbol: string, bars: seq<Bar>,
                      decisions: seq<Option<Signal>>, n: nat)
    returns (spans': seq<Span>)
    requires n < |bars| == |decisions| && Priced(bars) && terms.Valid() && Targeted(decisions)
    requires Covered(book, spans, terms, symbol, bars, decisions, n)
    ensures var stopped := Stopped(book, terms, symbol, bars[n], n);
      if stopped.position.None? then Covered(stopped, spans', terms, symbol, bars, decisions, n + 1)
      else stopped == book && spans' == spans && Untouched(book.position.value.entryBar, terms, bars, decisions, n)
  {
    hide StopAt, TargetAt, BuyPrice, SellPrice, Value;
    spans' := spans;
    if book.position.Some? {
      var h := book.position.value;
      TargetPositive(terms, bars, decisions, h.entryBar);
      match Trigger(book, symbol, bars[n].close) {
        case Some(reason) =>
          assert ExitExplained(reason, Span(h.entryBar, n), terms, bars, decisions);
          ClosingCovers(book, spans, terms, symbol, bars, decisions, n, n, reason);
          spans' := spans + [Span(h.entryBar, n)];
        case None =>
      }
    }
  }

  /** Bar `n` closes strictly between the levels set at bar `e`. */
  predicate Untouched(e: nat, terms: Terms, bars: seq<Bar>, decisions: seq<Option<Signal>>, n: nat)
  {
    && e < |bars| == |decisions| && n < |bars| && decisions[e].Some?
    && StopAt(terms, bars, decisions, e) < bars[n].close < TargetAt(terms, bars, decisions, e)
  }

  lemma OpeningCovers(book: Book, spans: seq<Span>, terms: Terms, symbol: string, bars: seq<Bar>,
                      decisions: seq<Option<Signal>>, n: nat)
    requires n < |bars| == |decisions| && 0.0 < bars[n].close && terms.Valid()
    requires Covered(book, spans, terms, symbol, bars, decisions, n + 1) && book.position.None?
    requires BuyAt(decisions, n)
    ensures Covered(Opened(book, terms, symbol, bars[n].close, SizingOf(decisions[n].value), bars[n].time, n),
                    spans, terms, symbol, bars, decisions, n + 1)
  {
    var after := Opened(book, terms, symbol, bars[n].close, SizingOf(decisions[n].value), bars[n].time, n);
    BuyPricePositive(bars[n].close, terms.slippage);
    if after.position.Some? {
      PositiveProduct(after.position.value.quantity, after.position.value.entryPrice);
    }
    hide BuyPrice, SellPrice, StopLevel, TargetLevel, Percent, Explains;
  }

  lemma StepCovers(book: Book, spans: seq<Span>, terms: Terms, symbol: string, bars: seq<Bar>,
                   decisions: seq<Option<Signal>>, n: nat)
    returns (spans': seq<Span>)
    requires n < |bars| == |decisions| && Priced(bars) && terms.Valid() && Targeted(decisions)
    requires Covered(book, spans, terms, symbol, bars, decisions, n)
    ensures Covered(Step(book, terms, symbol, bars[n], n, decisions[n]), spans', terms, symbol, bars, decisions, n + 1)
  {
    hide StopAt, TargetAt, BuyPrice, SellPrice, Value, Stopped;
    spans' := StoppedCovers(book, spans, terms, symbol, bars, decisions, n);
    var stopped := Stopped(book, terms, symbol, bars[n], n);
    if stopped.position.Some? {
      var h := book.position.value;
      if SellAt(decisions, n) {
        assert ExitExplained(SellSignal, Span(h.entryBar, n), terms, bars, decisions);
        ClosingCovers(book, spans, terms, symbol, bars, decisions, n, n, SellSignal);
        spans' := spans + [Span(h.entryBar, n)];
      } else {
        assert Quiet(terms, bars, decisions, h.entryBar, n + 1);
      }
    } else if BuyAt(decisions, n) {
      OpeningCovers(stopped, spans', terms, symbol, bars, decisions, n);
    }
  }

  /** After any number of bars, whatever the decisions were. */
  lemma {:induction false} RunCovers(start: Book, terms: Terms, symbol: string, bars: seq<Bar>,
                                     decisions: seq<Option<Signal>>, n: nat)
    returns (spans: seq<Span>)
    requires n <= |bars| == |decisions| && Priced(bars) && terms.Valid() && Targeted(decisions)
    requires start.position.None? && start.trades == []
    ensures Covered(After(start, terms, symbol, bars, decisions, n), spans, terms, symbol, bars, decisions, n)
  {
    spans := [];
    hide Step;
    if n > 0 {
      hide Covered;
      spans := RunCovers(start, terms, symbol, bars, decisions, n - 1);
      spans := StepCovers(After(start, terms, symbol, bars, decisions, n - 1), spans, terms, symbol, bars, decisions,
                          n - 1);
    }
  }

  lemma FinishCovers(book: Book, spans: seq<Span>, terms: Terms, symbol: string, bars: seq<Bar>,
                     decisions: seq<Option<Signal>>)
    returns (spans': seq<Span>)
    requires 0 < |bars| == |decisions|
    requires Covered(book, spans, terms, symbol, bars, decisions, |bars|)
    ensures Covered(Finished(book, terms, symbol, bars), spans', terms, symbol, bars, decisions, |bars|)
    ensures Finished(book, terms, symbol, bars).position.None?
  {
    spans' := spans;
    if book.position.Some? {
      var h, last := book.position.value, |bars| - 1;
      hide StopAt, TargetAt, BuyPrice, SellPrice, Value;
      assert ExitExplained(EndOfBacktest, Span(h.entryBar, last), terms, bars, decisions);
      ClosingCovers(book, spans, terms, symbol, bars, decisions, |bars|, last, EndOfBacktest);
      spans' := spans + [Span(h.entryBar, last)];
    }
  }

  // ---------------------------------------------------------------- what follows for trades

  /** Every exit but the forced one is at least one bar after its entry. */
  lemma HeldAtLeastOneBar(s: Span, t: Trade, terms: Terms, bars: seq<Bar>, decisions: seq<Option<Signal>>)
    requires |bars| == |decisions| && Explains(s, t, terms, bars, decisions)
    ensures 0 <= t.barsHeld
    ensures t.exitReason != EndOfBacktest ==> 1 <= t.barsHeld
  {}

  /** Profit per unit of cost when a position sells at `level` times its cost. */
  function Margin(levelPct: real, slippage: real): real
  {
    (1.0 + levelPct / 100.0) * (1.0 - slippage) - 1.0
  }

  /** A take-profit exit earns at least the target net of slippage, and a
      stop-loss exit at most the stop net of slippage, both less one commission. */
  lemma ExitBoundsPnl(s: Span, t: Trade, terms: Terms, bars: seq<Bar>, decisions: seq<Option<Signal>>)
    requires |bars| == |decisions| && Explains(s, t, terms, bars, decisions)
    requires terms.slippage <= 1.0
    ensures var cost := Value(t.quantity, t.entryPrice);
      && (t.exitReason == TakeProfit ==>
            t.pnl >= cost * Margin(decisions[s.entry].value.takeProfitPct, terms.slippage) - terms.commission)
      && (t.exitReason == StopLoss ==>
            t.pnl <= cost * Margin(-decisions[s.entry].value.stopLossPct, terms.slippage) - terms.commission)
  {
    var signal, close := decisions[s.entry].value, bars[s.exit].close;
    if t.exitReason == TakeProfit {
      SoldAtLevel(t.quantity, t.entryPrice, TargetAt(terms, bars, decisions, s.entry), close, signal.takeProfitPct,
                  terms.slippage);
    } else if t.exitReason == StopLoss {
      StopIsNegativeTarget(t.entryPrice, signal.stopLossPct);
      SoldAtLevel(t.quantity, t.entryPrice, close, StopAt(terms, bars, decisions, s.entry), -signal.stopLossPct,
                  terms.slippage);
    }
  }

  lemma StopIsNegativeTarget(fill: real, pct: real)
    ensures StopLevel(fill, pct) == TargetLevel(fill, -pct)
  {}

  /** Selling `quantity` at `high` brings in at least what it would at `low`;
      at the level itself the margin is exact. */
  lemma SoldAtLevel(quantity: real, entry: real, low: real, high: real, pct: real, slippage: real)
    requires 0.0 < quantity && slippage <= 1.0 && low <= high
    ensures low == TargetLevel(entry, pct) ==>
      Value(quantity, SellPrice(high, slippage)) - Value(quantity, entry)
      >= Value(quantity, entry) * Margin(pct, slippage)
    ensures high == TargetLevel(entry, pct) ==>
      Value(quantity, SellPrice(low, slippage)) - Value(quantity, entry)
      <= Value(quantity, entry) * Margin(pct, slippage)
  {
    hide Value, SellPrice, TargetLevel, Margin;
    ProceedsMonotone(quantity, low, high, slippage);
    MarginAtLevel(quantity, entry, pct, slippage);
  }

  lemma ProceedsMonotone(quantity: real, low: real, high: real, slippage: real)
    requires 0.0 < quantity && slippage <= 1.0 && low <= high
    ensures Value(quantity, SellPrice(low, slippage)) <= Value(quantity, SellPrice(high, slippage))
  {
    TimesMonotone(low, high, 1.0 - slippage);
    TimesMonotone(SellPrice(low, slippage), SellPrice(high, slippage), quantity);
  }

  lemma MarginAtLevel(quantity: real, entry: real, pct: real, slippage: real)
    ensures Value(quantity, SellPrice(TargetLevel(entry, pct), slippage)) - Value(quantity, entry)
         == Value(quantity, entry) * Margin(pct, slippage)
  {
    var f, g := 1.0 + pct / 100.0, 1.0 - slippage;
    assert quantity * ((entry * f) * g) == (quantity * entry) * (f * g);
  }

  // ---------------------------------------------------------------- the engine

  lemma {:induction false} SignalsAreTargeted(strategy: Strategy, rows: seq<FeaturePoint>, environment: string)
    ensures forall s :: s in SignalsOf(strategy, rows, environment) ==> 0.0 < s.takeProfitPct
  {
    hide HasRequiredFeatures, DirectionOf, ConfidenceOf;
    if rows != [] {
      SignalsAreTargeted(strategy, rows[..|rows| - 1], environment);
    }
  }

  lemma DecisionsAreTargeted(strategy: Strategy, bars: seq<Bar>, featureSet: string, root: real -> real)
    ensures Targeted(Decisions(strategy, bars, featureSet, root))
  {
    hide SignalsOf, Points;
    forall i | 0 <= i < |bars| && WalkForward(strategy, bars, featureSet, root, i).Some?
      ensures 0.0 < WalkForward(strategy, bars, featureSet, root, i).value.takeProfitPct
    {
      var points := Points(BacktestEngine.Sorting.Sort(bars[..i + 1], BarNotAfter), featureSet, root);
      SignalsAreTargeted(strategy, BacktestEngine.Sorting.Sort(points, PointNotAfter), "backtest");
      var signals := Signals(strategy, points, "backtest");
      assert signals[|signals| - 1] in signals;
    }
  }

  /** The trades a finished backtest reports, bar by bar. */
  lemma ReportedTradesAreFirstCrossings(request: Request, strategy: Strategy, bars: seq<Bar>, root: real -> real)
    returns (spans: seq<Span>)
    requires request.Valid() && Priced(bars) && bars != []
    ensures var trades := ReportOf(request, strategy, bars, root).trades;
      var decisions := Decisions(strategy, bars, request.featureSet, root);
      && |spans| == |trades|
      && (forall k :: 0 <= k < |spans| ==> Explains(spans[k], trades[k], request.Terms(), bars, decisions))
      && (forall k, l :: 0 <= k < l < |spans| ==> spans[k].exit <= spans[l].entry)
  {
    hide After, Explains, Decisions;
    var decisions := Decisions(strategy, bars, request.featureSet, root);
    DecisionsAreTargeted(strategy, bars, request.featureSet, root);
    spans := RunCovers(request.Start(), request.Terms(), Upper(request.symbol), bars, decisions, |bars|);
    spans := FinishCovers(BookOf(request, strategy, bars, root), spans, request.Terms(), Upper(request.symbol), bars,
                          decisions);
  }

  // ---------------------------------------------------------------- entries

  /** Cash with which bar `n` is entered: the stop and target have been looked at. */
  function FreeCash(start: Book, terms: Terms, symbol: string, bars: seq<Bar>, decisions: seq<Option<Signal>>,
                    n: nat): real
    requires n < |bars| == |decisions| && terms.Valid() && Priced(bars)
  {
    Stopped(After(start, terms, symbol, bars, decisions, n), terms, symbol, bars[n], n).cash
  }

  /** Nothing is held when bar `n` is decided: nothing was, or its close touches a level. */
  predicate FlatAt(book: Book, terms: Terms, bars: seq<Bar>, decisions: seq<Option<Signal>>, n: nat)
  {
    book.position.Some? ==> !Untouched(book.position.value.entryBar, terms, bars, decisions, n)
  }

  /** A position is opened at a bar exactly when the bar is decided as a buy while
      nothing is held, and the stake is positive and paid for with its commission. */
  lemma EntersIff(start: Book, terms: Terms, symbol: string, bars: seq<Bar>, decisions: seq<Option<Signal>>, n: nat)
    requires n < |bars| == |decisions| && Priced(bars) && terms.Valid() && Targeted(decisions)
    requires start.position.None? && start.trades == []
    ensures var before, after := After(start, terms, symbol, bars, decisions, n),
                                 After(start, terms, symbol, bars, decisions, n + 1);
      var cash := FreeCash(start, terms, symbol, bars, decisions, n);
      (after.position.Some? && after.position.value.entryBar == n)
      <==> BuyAt(decisions, n) && FlatAt(before, terms, bars, decisions, n)
           && 0.0 < cash * (decisions[n].value.maxPositionPct / 100.0) <= cash - terms.commission
  {
    hide Step, StopAt, TargetAt;
    var before := After(start, terms, symbol, bars, decisions, n);
    var spans := RunCovers(start, terms, symbol, bars, decisions, n);
    var _ := StoppedCovers(before, spans, terms, symbol, bars, decisions, n);
    var stopped := Stopped(before, terms, symbol, bars[n], n);
    AfterNext(start, terms, symbol, bars, decisions, n);
    FlatIffStopped(before, spans, terms, symbol, bars, decisions, n);
    hide After, Covered, Stopped, FlatAt;
    StepEntersIff(before, stopped, terms, symbol, bars[n], n, decisions[n]);
  }

  lemma FlatIffStopped(book: Book, spans: seq<Span>, terms: Terms, symbol: string, bars: seq<Bar>,
                       decisions: seq<Option<Signal>>, n: nat)
    requires n < |bars| == |decisions| && Priced(bars) && terms.Valid() && Targeted(decisions)
    requires Covered(book, spans, terms, symbol, bars, decisions, n)
    ensures Stopped(book, terms, symbol, bars[n], n).position.None? <==> FlatAt(book, terms, bars, decisions, n)
    ensures var stopped := Stopped(book, terms, symbol, bars[n], n);
      stopped.position.Some? ==> stopped.position.value.entryBar < n && stopped.position.value.symbol == symbol
  {
    hide StopAt, TargetAt, BuyPrice, SellPrice, Value, Explains, Quiet;
    if book.position.Some? {
      TargetPositive(terms, bars, decisions, book.position.value.entryBar);
    }
  }

  lemma StepEntersIff(book: Book, stopped: Book, terms: Terms, symbol: string, bar: Bar, n: nat,
                      decision: Option<Signal>)
    requires terms.Valid() && 0.0 < bar.close && stopped == Stopped(book, terms, symbol, bar, n)
    requires stopped.position.Some? ==> stopped.position.value.entryBar < n && stopped.position.value.symbol == symbol
    ensures var after := Step(book, terms, symbol, bar, n, decision);
      (after.position.Some? && after.position.value.entryBar == n)
      <==> decision.Some? && decision.value.direction == BUY && stopped.position.None?
           && 0.0 < stopped.cash * (decision.value.maxPositionPct / 100.0) <= stopped.cash - terms.commission
  {
    hide Stopped;
    if decision.Some? {
      StakeSign(stopped.cash, decision.value.maxPositionPct, bar.close, terms);
    }
    hide BuyPrice, StopLevel, TargetLevel, TradeOf, SellPrice, Value;
  }

  lemma StakeSign(cash: real, pct: real, price: real, terms: Terms)
    requires terms.Valid() && 0.0 < price
    ensures 0.0 < BuyPrice(price, terms.slippage)
    ensures 0.0 < Percent(cash, pct) / BuyPrice(price, terms.slippage) <==> 0.0 < cash * (pct / 100.0)
  {
    BuyPricePositive(price, terms.slippage);
    var fill, stake := BuyPrice(price, terms.slippage), Percent(cash, pct);
    hide BuyPrice, Percent;
    DivideTimes(stake, fill);
    SameSign(stake / fill, fill, stake);
    assert stake == cash * (pct / 100.0) by {
      StakeIs(cash, pct);
    }
  }

  lemma StakeIs(cash: real, pct: real)
    ensures Percent(cash, pct) == cash * (pct / 100.0)
  {}

  // ---------------------------------------------------------------- what the strategies ask for

  /** Stop and target of every signal a backtest can act on. */
  ghost predicate OneAndTwoPercent(decisions: seq<Option<Signal>>)
  {
    forall i :: 0 <= i < |decisions| && decisions[i].Some? ==>
      decisions[i].value.stopLossPct == 1.0 && decisions[i].value.takeProfitPct == 2.0
  }

  lemma {:induction false} SignalsAskFor(strategy: Strategy, rows: seq<FeaturePoint>, environment: string)
    requires strategy != Momentum
    ensures forall s :: s in SignalsOf(strategy, rows, environment) ==> s.stopLossPct == 1.0 && s.takeProfitPct == 2.0
  {
    hide HasRequiredFeatures, DirectionOf, ConfidenceOf;
    if rows != [] {
      SignalsAskFor(strategy, rows[..|rows| - 1], environment);
    }
  }

  lemma DecisionsAskFor(strategy: Strategy, bars: seq<Bar>, featureSet: string, root: real -> real)
    requires strategy != Momentum
    ensures OneAndTwoPercent(Decisions(strategy, bars, featureSet, root))
  {
    hide SignalsOf, Points;
    forall i | 0 <= i < |bars| && WalkForward(strategy, bars, featureSet, root, i).Some?
      ensures var s := WalkForward(strategy, bars, featureSet, root, i).value;
        s.stopLossPct == 1.0 && s.takeProfitPct == 2.0
    {
      var points := Points(BacktestEngine.Sorting.Sort(bars[..i + 1], BarNotAfter), featureSet, root);
      SignalsAskFor(strategy, BacktestEngine.Sorting.Sort(points, PointNotAfter), "backtest");
    }
  }

  /** A take-profit makes at least two percent of its cost, a stop-loss loses at
      least one percent. */
  predicate PaysAsAsked(t: Trade)
  {
    var cost := Value(t.quantity, t.entryPrice);
    && (t.exitReason == TakeProfit ==> t.pnl >= 0.02 * cost)
    && (t.exitReason == StopLoss ==> t.pnl <= -0.01 * cost)
  }

  lemma ExitPays(s: Span, t: Trade, terms: Terms, bars: seq<Bar>, decisions: seq<Option<Signal>>)
    requires |bars| == |decisions| && Explains(s, t, terms, bars, decisions) && OneAndTwoPercent(decisions)
    requires terms.slippage == 0.0 && terms.commission == 0.0
    ensures PaysAsAsked(t)
  {
    ExitBoundsPnl(s, t, terms, bars, decisions);
    assert Margin(2.0, 0.0) == 0.02 && Margin(-1.0, 0.0) == -0.01;
    assert decisions[s.entry].value.stopLossPct == 1.0 && decisions[s.entry].value.takeProfitPct == 2.0;
    hide Value, ExitExplained, Margin, StopAt, TargetAt, Explains;
  }

  /** Without slippage and commission every exit a backtest reports pays what its
      strategy asked for. */
  lemma ReportedExitsPay(request: Request, strategy: Strategy, bars: seq<Bar>, root: real -> real)
    requires request.Valid() && Priced(bars) && bars != []
    requires LoadStrategy(request.strategyId) == Some(strategy)
    requires request.slippagePct == 0.0 && request.commission == 0.0
    ensures forall t :: t in ReportOf(request, strategy, bars, root).trades ==> PaysAsAsked(t)
  {
    assert strategy != Momentum && request.Terms() == Terms(0.0, 0.0);
    hide ReportOf, Decisions, PaysAsAsked, Explains, OneAndTwoPercent, LoadStrategy, Request.Terms, Priced;
    var decisions := Decisions(strategy, bars, request.featureSet, root);
    var trades, terms := ReportOf(request, strategy, bars, root).trades, request.Terms();
    var spans := ReportedTradesAreFirstCrossings(request, strategy, bars, root);
    DecisionsAskFor(strategy, bars, request.featureSet, root);
    forall k | 0 <= k < |trades|
      ensures PaysAsAsked(trades[k])
    {
      ExitPays(spans[k], trades[k], terms, bars, decisions);
    }
  }
}
