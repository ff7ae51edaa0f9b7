/** When a backtest can owe more than one commission. */
module Solvency {
  import opened Basics
  import opened Sums
  import opened Features
  import opened Strategies
  import opened BacktestPortfolio
  import opened BacktestEngine
  import opened BacktestLedger
  import Sorting
  import PercentB
  import WF = WalkForward

  /** The first entry can be paid for: the guard of `open_position` on the initial cash. */
  predicate CanEnter(request: Request, strategy: Strategy)
  {
    Percent(request.initialCash, ManifestOf(strategy).maxPositionPct) + request.commission <= request.initialCash
  }

  /** After every bar, and after the forced close. */
  ghost predicate SolventThroughout(request: Request, strategy: Strategy, bars: seq<Bar>, root: real -> real)
    requires request.Valid() && Priced(bars) && bars != []
  {
    && (forall n: nat | n <= |bars| :: Solvent(BookAfter(request, strategy, bars, root, n), request.commission))
    && Solvent(Finished(BookOf(request, strategy, bars, root), request.Terms(), Upper(request.symbol), bars),
               request.commission)
  }

  function BookAfter(request: Request, strategy: Strategy, bars: seq<Bar>, root: real -> real, n: nat): Book
    requires request.Valid() && Priced(bars) && n <= |bars|
  {
    After(request.Start(), request.Terms(), Upper(request.symbol), bars,
          Decisions(strategy, bars, request.featureSet, root), n)
  }

  /** Whatever bars the engine accepts for this request. */
  ghost predicate AlwaysSolvent(request: Request, root: real -> real)
    requires request.Valid()
  {
    forall strategy, bars | LoadStrategy(request.strategyId) == Some(strategy) && 5 <= |bars| && Priced(bars) ::
      SolventThroughout(request, strategy, bars, root)
  }

  // ---------------------------------------------------------------- slippage within the price

  lemma CheapSlippageIsSolvent(request: Request, strategy: Strategy, bars: seq<Bar>, root: real -> real)
    requires request.Valid() && Priced(bars) && bars != []
    requires request.slippagePct <= 100.0
    ensures SolventThroughout(request, strategy, bars, root)
  {
    hide After, Closed, Decisions, Solvent, Upper;
    var symbol, decisions := Upper(request.symbol), Decisions(strategy, bars, request.featureSet, root);
    forall n: nat | n <= |bars|
      ensures Solvent(BookAfter(request, strategy, bars, root, n), request.commission)
    {
      RunIsSolvent(request, symbol, bars, decisions, n);
    }
    var last := bars[|bars| - 1];
    RunIsSolvent(request, symbol, bars, decisions, |bars|);
    ClosedKeepsSolvency(BookOf(request, strategy, bars, root), request.Terms(), symbol, last.close, last.time,
                        EndOfBacktest, |bars| - 1);
  }

  // ---------------------------------------------------------------- a fee that stops every entry

  /** Every signal asks for its strategy's share of cash, and for its target. */
  predicate Sized(signal: Option<Signal>, strategy: Strategy)
  {
    signal.Some? ==>
      && signal.value.maxPositionPct == ManifestOf(strategy).maxPositionPct
      && signal.value.takeProfitPct == ManifestOf(strategy).takeProfitPct
  }

  lemma {:induction false} SignalsAreSized(strategy: Strategy, rows: seq<FeaturePoint>, environment: string)
    ensures forall s :: s in SignalsOf(strategy, rows, environment) ==> Sized(Some(s), strategy)
  {
    hide HasRequiredFeatures, DirectionOf, ConfidenceOf;
    if rows != [] {
      SignalsAreSized(strategy, rows[..|rows| - 1], environment);
    }
  }

  lemma DecisionIsSized(strategy: Strategy, bars: seq<Bar>, featureSet: string, root: real -> real, i: nat)
    requires i < |bars|
    ensures Sized(WalkForward(strategy, bars, featureSet, root, i), strategy)
  {
    hide SignalsOf, Points, Sorting.Sort, ManifestOf, Sized;
    var points := Points(Sorting.Sort(bars[..i + 1], BarNotAfter), featureSet, root);
    SignalsAreSized(strategy, Sorting.Sort(points, PointNotAfter), "backtest");
    NothingIsSized(strategy);
  }

  lemma NothingIsSized(strategy: Strategy)
    ensures Sized(None, strategy)
  {}

  ghost predicate Untouched(book: Book, cash: real)
  {
    book.cash == cash && book.position.None? && book.trades == []
  }

  lemma IdleStep(book: Book, terms: Terms, symbol: string, bar: Bar, i: nat, decision: Option<Signal>, cash: real)
    requires terms.Valid() && 0.0 < bar.close && Untouched(book, cash)
    requires decision.Some? && decision.value.direction == BUY ==>
      Percent(cash, decision.value.maxPositionPct) + terms.commission > cash
    ensures Untouched(Step(book, terms, symbol, bar, i, decision), cash)
  {
    hide Percent, BuyPrice, StopLevel, TargetLevel;
  }

  lemma {:induction false} NeverEnters(request: Request, strategy: Strategy, bars: seq<Bar>, root: real -> real, n: nat)
    requires request.Valid() && Priced(bars) && n <= |bars|
    requires !CanEnter(request, strategy)
    ensures Untouched(BookAfter(request, strategy, bars, root, n), request.initialCash)
  {
    hide Step, Percent, Sized, ManifestOf, WalkForward;
    if n > 0 {
      NeverEnters(request, strategy, bars, root, n - 1);
      DecisionIsSized(strategy, bars, request.featureSet, root, n - 1);
      IdleUnaffordable(request, strategy, BookAfter(request, strategy, bars, root, n - 1), bars[n - 1], n - 1,
                       WalkForward(strategy, bars, request.featureSet, root, n - 1));
    }
  }

  lemma IdleUnaffordable(request: Request, strategy: Strategy, book: Book, bar: Bar, i: nat, decision: Option<Signal>)
    requires request.Valid() && 0.0 < bar.close && !CanEnter(request, strategy)
    requires Untouched(book, request.initialCash) && Sized(decision, strategy)
    ensures Untouched(Step(book, request.Terms(), Upper(request.symbol), bar, i, decision), request.initialCash)
  {
    hide Step, Percent, ManifestOf, Upper;
    IdleStep(book, request.Terms(), Upper(request.symbol), bar, i, decision, request.initialCash);
  }

  lemma PriceyFeeIsSolvent(request: Request, strategy: Strategy, bars: seq<Bar>, root: real -> real)
    requires request.Valid() && Priced(bars) && bars != [] && !CanEnter(request, strategy)
    ensures SolventThroughout(request, strategy, bars, root)
  {
    hide After, CanEnter, Decisions, Upper;
    forall n: nat | n <= |bars|
      ensures Solvent(BookAfter(request, strategy, bars, root, n), request.commission)
    {
      NeverEnters(request, strategy, bars, root, n);
    }
    NeverEnters(request, strategy, bars, root, |bars|);
  }

  // ---------------------------------------------------------------- bars that make a strategy buy

  /** Five rising closes, or nineteen equal ones and a fall. */
  function Opening(strategy: Strategy): seq<real>
  {
    if strategy == TrendFollowing then [1.0, 2.0, 3.0, 4.0, 5.0] else Repeated(19) + [1.0]
  }

  function Repeated(n: nat): (r: seq<real>)
    ensures |r| == n
    ensures forall i :: 0 <= i < n ==> r[i] == 21.0
  {
    seq(n, i => 21.0)
  }

  /** A bar a minute, in time order. */
  function BarsOf(closes: seq<real>): (r: seq<Bar>)
    ensures |r| == |closes|
    ensures forall i :: 0 <= i < |r| ==> r[i] == Bar(i, "X", "1Min", closes[i])
    ensures Sorting.Ascending(r, BarNotAfter)
  {
    seq(|closes|, i requires 0 <= i < |closes| => Bar(i, "X", "1Min", closes[i]))
  }

  lemma TrendBuys(root: real -> real)
    ensures var v := ValuesAt(Opening(TrendFollowing), 4, root);
      HasRequiredFeatures(TrendFollowing, v) && TrendDirection(v) == BUY
  {
    hide Variance, Rsi, BbUpper, BbLower, BbPctB, Macd, MacdSignal, MacdHist;
    var c := Opening(TrendFollowing);
    assert Window(c, 4, 3) == [3.0, 4.0, 5.0];
    assert Window(c, 4, 5) == c;
    SumsOfRising();
    ReturnsOfRising();
  }

  lemma SumsOfRising()
    ensures Mean([3.0, 4.0, 5.0]) == 4.0
    ensures Mean([1.0, 2.0, 3.0, 4.0, 5.0]) == 3.0
  {
    SumOfThree(3.0, 4.0, 5.0);
    SumOfFive(1.0, 2.0, 3.0, 4.0, 5.0);
  }

  lemma SumOfThree(a: real, b: real, c: real)
    ensures Sum([a, b, c]) == a + b + c
  {
    assert [a, b, c][..2] == [a, b] && [a, b][..1] == [a] && [a][..0] == [];
    assert Sum([a]) == a;
    assert Sum([a, b]) == a + b;
  }

  lemma SumOfFive(a: real, b: real, c: real, d: real, e: real)
    ensures Sum([a, b, c, d, e]) == a + b + c + d + e
  {
    SumOfThree(a, b, c);
    assert [a, b, c, d, e][..4] == [a, b, c, d] && [a, b, c, d][..3] == [a, b, c];
  }

  lemma ReturnsOfRising()
    ensures |Returns([1.0, 2.0, 3.0, 4.0, 5.0])| >= 2
  {
    var w := [1.0, 2.0, 3.0, 4.0, 5.0];
    assert w[..4][..3] == w[..3];
    assert |Returns(w)| == |Returns(w[..4])| + 1;
    assert |Returns(w[..4])| == |Returns(w[..4][..3])| + 1;
  }

  /** Nineteen equal closes and a fall: the window of mean reversion. */
  lemma FallenWindow()
    ensures var w := Opening(MeanReversion);
      |w| == 20 && Mean(w) == 20.0 && Variance(w) == 19.0
  {
    var front, w := Repeated(19), Opening(MeanReversion);
    PercentB.TailSum(front, 19, 21.0);
    assert front[..0] == [];
    SumSnoc(front, 1.0);
    var squares := Squares(front, 20.0);
    forall i | 0 <= i < 19
      ensures squares[i] == 1.0
    {
      assert squares[i] == Square(front[i] - 20.0);
    }
    PercentB.TailSum(squares, 19, 1.0);
    assert squares[..0] == [];
    SquaresSnoc(front, 1.0, 20.0);
  }

  lemma ReversionBuys(root: real -> real)
    requires IsSquareRoot(root)
    ensures var v := ValuesAt(Opening(MeanReversion), 19, root);
      HasRequiredFeatures(MeanReversion, v) && ReversionDirection(v) == BUY
  {
    hide IsSquareRoot, Rsi, BbPctB, Mean, Variance, Opening, Return1, Volatility, Macd, MacdSignal, MacdHist, BbUpper,
      BbLower;
    FallenRsi();
    FallenPctB(root);
    PercentB.RsiAndPctBDecide(Opening(MeanReversion), 19, root);
  }

  lemma FallenRsi()
    ensures |Opening(MeanReversion)| == 20
    ensures Rsi(Opening(MeanReversion), 19, 14) == Some(0.0)
  {
    hide RsiOf, MeanOrZero;
    var w := Window(Opening(MeanReversion), 19, 14);
    FallenMoves(w);
    NoGainNoStrength(MeanOrZero(Losses(w)));
  }

  lemma FallenMoves(w: seq<real>)
    requires |w| == 14 && w[13] == 1.0 && forall i :: 0 <= i < 13 ==> w[i] == 21.0
    ensures MeanOrZero(Gains(w)) == 0.0 < MeanOrZero(Losses(w))
  {
    var gains, losses := Gains(w), Losses(w);
    hide Sum, Gains, Losses;
    AllZero(gains);
    SumNonNegative(losses);
    assert losses[12] == 20.0;
    PositiveQuotient(Sum(losses), 13.0);
  }

  lemma AllZero(s: seq<real>)
    requires s != [] && forall i :: 0 <= i < |s| ==> s[i] == 0.0
    ensures Mean(s) == 0.0
  {
    MeanBetween(s, 0.0, 0.0);
  }

  lemma NoGainNoStrength(loss: real)
    requires 0.0 < loss
    ensures RsiOf(0.0, loss) == 0.0
  {
    DivideUnique(0.0, loss, 0.0);
  }

  lemma FallenPctB(root: real -> real)
    requires IsSquareRoot(root)
    ensures |Opening(MeanReversion)| == 20
    ensures var b := BbPctB(Opening(MeanReversion), 19, 20, 2.0, root); b.Some? && b.value < BB_LOWER
  {
    var closes := Opening(MeanReversion);
    FallenWindow();
    assert Window(closes, 19, 20) == closes;
    var s := root(19.0);
    assert 0.0 <= s && s * s == 19.0;
    hide Mean, Variance, Opening, IsSquareRoot;
    var b := BbPctB(closes, 19, 20, 2.0, root);
    assert b == PctB(1.0, 20.0 + 2.0 * s, 20.0 - 2.0 * s);
    FarBelow(s);
  }

  lemma FarBelow(s: real)
    requires 0.0 <= s && s * s == 19.0
    ensures var b := PctB(1.0, 20.0 + 2.0 * s, 20.0 - 2.0 * s); b.Some? && b.value < BB_LOWER
  {
    assert 0.0 < s < 5.0;
    var q := (1.0 - (20.0 - 2.0 * s)) / (4.0 * s);
    DivideTimes(1.0 - (20.0 - 2.0 * s), 4.0 * s);
    assert (20.0 + 2.0 * s) - (20.0 - 2.0 * s) == 4.0 * s;
    SameSign(q, 4.0 * s, 2.0 * s - 19.0);
  }

  // ---------------------------------------------------------------- a run that ends in debt

  /** On bars in time order the newest bar decides, once it carries the features. */
  lemma NewestDecides(strategy: Strategy, bars: seq<Bar>, featureSet: string, root: real -> real, i: nat)
    requires i < |bars| && Sorting.Ascending(bars, BarNotAfter)
    ensures var decision, v := WalkForward(strategy, bars, featureSet, root, i), ValuesAt(Closes(bars), i, root);
      && (i + 1 < ManifestOf(strategy).minFeaturePoints ==> decision.None?)
      && (ManifestOf(strategy).minFeaturePoints <= i + 1 && HasRequiredFeatures(strategy, v) ==>
            decision.Some? && decision.value.direction == DirectionOf(strategy, v))
  {
    hide ValuesAt, HasRequiredFeatures, DirectionOf, ConfidenceOf, Sorting.Ascending, BacktestEngine.WalkForward;
    WF.WalkForwardIsSinglePass(strategy, bars, featureSet, root, i);
  }

  function EntryBar(strategy: Strategy): nat { if strategy == TrendFollowing then 4 else 19 }

  /** No decision before the entry bar, and a buy there. */
  lemma OpeningBuys(strategy: Strategy, featureSet: string, root: real -> real, i: nat)
    requires strategy != Momentum && IsSquareRoot(root) && i <= EntryBar(strategy)
    ensures |Opening(strategy)| == EntryBar(strategy) + 1
    ensures var decision := WalkForward(strategy, BarsOf(Opening(strategy)), featureSet, root, i);
      if i < EntryBar(strategy) then decision.None? else decision.Some? && decision.value.direction == BUY
  {
    hide ValuesAt, HasRequiredFeatures, TrendDirection, ReversionDirection, BacktestEngine.WalkForward, IsSquareRoot;
    assert Closes(BarsOf(Opening(strategy))) == Opening(strategy);
    NewestDecides(strategy, BarsOf(Opening(strategy)), featureSet, root, i);
    if strategy == TrendFollowing {
      TrendBuys(root);
    } else {
      ReversionBuys(root);
    }
  }

  lemma {:induction false} IdleUntilEntry(request: Request, strategy: Strategy, root: real -> real, n: nat)
    requires request.Valid() && strategy != Momentum && IsSquareRoot(root) && n <= EntryBar(strategy)
    ensures |Opening(strategy)| == EntryBar(strategy) + 1 && Priced(BarsOf(Opening(strategy)))
    ensures Untouched(BookAfter(request, strategy, BarsOf(Opening(strategy)), root, n), request.initialCash)
  {
    hide Step, IsSquareRoot, BacktestEngine.WalkForward;
    var bars := BarsOf(Opening(strategy));
    OpeningBuys(strategy, request.featureSet, root, EntryBar(strategy));
    if n > 0 {
      IdleUntilEntry(request, strategy, root, n - 1);
      OpeningBuys(strategy, request.featureSet, root, n - 1);
      IdleStep(BookAfter(request, strategy, bars, root, n - 1), request.Terms(), Upper(request.symbol), bars[n - 1],
               n - 1, WalkForward(strategy, bars, request.featureSet, root, n - 1), request.initialCash);
    }
  }

  /** The entry: a positive quantity with its target above zero. */
  lemma EntryStep(book: Book, terms: Terms, symbol: string, bar: Bar, i: nat, decision: Option<Signal>, cash: real)
    requires terms.Valid() && 0.0 < bar.close && Untouched(book, cash) && 0.0 < cash
    requires decision.Some? && decision.value.direction == BUY
    requires 0.0 < decision.value.maxPositionPct && 0.0 < decision.value.takeProfitPct
    requires Percent(cash, decision.value.maxPositionPct) + terms.commission <= cash
    ensures var b := Step(book, terms, symbol, bar, i, decision);
      && Holds(b, symbol)
      && 0.0 < b.position.value.quantity
      && 0.0 < b.position.value.takeProfit
      && b.cash == cash - Percent(cash, decision.value.maxPositionPct) - terms.commission
  {
    var fill, notional := BuyPrice(bar.close, terms.slippage), Percent(cash, decision.value.maxPositionPct);
    BuyPricePositive(bar.close, terms.slippage);
    PositiveProduct(cash, decision.value.maxPositionPct / 100.0);
    PositiveProduct(fill, 1.0 + decision.value.takeProfitPct / 100.0);
    assert 0.0 < notional && 0.0 < TargetLevel(fill, decision.value.takeProfitPct);
    PositiveQuotient(notional, fill);
    hide BuyPrice, Percent, StopLevel, TargetLevel;
  }

  lemma DebtBuysNothing(book: Book, terms: Terms, symbol: string, price: real, sizing: Sizing, time: int, bar: nat)
    requires terms.Valid() && 0.0 < price && book.cash < 0.0 && 0.0 < sizing.maxPositionPct
    ensures Opened(book, terms, symbol, price, sizing, time, bar) == book
  {
    BuyPricePositive(price, terms.slippage);
    var fill, notional := BuyPrice(price, terms.slippage), Percent(book.cash, sizing.maxPositionPct);
    PositiveProduct(-book.cash, sizing.maxPositionPct / 100.0);
    PositiveQuotient(-notional, fill);
    assert (-notional) / fill == -(notional / fill);
    hide BuyPrice, Percent, StopLevel, TargetLevel;
  }

  /** What the forced sale at `price` costs exceeds the cash that is left. */
  predicate Ruinous(holding: Holding, cash: real, slippage: real, price: real)
  {
    holding.takeProfit <= price && cash < -Value(holding.quantity, SellPrice(price, slippage))
  }

  lemma RuinousPrice(holding: Holding, cash: real, slippage: real) returns (price: real)
    requires 0.0 < holding.quantity && 0.0 < holding.takeProfit && 0.0 <= cash && 1.0 < slippage
    ensures Ruinous(holding, cash, slippage, price) && 0.0 < price
  {
    var loss := holding.quantity * (slippage - 1.0);
    PositiveProduct(holding.quantity, slippage - 1.0);
    price := holding.takeProfit + cash / loss;
    DivideTimes(cash, loss);
    NonNegativeQuotient(cash, loss);
    PositiveProduct(holding.takeProfit, loss);
    assert -Value(holding.quantity, SellPrice(price, slippage)) == price * loss;
    assert price * loss == holding.takeProfit * loss + cash;
  }

  lemma NonNegativeQuotient(a: real, b: real)
    requires 0.0 <= a && 0.0 < b
    ensures 0.0 <= a / b
  {}

  /** Reaching the target at such a price leaves a debt that no decision repairs. */
  lemma TargetRuins(book: Book, terms: Terms, symbol: string, bar: Bar, i: nat, decision: Option<Signal>,
                    strategy: Strategy)
    requires terms.Valid() && 0.0 < bar.close && Holds(book, symbol)
    requires 0.0 < book.position.value.takeProfit
    requires Ruinous(book.position.value, book.cash, terms.slippage, bar.close)
    requires Sized(decision, strategy)
    ensures Step(book, terms, symbol, bar, i, decision).cash < -terms.commission
  {
    hide Value, SellPrice, TradeOf, Percent, BuyPrice, StopLevel, TargetLevel, Opened;
    var stopped := Stopped(book, terms, symbol, bar, i);
    assert stopped.cash < -terms.commission && stopped.position.None?;
    if decision.Some? && decision.value.direction == BUY {
      DebtBuysNothing(stopped, terms, symbol, bar.close, SizingOf(decision.value), bar.time, i);
    }
  }

  /** The opening bars leave a position open. */
  lemma OpeningEnters(request: Request, strategy: Strategy, root: real -> real)
    requires request.Valid() && strategy != Momentum && IsSquareRoot(root) && CanEnter(request, strategy)
    ensures Priced(BarsOf(Opening(strategy)))
    ensures var book := BookOf(request, strategy, BarsOf(Opening(strategy)), root);
      && Holds(book, Upper(request.symbol))
      && 0.0 < book.position.value.quantity
      && 0.0 < book.position.value.takeProfit
      && 0.0 <= book.cash
  {
    hide Step, IsSquareRoot, BacktestEngine.WalkForward, Percent, Upper;
    var bars, m := BarsOf(Opening(strategy)), EntryBar(strategy);
    IdleUntilEntry(request, strategy, root, m);
    OpeningBuys(strategy, request.featureSet, root, m);
    DecisionIsSized(strategy, bars, request.featureSet, root, m);
    EntryStep(BookAfter(request, strategy, bars, root, m), request.Terms(), Upper(request.symbol), bars[m], m,
              WalkForward(strategy, bars, request.featureSet, root, m), request.initialCash);
  }

  /** With more than 100 percent slippage and an entry that can be paid for, bars
      in time order drive the engine itself into debt. */
  lemma ExcessiveSlippageBankrupts(request: Request, strategy: Strategy, root: real -> real) returns (bars: seq<Bar>)
    requires request.Valid() && IsSquareRoot(root)
    requires LoadStrategy(request.strategyId) == Some(strategy)
    requires 100.0 < request.slippagePct && CanEnter(request, strategy)
    ensures 5 <= |bars| && Priced(bars) && Sorting.Ascending(bars, BarNotAfter)
    ensures BookOf(request, strategy, bars, root).cash < -request.commission
  {
    hide Step, IsSquareRoot, BacktestEngine.WalkForward, CanEnter, Upper, Opening, Sized, Ruinous;
    var opening := BarsOf(Opening(strategy));
    OpeningEnters(request, strategy, root);
    var entered := BookOf(request, strategy, opening, root);
    var price := RuinousPrice(entered.position.value, entered.cash, request.slippagePct / 100.0);
    bars := BarsOf(Opening(strategy) + [price]);
    var n := |opening|;
    assert bars == opening + [bars[n]];
    WF.EngineIgnoresLaterBars(request, strategy, opening, [bars[n]], root);
    DecisionIsSized(strategy, bars, request.featureSet, root, n);
    OpeningBuys(strategy, request.featureSet, root, 0);
    TargetRuins(entered, request.Terms(), Upper(request.symbol), bars[n], n,
                WalkForward(strategy, bars, request.featureSet, root, n), strategy);
  }

  // ---------------------------------------------------------------- the exact condition

  /** A request can never end up owing more than one commission exactly when the
      engine refuses its strategy, slippage is at most 100 percent, or the first
      entry cannot be paid for. */
  lemma SolventIff(request: Request, root: real -> real)
    requires request.Valid() && IsSquareRoot(root)
    ensures AlwaysSolvent(request, root)
       <==> LoadStrategy(request.strategyId).None?
            || request.slippagePct <= 100.0
            || !CanEnter(request, LoadStrategy(request.strategyId).value)
  {
    hide SolventThroughout, CanEnter, LoadStrategy, IsSquareRoot;
    if LoadStrategy(request.strategyId).Some? {
      var strategy := LoadStrategy(request.strategyId).value;
      if 100.0 < request.slippagePct && CanEnter(request, strategy) {
        var bars := ExcessiveSlippageBankrupts(request, strategy, root);
        DebtIsInsolvent(request, strategy, bars, root);
      } else {
        forall bars | 5 <= |bars| && Priced(bars)
          ensures SolventThroughout(request, strategy, bars, root)
        {
          if request.slippagePct <= 100.0 {
            CheapSlippageIsSolvent(request, strategy, bars, root);
          } else {
            PriceyFeeIsSolvent(request, strategy, bars, root);
          }
        }
      }
    }
  }

  lemma DebtIsInsolvent(request: Request, strategy: Strategy, bars: seq<Bar>, root: real -> real)
    requires request.Valid() && Priced(bars) && bars != []
    requires BookOf(request, strategy, bars, root).cash < -request.commission
    ensures !SolventThroughout(request, strategy, bars, root)
  {
    assert BookAfter(request, strategy, bars, root, |bars|) == BookOf(request, strategy, bars, root);
    hide After, Decisions;
  }

  /** Both strategies stake two percent, so beyond 100 percent slippage only a fee
      above 98 percent of the initial cash keeps a request solvent. */
  lemma CanEnterIff(request: Request, strategy: Strategy)
    ensures CanEnter(request, strategy) <==> request.commission <= 0.98 * request.initialCash
  {}
}
