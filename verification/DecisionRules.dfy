/** When each strategy buys and sells, said about the closes themselves. */
module DecisionRules {
  import opened Basics
  import opened Sums
  import opened Features
  import opened Strategies
  import MacdSign
  import PercentB

  // ---------------------------------------------------------------- momentum

  /** How far the 12-average of the closes up to `index` lies above their 26-average. */
  function Spread(closes: seq<real>, index: nat): real
    requires 25 <= index < |closes|
  {
    EmaOf(closes[..index + 1], 12) - EmaOf(closes[..index + 1], 26)
  }

  function SumOfSpreads(closes: seq<real>, from: nat, count: nat): real
    requires 25 <= from && from + count <= |closes|
  {
    if count == 0 then 0.0 else SumOfSpreads(closes, from, count - 1) + Spread(closes, from + count - 1)
  }

  ghost predicate Positive(closes: seq<real>)
  {
    forall i :: 0 <= i < |closes| ==> 0.0 < closes[i]
  }

  /** The spread is above the mean of the last nine. */
  predicate Widening(closes: seq<real>, index: nat)
    requires 34 <= index < |closes|
  {
    9.0 * Spread(closes, index) > SumOfSpreads(closes, index - 8, 9)
  }

  predicate Narrowing(closes: seq<real>, index: nat)
    requires 34 <= index < |closes|
  {
    9.0 * Spread(closes, index) < SumOfSpreads(closes, index - 8, 9)
  }

  lemma MacdIsSpread(closes: seq<real>, index: nat)
    requires 25 <= index < |closes|
    ensures Macd(closes, index) == Some(Spread(closes, index))
  {
    hide EmaOf;
  }

  lemma {:induction false} SpreadsSum(closes: seq<real>, index: nat, n: nat)
    requires 34 <= index < |closes| && n <= 9
    ensures Sum(MacdSeries(closes, index)[..n]) == SumOfSpreads(closes, index - 8, n)
  {
    hide Macd, Spread, MacdSeries;
    var series := MacdSeries(closes, index);
    if n > 0 {
      SpreadsSum(closes, index, n - 1);
      MacdIsSpread(closes, index - 8 + (n - 1));
      assert Macd(closes, index - 8 + (n - 1)) == Some(series[n - 1]);
      assert series[..n] == series[..n - 1] + [series[n - 1]];
      SumSnoc(series[..n - 1], series[n - 1]);
    }
  }

  lemma HistIsWidening(closes: seq<real>, index: nat)
    requires 34 <= index < |closes|
    ensures MacdHist(closes, index).Some?
    ensures MacdHist(closes, index).value > 0.0 <==> Widening(closes, index)
    ensures MacdHist(closes, index).value < 0.0 <==> Narrowing(closes, index)
  {
    hide Macd, Spread, SumOfSpreads, MacdSeries, Sum;
    MacdIsSpread(closes, index);
    SpreadsSum(closes, index, 9);
    var series := MacdSeries(closes, index);
    assert series[..9] == series;
    DivideTimes(Sum(series), 9.0);
  }

  lemma LastMove(closes: seq<real>, index: nat)
    requires 0 < index < |closes| && Positive(closes)
    ensures Return1(closes, index).Some?
    ensures Return1(closes, index).value > 0.0 <==> closes[index] > closes[index - 1]
    ensures Return1(closes, index).value < 0.0 <==> closes[index] < closes[index - 1]
  {
    var before, now := closes[index - 1], closes[index];
    DivideTimes(now, before);
    SameSign(now / before - 1.0, before, now - before);
  }

  /** On the engine's features of positive closes momentum has an opinion from bar
      34 on. It buys exactly when the 12-average lies above the 26-average, their
      spread is above the mean of its last nine values, the last close rose, and
      RSI lies in [45, 72]; selling is the dual, with RSI in [28, 55]. */
  lemma MomentumDecidesIff(closes: seq<real>, index: nat, root: real -> real)
    requires index < |closes| && Positive(closes)
    ensures var v := ValuesAt(closes, index, root);
      && (HasRequiredFeatures(Momentum, v) <==> 34 <= index)
      && (34 <= index ==>
            var rsi := RsiOfWindow(Window(closes, index, 14));
            && (DirectionOf(Momentum, v) == BUY <==>
                  EmaOf(closes[..index + 1], 12) > EmaOf(closes[..index + 1], 26) && Widening(closes, index)
                  && closes[index] > closes[index - 1] && 45.0 <= rsi <= 72.0)
            && (DirectionOf(Momentum, v) == SELL <==>
                  EmaOf(closes[..index + 1], 12) < EmaOf(closes[..index + 1], 26) && Narrowing(closes, index)
                  && closes[index] < closes[index - 1] && 28.0 <= rsi <= 55.0))
  {
    hide Sma, Volatility, BbUpper, BbLower, BbPctB, EmaOf, RsiOfWindow, Widening, Narrowing, MacdSeries, Mean, Window;
    if 34 <= index {
      HistIsWidening(closes, index);
      MacdIsSpread(closes, index);
      LastMove(closes, index);
      hide Macd, MacdHist, Return1;
    }
  }

  /** Momentum never sells a series that has only risen, nor buys one that has only fallen. */
  lemma NeverAgainstTheTrend(closes: seq<real>, index: nat, root: real -> real)
    requires 34 <= index < |closes| && Positive(closes)
    ensures HasRequiredFeatures(Momentum, ValuesAt(closes, index, root))
    ensures MacdSign.Rising(closes[..index + 1]) ==> DirectionOf(Momentum, ValuesAt(closes, index, root)) != SELL
    ensures MacdSign.Falling(closes[..index + 1]) ==> DirectionOf(Momentum, ValuesAt(closes, index, root)) != BUY
  {
    hide ValuesAt, HasRequiredFeatures, DirectionOf, EmaOf, Macd, Widening, Narrowing, RsiOfWindow;
    MomentumDecidesIff(closes, index, root);
    MacdIsSpread(closes, index);
    if MacdSign.Rising(closes[..index + 1]) {
      MacdSign.MacdOfRising(closes, index);
    }
    if MacdSign.Falling(closes[..index + 1]) {
      MacdSign.MacdOfFalling(closes, index);
    }
  }

  // ---------------------------------------------------------------- a series on which it buys

  function Flat(n: nat): (r: seq<real>)
    ensures |r| == n
    ensures forall i :: 0 <= i < n ==> r[i] == 100.0
  {
    seq(n, i => 100.0)
  }

  /** Thirty-three equal closes, a dip, and a recovery beyond them. */
  function Recovery(): seq<real> { Flat(33) + [99.0, 101.0] }

  lemma FlatAverage(n: nat, period: nat)
    requires 0 < period <= n
    ensures EmaOf(Flat(n), period) == 100.0
  {
    MacdSign.EmaBetween(Flat(n), period, 100.0, 100.0);
  }

  /** Both averages after the dip and after the recovery. */
  lemma RecoveryAverages(period: nat, k: real)
    requires 0 < period <= 33 && k == Smoothing(period)
    ensures |Recovery()| == 35
    ensures forall i :: period <= i <= 33 ==> EmaOf(Recovery()[..i], period) == 100.0
    ensures EmaOf(Recovery()[..34], period) == 100.0 - k
    ensures EmaOf(Recovery()[..35], period) == 100.0 + k * k
  {
    hide Smoothing, Mean;
    var c := Recovery();
    forall i | period <= i <= 33
      ensures EmaOf(c[..i], period) == 100.0
    {
      assert c[..i] == Flat(i);
      FlatAverage(i, period);
    }
    assert c[..34][..33] == c[..33] && c[..35][..34] == c[..34];
    StepFromFlat(k);
  }

  lemma StepFromFlat(k: real)
    ensures EmaStep(100.0, 99.0, k) == 100.0 - k
    ensures EmaStep(100.0 - k, 101.0, k) == 100.0 + k * k
  {}

  lemma RecoverySpreads()
    ensures |Recovery()| == 35
    ensures forall i :: 25 <= i <= 32 ==> Spread(Recovery(), i) == 0.0
    ensures Spread(Recovery(), 33) == 2.0 / 27.0 - 2.0 / 13.0
    ensures Spread(Recovery(), 34) == 4.0 / 169.0 - 4.0 / 729.0
  {
    RecoveryAverages(12, Smoothing(12));
    RecoveryAverages(26, Smoothing(26));
    assert Smoothing(12) == 2.0 / 13.0 && Smoothing(26) == 2.0 / 27.0;
    hide Recovery, EmaOf, Smoothing;
  }

  lemma RecoveryWidens()
    ensures |Recovery()| == 35
    ensures EmaOf(Recovery()[..35], 12) > EmaOf(Recovery()[..35], 26) && Widening(Recovery(), 34)
  {
    RecoverySpreads();
    hide Recovery, EmaOf;
    var c := Recovery();
    assert EmaOf(c[..35], 12) > EmaOf(c[..35], 26);
    hide Spread;
    FirstSpreads(c, 7);
    assert SumOfSpreads(c, 26, 8) == Spread(c, 33);
    assert SumOfSpreads(c, 26, 9) == Spread(c, 33) + Spread(c, 34);
  }

  lemma {:induction false} FirstSpreads(c: seq<real>, n: nat)
    requires |c| == 35 && n <= 7 && forall i :: 25 <= i <= 32 ==> Spread(c, i) == 0.0
    ensures SumOfSpreads(c, 26, n) == 0.0
  {
    hide Spread;
    if n > 0 {
      FirstSpreads(c, n - 1);
    }
  }

  lemma RecoveryStrength()
    ensures |Recovery()| == 35
    ensures 45.0 <= RsiOfWindow(Window(Recovery(), 34, 14)) <= 72.0
  {
    hide RsiOf, MeanOrZero, Gains, Losses, Recovery, Window;
    RecoveryWindow();
    var w := Window(Recovery(), 34, 14);
    RecoveryMoves(w);
    Strength(MeanOrZero(Gains(w)), MeanOrZero(Losses(w)));
  }

  lemma RecoveryWindow()
    ensures |Recovery()| == 35
    ensures var w := Window(Recovery(), 34, 14);
      w[12] == 99.0 && w[13] == 101.0 && forall i :: 0 <= i < 12 ==> w[i] == 100.0
  {}

  lemma RecoveryMoves(w: seq<real>)
    requires |w| == 14 && w[12] == 99.0 && w[13] == 101.0 && forall i :: 0 <= i < 12 ==> w[i] == 100.0
    ensures MeanOrZero(Gains(w)) == 2.0 / 13.0 && MeanOrZero(Losses(w)) == 1.0 / 13.0
  {
    hide Sum;
    OneMove(Gains(w), 12, 2.0);
    OneMove(Losses(w), 11, 1.0);
  }

  lemma OneMove(s: seq<real>, at: nat, x: real)
    requires at < |s| && forall i :: 0 <= i < |s| ==> s[i] == if i == at then x else 0.0
    ensures Sum(s) == x
  {
    AllButOne(s, at, x);
  }

  lemma {:induction false} AllButOne(s: seq<real>, at: nat, x: real)
    requires forall i :: 0 <= i < |s| ==> s[i] == if i == at then x else 0.0
    ensures Sum(s) == if at < |s| then x else 0.0
  {
    if s != [] {
      AllButOne(s[..|s| - 1], at, x);
    }
  }

  lemma Strength(gain: real, loss: real)
    requires gain == 2.0 / 13.0 && loss == 1.0 / 13.0
    ensures 45.0 <= RsiOf(gain, loss) <= 72.0
  {
    DivideUnique(gain, loss, 2.0);
  }

  /** A dip and a recovery make momentum buy, at the first bar at which it can. */
  lemma RecoveryIsBought(root: real -> real)
    ensures |Recovery()| == 35
    ensures HasRequiredFeatures(Momentum, ValuesAt(Recovery(), 34, root))
    ensures DirectionOf(Momentum, ValuesAt(Recovery(), 34, root)) == BUY
  {
    hide ValuesAt, HasRequiredFeatures, DirectionOf, EmaOf, Widening, RsiOfWindow;
    var c := Recovery();
    assert Positive(c) && c[34] > c[33];
    assert c[..35] == c;
    RecoveryWidens();
    RecoveryStrength();
    MomentumDecidesIff(c, 34, root);
  }

  // ---------------------------------------------------------------- trend following

  /** Sum of the `n` closes that end at `index`. */
  function Last(closes: seq<real>, index: nat, n: nat): real
    requires n <= index + 1 <= |closes|
  {
    if n == 0 then 0.0 else Last(closes, index, n - 1) + closes[index + 1 - n]
  }

  lemma {:induction false} WindowSum(closes: seq<real>, index: nat, n: nat)
    requires n <= index + 1 <= |closes|
    ensures Sum(Window(closes, index, n)) == Last(closes, index, n)
  {
    if n > 0 {
      WindowSum(closes, index, n - 1);
      assert Window(closes, index, n) == [closes[index + 1 - n]] + Window(closes, index, n - 1);
      SumCons(closes[index + 1 - n], Window(closes, index, n - 1));
    }
  }

  lemma {:induction false} SumCons(x: real, s: seq<real>)
    ensures Sum([x] + s) == x + Sum(s)
  {
    if s == [] {
      assert [x] + s == [] + [x];
      SumSnoc([], x);
    } else {
      assert [x] + s == ([x] + s[..|s| - 1]) + [s[|s| - 1]];
      SumCons(x, s[..|s| - 1]);
      SumSnoc([x] + s[..|s| - 1], s[|s| - 1]);
    }
  }

  lemma SmaMeans(closes: seq<real>, index: nat, n: nat)
    requires 0 < n <= index + 1 <= |closes|
    ensures Sma(closes, index, n).Some?
    ensures Sma(closes, index, n).value * n as real == Last(closes, index, n)
  {
    hide Window, Sum, Last;
    WindowSum(closes, index, n);
    DivideTimes(Sum(Window(closes, index, n)), n as real);
  }

  lemma {:induction false} EnoughReturns(w: seq<real>)
    requires Positive(w) && w != []
    ensures |Returns(w)| == |w| - 1
  {
    if 2 <= |w| {
      EnoughReturns(w[..|w| - 1]);
    }
  }

  lemma VolatilityDefined(closes: seq<real>, index: nat, root: real -> real)
    requires index < |closes| && Positive(closes)
    ensures Volatility(closes, index, 5, root).Some? <==> 4 <= index
  {
    hide Returns, Variance;
    if 4 <= index {
      EnoughReturns(Window(closes, index, 5));
    }
  }

  /** On positive closes trend following has an opinion from bar 4 on. It buys
      exactly when the close lies above the mean of the last three, that above the
      mean of the last five, and the last close rose; selling is the dual. */
  lemma TrendDecidesIff(closes: seq<real>, index: nat, root: real -> real)
    requires index < |closes| && Positive(closes)
    ensures var v := ValuesAt(closes, index, root);
      && (HasRequiredFeatures(TrendFollowing, v) <==> 4 <= index)
      && (4 <= index ==>
            var three, five := Last(closes, index, 3), Last(closes, index, 5);
            && (DirectionOf(TrendFollowing, v) == BUY <==>
                  3.0 * closes[index] > three && 5.0 * three > 3.0 * five && closes[index] > closes[index - 1])
            && (DirectionOf(TrendFollowing, v) == SELL <==>
                  3.0 * closes[index] < three && 5.0 * three < 3.0 * five && closes[index] < closes[index - 1]))
  {
    hide Sma, Volatility, Rsi, BbUpper, BbLower, BbPctB, Macd, MacdSignal, MacdHist, Last;
    VolatilityDefined(closes, index, root);
    if 4 <= index {
      SmaMeans(closes, index, 3);
      SmaMeans(closes, index, 5);
      LastMove(closes, index);
    } else {
      TooShort(closes, index);
    }
    hide Return1;
  }

  lemma TooShort(closes: seq<real>, index: nat)
    requires index < 4 && index < |closes|
    ensures Sma(closes, index, 5).None?
  {}

  // ---------------------------------------------------------------- mean reversion

  /** Mean reversion buys exactly when RSI is below 35 and %B below 0.2, and sells
      exactly when RSI is above 65 and %B above 0.8. */
  lemma ReversionDecidesIff(closes: seq<real>, index: nat, root: real -> real)
    requires index < |closes| && IsSquareRoot(root)
    ensures var v, pctB := ValuesAt(closes, index, root), BbPctB(closes, index, 20, 2.0, root);
      && (HasRequiredFeatures(MeanReversion, v) <==> 19 <= index && pctB.Some?)
      && (19 <= index && pctB.Some? ==>
            var rsi := RsiOfWindow(Window(closes, index, 14));
            && (DirectionOf(MeanReversion, v) == BUY <==> rsi < 35.0 && pctB.value < 0.2)
            && (DirectionOf(MeanReversion, v) == SELL <==> rsi > 65.0 && pctB.value > 0.8))
  {
    hide Mean, RsiOfWindow, IsSquareRoot, ReversionDirection, Volatility, Macd, MacdSignal, MacdHist, Variance;
    PercentB.RsiAndPctBDecide(closes, index, root);
  }
}
