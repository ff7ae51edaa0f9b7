/** What each value of a feature point means, multiplied out. */
module FeatureValues {
  import opened Basics
  import opened Sums
  import opened Features
  import opened DecisionRules
  import Mirror

  // ---------------------------------------------------------------- sums over windows

  function Gain(before: real, now: real): real
    requires before != 0.0
  {
    now / before - 1.0
  }

  function ReturnAt(closes: seq<real>, i: nat): real
    requires 0 < i < |closes| && closes[i - 1] != 0.0
  {
    Gain(closes[i - 1], closes[i])
  }

  /** The four returns between the last five closes. */
  function LastReturns(closes: seq<real>, index: nat): seq<real>
    requires 4 <= index < |closes| && Positive(closes)
  {
    [ReturnAt(closes, index - 3), ReturnAt(closes, index - 2), ReturnAt(closes, index - 1), ReturnAt(closes, index)]
  }

  /** Rises and falls between the last 14 closes. */
  function Risen(closes: seq<real>, index: nat, moves: nat): real
    requires moves <= index < |closes|
  {
    if moves == 0 then 0.0
    else
      var i := index - moves + 1;
      (if closes[i] > closes[i - 1] then closes[i] - closes[i - 1] else 0.0) + Risen(closes, index, moves - 1)
  }

  function Fallen(closes: seq<real>, index: nat, moves: nat): real
    requires moves <= index < |closes|
  {
    if moves == 0 then 0.0
    else
      var i := index - moves + 1;
      (if closes[i] < closes[i - 1] then closes[i - 1] - closes[i] else 0.0) + Fallen(closes, index, moves - 1)
  }

  lemma {:induction false} MovesSum(closes: seq<real>, index: nat, n: nat)
    requires n <= index < |closes|
    ensures Sum(Gains(Window(closes, index, n + 1))) == Risen(closes, index, n)
    ensures Sum(Losses(Window(closes, index, n + 1))) == Fallen(closes, index, n)
    ensures 0.0 <= Risen(closes, index, n) && 0.0 <= Fallen(closes, index, n)
  {
    hide Gains, Losses, Sum, Risen, Fallen;
    if n == 0 {
      NoMoves(closes, index);
    } else {
      var first, tail := closes[index - n], Window(closes, index, n);
      MovesSum(closes, index, n - 1);
      assert Window(closes, index, n + 1) == [first] + tail;
      MoveBefore(first, tail);
      OneMoreMove(closes, index, n);
    }
  }

  lemma NoMoves(closes: seq<real>, index: nat)
    requires index < |closes|
    ensures Sum(Gains(Window(closes, index, 1))) == 0.0 == Risen(closes, index, 0)
    ensures Sum(Losses(Window(closes, index, 1))) == 0.0 == Fallen(closes, index, 0)
  {}

  lemma OneMoreMove(closes: seq<real>, index: nat, n: nat)
    requires 0 < n <= index < |closes|
    ensures var move := closes[index - n + 1] - closes[index - n];
      && Risen(closes, index, n) == Max(move, 0.0) + Risen(closes, index, n - 1)
      && Fallen(closes, index, n) == Max(-move, 0.0) + Fallen(closes, index, n - 1)
  {}

  lemma MoveBefore(first: real, tail: seq<real>)
    requires tail != []
    ensures Sum(Gains([first] + tail)) == Max(tail[0] - first, 0.0) + Sum(Gains(tail))
    ensures Sum(Losses([first] + tail)) == Max(first - tail[0], 0.0) + Sum(Losses(tail))
  {
    hide Gains, Losses, Sum;
    var w := [first] + tail;
    var up, down := [Max(tail[0] - first, 0.0)] + Gains(tail), [Max(first - tail[0], 0.0)] + Losses(tail);
    forall i | 0 <= i < |tail|
      ensures Gains(w)[i] == up[i] && Losses(w)[i] == down[i]
    {
      assert w[i + 1] == tail[i] && w[i] == if i == 0 then first else tail[i - 1];
    }
    assert Gains(w) == up && Losses(w) == down;
    SumCons(Max(tail[0] - first, 0.0), Gains(tail));
    SumCons(Max(first - tail[0], 0.0), Losses(tail));
  }

  // ---------------------------------------------------------------- one feature at a time

  lemma ReturnMeans(closes: seq<real>, index: nat)
    requires 0 < index < |closes| && Positive(closes)
    ensures Return1(closes, index).Some?
    ensures ReturnReads(Return1(closes, index).value, closes, index)
  {
    DivideTimes(closes[index], closes[index - 1]);
  }

  lemma ReturnsAre(closes: seq<real>, index: nat)
    requires 4 <= index < |closes| && Positive(closes)
    ensures Returns(Window(closes, index, 5)) == LastReturns(closes, index)
  {
    var w := Window(closes, index, 5);
    assert w == [w[0]] + [w[1]] + [w[2]] + [w[3]] + [w[4]];
    hide Returns, Window, Gain;
    OneClose(w[0]);
    ReturnsSnoc([w[0]], w[1]);
    ReturnsSnoc([w[0]] + [w[1]], w[2]);
    ReturnsSnoc([w[0]] + [w[1]] + [w[2]], w[3]);
    ReturnsSnoc([w[0]] + [w[1]] + [w[2]] + [w[3]], w[4]);
  }

  lemma OneClose(x: real)
    ensures Returns([x]) == []
  {}

  lemma ReturnsSnoc(w: seq<real>, x: real)
    requires w != [] && w[|w| - 1] != 0.0
    ensures Returns(w + [x]) == Returns(w) + [Gain(w[|w| - 1], x)]
  {
    hide Returns, Gain;
    ReturnsStep(w + [x]);
    assert (w + [x])[..|w|] == w;
    assert (w + [x])[|w| - 1] == w[|w| - 1] && (w + [x])[|w|] == x;
  }

  lemma ReturnsStep(w: seq<real>)
    requires 2 <= |w| && w[|w| - 2] != 0.0
    ensures Returns(w) == Returns(w[..|w| - 1]) + [Gain(w[|w| - 2], w[|w| - 1])]
  {}

  /** `v` is the population deviation of `s`: non-negative, and its square times
      the length is the sum of the squared distances from the mean. */
  ghost predicate IsDeviation(v: real, s: seq<real>)
    requires s != []
  {
    0.0 <= v && Value(|s| as real, Square(v)) == Sum(Squares(s, Mean(s)))
  }

  lemma RootIsDeviation(s: seq<real>, root: real -> real)
    requires s != [] && IsSquareRoot(root)
    ensures IsDeviation(root(Variance(s)), s)
  {
    VarianceNonNegative(s);
    DivideTimes(Sum(Squares(s, Mean(s))), |s| as real);
    hide Mean, Sum, Squares;
  }

  lemma VolatilityMeans(closes: seq<real>, index: nat, root: real -> real)
    requires 4 <= index < |closes| && Positive(closes) && IsSquareRoot(root)
    ensures Volatility(closes, index, 5, root).Some?
    ensures IsDeviation(Volatility(closes, index, 5, root).value, LastReturns(closes, index))
  {
    hide IsSquareRoot, IsDeviation, Variance, Returns, ReturnAt;
    ReturnsAre(closes, index);
    RootIsDeviation(LastReturns(closes, index), root);
  }

  /** RSI is the share of the rises in all moves, and 100 when nothing fell. */
  lemma RsiMeans(closes: seq<real>, index: nat)
    requires 14 <= index < |closes|
    ensures Rsi(closes, index, 14).Some?
    ensures RsiReads(Rsi(closes, index, 14).value, closes, index)
  {
    hide RsiOf, Risen, Fallen, Sum, Gains, Losses, Window;
    MovesSum(closes, index, 13);
    var up, down := Risen(closes, index, 13), Fallen(closes, index, 13);
    var w := Window(closes, index, 14);
    RsiOfShares(up, down);
    assert MeanOrZero(Gains(w)) == up / 13.0 && MeanOrZero(Losses(w)) == down / 13.0;
    hide Mean;
  }

  lemma RsiOfShares(up: real, down: real)
    requires 0.0 <= up && 0.0 <= down
    ensures 0.0 <= up / 13.0 && 0.0 <= down / 13.0
    ensures var rsi := RsiOf(up / 13.0, down / 13.0);
      if down == 0.0 then rsi == 100.0 else rsi * (up + down) == 100.0 * up
  {
    if down > 0.0 {
      Mirror.RsiAsShare(up / 13.0, down / 13.0);
      DivideTimes(100.0 * (up / 13.0), up / 13.0 + down / 13.0);
      assert 13.0 * (RsiOf(up / 13.0, down / 13.0) * (up / 13.0 + down / 13.0))
          == RsiOf(up / 13.0, down / 13.0) * (up + down);
    }
  }

  /** The bands lie two deviations either side of the 20-mean, and %B measures the
      close between them. */
  lemma BandsMean(closes: seq<real>, index: nat, root: real -> real)
    requires 19 <= index < |closes| && IsSquareRoot(root)
    ensures var upper, lower := BbUpper(closes, index, 20, 2.0, root), BbLower(closes, index, 20, 2.0, root);
      && upper.Some? && lower.Some?
      && BandsRead(upper.value, lower.value, closes, index)
      && (BbPctB(closes, index, 20, 2.0, root).Some? <==> upper.value != lower.value)
      && (upper.value != lower.value ==>
            PctBReads(BbPctB(closes, index, 20, 2.0, root).value, upper.value, lower.value, closes[index]))
  {
    hide IsSquareRoot, IsDeviation, Variance, Last, Sma, Window;
    SmaMeans(closes, index, 20);
    RootIsDeviation(Window(closes, index, 20), root);
    var mid, s := Sma(closes, index, 20).value, root(Variance(Window(closes, index, 20)));
    var upper, lower := mid + 2.0 * s, mid - 2.0 * s;
    assert (upper - lower) / 4.0 == s;
    if upper != lower {
      DivideTimes(closes[index] - lower, upper - lower);
    }
  }

  /** An average is seeded with the sum of the first closes, and every close after
      that moves it `2 / (period + 1)` of the way. */
  lemma EmaMeans(closes: seq<real>, period: nat)
    requires 0 < period <= |closes|
    ensures |closes| == period ==> EmaOf(closes, period) * period as real == Sum(closes)
    ensures |closes| > period ==>
      EmaOf(closes, period) * (period as real + 1.0)
      == 2.0 * closes[|closes| - 1] + (period as real - 1.0) * EmaOf(closes[..|closes| - 1], period)
  {
    hide Mean, EmaStep, Smoothing, Sum;
    if |closes| == period {
      MeanTimes(closes);
    } else {
      EmaMoves(EmaOf(closes[..|closes| - 1], period), closes[|closes| - 1], period as real, Smoothing(period));
    }
  }

  lemma MeanTimes(s: seq<real>)
    requires s != []
    ensures Mean(s) * |s| as real == Sum(s)
  {
    hide Sum;
    DivideTimes(Sum(s), |s| as real);
  }

  lemma EmaMoves(ema: real, price: real, p: real, k: real)
    requires k * (p + 1.0) == 2.0
    ensures EmaStep(ema, price, k) * (p + 1.0) == 2.0 * price + (p - 1.0) * ema
  {
    assert EmaStep(ema, price, k) * (p + 1.0) == price * (k * (p + 1.0)) + ema * ((p + 1.0) - k * (p + 1.0));
  }

  /** The histogram is the spread less the mean of its last nine values. */
  lemma HistMeans(closes: seq<real>, index: nat)
    requires 34 <= index < |closes|
    ensures Macd(closes, index) == Some(Spread(closes, index))
    ensures MacdSignal(closes, index).Some? && 9.0 * MacdSignal(closes, index).value
      == SumOfSpreads(closes, index - 8, 9)
    ensures MacdHist(closes, index) == Some(Macd(closes, index).value - MacdSignal(closes, index).value)
  {
    hide Spread, SumOfSpreads, MacdSeries, Sum;
    MacdIsSpread(closes, index);
    SpreadsSum(closes, index, 9);
    var series := MacdSeries(closes, index);
    assert series[..9] == series;
    DivideTimes(Sum(series), 9.0);
    hide Macd;
  }

  // ---------------------------------------------------------------- a whole feature point

  /** Each field of a feature point, multiplied back to the closes it is made from. */
  ghost predicate Means(v: Values, closes: seq<real>, index: nat)
    requires 34 <= index < |closes| && Positive(closes)
  {
    && v.close == closes[index]
    && v.return1.Some? && ReturnReads(v.return1.value, closes, index)
    && v.sma3.Some? && MeanReads(v.sma3.value, closes, index, 3)
    && v.sma5.Some? && MeanReads(v.sma5.value, closes, index, 5)
    && v.sma20.Some? && MeanReads(v.sma20.value, closes, index, 20)
    && v.volatility5.Some? && IsDeviation(v.volatility5.value, LastReturns(closes, index))
    && v.rsi14.Some? && RsiReads(v.rsi14.value, closes, index)
    && v.bbUpper.Some? && v.bbLower.Some? && BandsRead(v.bbUpper.value, v.bbLower.value, closes, index)
    && (v.bbPctB.Some? <==> v.bbUpper.value != v.bbLower.value)
    && (v.bbPctB.Some? ==> PctBReads(v.bbPctB.value, v.bbUpper.value, v.bbLower.value, closes[index]))
    && v.macd == Some(Spread(closes, index))
    && v.macdSignal.Some? && 9.0 * v.macdSignal.value == SumOfSpreads(closes, index - 8, 9)
    && v.macdHist == Some(v.macd.value - v.macdSignal.value)
  }

  predicate ReturnReads(r: real, closes: seq<real>, index: nat)
    requires 0 < index < |closes|
  {
    closes[index - 1] * (1.0 + r) == closes[index]
  }

  predicate MeanReads(m: real, closes: seq<real>, index: nat, n: nat)
    requires n <= index + 1 <= |closes|
  {
    m * n as real == Last(closes, index, n)
  }

  predicate RsiReads(rsi: real, closes: seq<real>, index: nat)
    requires 13 <= index < |closes|
  {
    var up, down := Risen(closes, index, 13), Fallen(closes, index, 13);
    if down == 0.0 then rsi == 100.0 else rsi * (up + down) == 100.0 * up
  }

  ghost predicate BandsRead(upper: real, lower: real, closes: seq<real>, index: nat)
    requires 19 <= index < |closes|
  {
    && 10.0 * (upper + lower) == Last(closes, index, 20)
    && IsDeviation((upper - lower) / 4.0, Window(closes, index, 20))
  }

  predicate PctBReads(pctB: real, upper: real, lower: real, close: real)
  {
    pctB * (upper - lower) == close - lower
  }

  /** From bar 34 on every field of an engine-made feature point is present (%B
      unless the bands coincide) and means what it says. */
  lemma ValuesMean(closes: seq<real>, index: nat, root: real -> real)
    requires 34 <= index < |closes| && Positive(closes) && IsSquareRoot(root)
    ensures Means(ValuesAt(closes, index, root), closes, index)
  {
    hide Positive, IsSquareRoot, Return1, Sma, Volatility, Rsi, BbUpper, BbLower, BbPctB, Macd, MacdSignal, MacdHist;
    hide Last, IsDeviation, Spread, SumOfSpreads, Window, LastReturns;
    ReturnMeans(closes, index);
    SmaMeans(closes, index, 3);
    SmaMeans(closes, index, 5);
    SmaMeans(closes, index, 20);
    VolatilityMeans(closes, index, root);
    RsiMeans(closes, index);
    BandsMean(closes, index, root);
    HistMeans(closes, index);
  }
}
