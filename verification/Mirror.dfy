/** Reflecting a price series turns every buy signal into a sell signal and back.

    Every close `p` is replaced by `c - p`, with `c` above every close. */
module Mirror {
  import opened Basics
  import opened Sums
  import opened Features
  import opened Strategies
  import PercentB

  function Opposite(x: Option<real>): Option<real>
  {
    match x
    case Some(v) => Some(-v)
    case None => None
  }

  function From(c: real, x: Option<real>): Option<real>
  {
    match x
    case Some(v) => Some(c - v)
    case None => None
  }

  function Flip(d: Direction): Direction
  {
    match d
    case BUY => SELL
    case SELL => BUY
    case HOLD => HOLD
  }

  ghost predicate Reflectable(closes: seq<real>, c: real)
  {
    forall i :: 0 <= i < |closes| ==> 0.0 < closes[i] < c
  }

  // ---------------------------------------------------------------- averages and bands

  lemma SmaReflect(closes: seq<real>, c: real, index: nat, n: nat)
    requires index < |closes| && 0 < n
    ensures Sma(Reflect(closes, c), index, n) == From(c, Sma(closes, index, n))
  {
    if n <= index + 1 {
      ReflectSlice(closes, c, index + 1 - n, index + 1);
      MeanReflect(Window(closes, index, n), c);
    }
  }

  lemma BbStdReflect(closes: seq<real>, c: real, index: nat, n: nat, root: real -> real)
    requires index < |closes| && 0 < n
    ensures BbStd(Reflect(closes, c), index, n, root) == BbStd(closes, index, n, root)
  {
    if n <= index + 1 {
      ReflectSlice(closes, c, index + 1 - n, index + 1);
      VarianceReflect(Window(closes, index, n), c);
    }
  }

  /** The bands swap sides. */
  lemma BandsReflect(closes: seq<real>, c: real, index: nat, root: real -> real)
    requires index < |closes|
    ensures BbUpper(Reflect(closes, c), index, 20, 2.0, root) == From(c, BbLower(closes, index, 20, 2.0, root))
    ensures BbLower(Reflect(closes, c), index, 20, 2.0, root) == From(c, BbUpper(closes, index, 20, 2.0, root))
  {
    SmaReflect(closes, c, index, 20);
    BbStdReflect(closes, c, index, 20, root);
    hide Sma;
    hide BbStd;
  }

  lemma PctBReflect(price: real, upper: real, lower: real, c: real)
    ensures PctB(c - price, c - lower, c - upper) == From(1.0, PctB(price, upper, lower))
  {
    if upper != lower {
      var width := upper - lower;
      DivideTimes(price - lower, width);
      DivideUnique(upper - price, width, 1.0 - (price - lower) / width);
    }
  }

  lemma BbPctBReflect(closes: seq<real>, c: real, index: nat, root: real -> real)
    requires index < |closes|
    ensures BbPctB(Reflect(closes, c), index, 20, 2.0, root) == From(1.0, BbPctB(closes, index, 20, 2.0, root))
  {
    BandsReflect(closes, c, index, root);
    match (BbUpper(closes, index, 20, 2.0, root), BbLower(closes, index, 20, 2.0, root)) {
      case (Some(upper), Some(lower)) => PctBReflect(closes[index], upper, lower, c);
      case _ =>
    }
  }

  // ---------------------------------------------------------------- MACD

  lemma {:induction false} EmaOfReflect(prices: seq<real>, c: real, period: nat)
    requires 0 < period <= |prices|
    ensures EmaOf(Reflect(prices, c), period) == c - EmaOf(prices, period)
    decreases |prices|
  {
    if |prices| == period {
      MeanReflect(prices, c);
    } else {
      var front := prices[..|prices| - 1];
      EmaOfReflect(front, c, period);
      assert Reflect(prices, c)[..|prices| - 1] == Reflect(front, c);
      EmaStepReflect(EmaOf(front, period), prices[|prices| - 1], c, Smoothing(period));
    }
  }

  lemma EmaStepReflect(ema: real, price: real, c: real, k: real)
    ensures EmaStep(c - ema, c - price, k) == c - EmaStep(ema, price, k)
  {}

  lemma MacdReflect(closes: seq<real>, c: real, index: nat)
    requires index < |closes|
    ensures Macd(Reflect(closes, c), index) == Opposite(Macd(closes, index))
  {
    ReflectSlice(closes, c, 0, index + 1);
    assert closes[0..index + 1] == closes[..index + 1];
    if 26 <= index + 1 {
      EmaOfReflect(closes[..index + 1], c, 12);
      EmaOfReflect(closes[..index + 1], c, 26);
    }
  }

  lemma MacdSignalReflect(closes: seq<real>, c: real, index: nat)
    requires index < |closes|
    ensures MacdSignal(Reflect(closes, c), index) == Opposite(MacdSignal(closes, index))
  {
    if 34 <= index {
      var a, b := MacdSeries(closes, index), MacdSeries(Reflect(closes, c), index);
      forall j | 0 <= j < 9
        ensures b[j] == Reflect(a, 0.0)[j]
      {
        MacdReflect(closes, c, index - 8 + j);
        assert Macd(closes, index - 8 + j) == Some(a[j]);
        assert Macd(Reflect(closes, c), index - 8 + j) == Some(b[j]);
      }
      assert b == Reflect(a, 0.0);
      MeanReflect(a, 0.0);
    }
  }

  lemma MacdHistReflect(closes: seq<real>, c: real, index: nat)
    requires index < |closes|
    ensures MacdHist(Reflect(closes, c), index) == Opposite(MacdHist(closes, index))
  {
    MacdReflect(closes, c, index);
    MacdSignalReflect(closes, c, index);
  }

  // ---------------------------------------------------------------- returns

  lemma Return1Sign(closes: seq<real>, index: nat)
    requires index < |closes|
    requires index > 0 ==> 0.0 < closes[index - 1]
    ensures Return1(closes, index).Some? <==> index > 0
    ensures index > 0 ==>
      && (Return1(closes, index).value > 0.0 <==> closes[index] > closes[index - 1])
      && (Return1(closes, index).value < 0.0 <==> closes[index] < closes[index - 1])
  {
    if index > 0 {
      RatioSign(closes[index], closes[index - 1]);
    }
  }

  lemma RatioSign(a: real, b: real)
    requires 0.0 < b
    ensures a / b - 1.0 > 0.0 <==> a > b
    ensures a / b - 1.0 < 0.0 <==> a < b
  {
    DivideTimes(a, b);
    SameSign(a / b - 1.0, b, a - b);
  }

  lemma {:induction false} ReturnsComplete(w: seq<real>)
    requires forall i :: 0 <= i < |w| ==> w[i] != 0.0
    ensures |Returns(w)| == if |w| < 2 then 0 else |w| - 1
  {
    if 2 <= |w| {
      ReturnsComplete(w[..|w| - 1]);
    }
  }

  lemma VolatilityPresent(closes: seq<real>, index: nat, root: real -> real)
    requires index < |closes|
    requires forall i :: 0 <= i < |closes| ==> closes[i] != 0.0
    ensures Volatility(closes, index, 5, root).Some? <==> 4 <= index
  {
    if 4 <= index {
      ReturnsComplete(Window(closes, index, 5));
    }
  }

  // ---------------------------------------------------------------- RSI

  /** The closes in RSI's window are all the same. */
  predicate Flat(closes: seq<real>, index: nat, period: nat)
    requires 0 < period <= index + 1 <= |closes|
  {
    PercentB.FlatTail(Window(closes, index, period), period)
  }

  lemma GainsReflect(w: seq<real>, c: real)
    requires w != []
    ensures Gains(Reflect(w, c)) == Losses(w)
    ensures Losses(Reflect(w, c)) == Gains(w)
  {
    var r := Reflect(w, c);
    hide Gains, Losses, Reflect;
    forall i | 0 <= i < |w| - 1
      ensures Gains(r)[i] == Losses(w)[i] && Losses(r)[i] == Gains(w)[i]
    {
      assert r[i] == c - w[i] && r[i + 1] == c - w[i + 1];
    }
  }

  lemma {:induction false} NoMoves(w: seq<real>)
    requires w != []
    requires forall i :: 0 <= i < |w| - 1 ==> w[i] == w[i + 1]
    ensures forall i :: 0 <= i < |w| ==> w[i] == w[|w| - 1]
  {
    if |w| > 1 {
      NoMoves(w[1..]);
      assert w[0] == w[1] == w[1..][0];
      forall i | 1 <= i < |w|
        ensures w[i] == w[|w| - 1]
      {
        assert w[i] == w[1..][i - 1];
      }
    }
  }

  lemma MeanVanishes(s: seq<real>)
    requires forall i :: 0 <= i < |s| ==> 0.0 <= s[i]
    ensures MeanOrZero(s) == 0.0 <==> forall i :: 0 <= i < |s| ==> s[i] == 0.0
  {
    if s != [] {
      SumNonNegative(s);
      DivideTimes(Sum(s), |s| as real);
      if forall i :: 0 <= i < |s| ==> s[i] == 0.0 {
        MeanBetween(s, 0.0, 0.0);
      }
    }
  }

  /** Both averages vanish exactly on a flat window. */
  lemma AveragesVanishIffFlat(w: seq<real>)
    requires |w| >= 2
    ensures MeanOrZero(Gains(w)) == 0.0 && MeanOrZero(Losses(w)) == 0.0 <==> PercentB.FlatTail(w, |w|)
  {
    hide MeanOrZero;
    MeanVanishes(Gains(w));
    MeanVanishes(Losses(w));
    if MeanOrZero(Gains(w)) == 0.0 && MeanOrZero(Losses(w)) == 0.0 {
      forall i | 0 <= i < |w| - 1
        ensures w[i] == w[i + 1]
      {
        assert Gains(w)[i] == 0.0 && Losses(w)[i] == 0.0;
      }
      NoMoves(w);
    }
  }

  lemma RsiOfMirror(gain: real, loss: real)
    requires 0.0 <= gain && 0.0 <= loss
    ensures RsiOf(loss, gain) == 100.0 - RsiOf(gain, loss) <==> !(gain == 0.0 && loss == 0.0)
    ensures RsiOf(0.0, 0.0) == 100.0
  {
    if gain > 0.0 && loss > 0.0 {
      RsiAsShare(gain, loss);
      RsiAsShare(loss, gain);
      DivideTimes(100.0 * gain, gain + loss);
      DivideTimes(100.0 * loss, loss + gain);
      DivideUnique(100.0 * loss, gain + loss, 100.0 - 100.0 * gain / (gain + loss));
    } else if gain > 0.0 || loss > 0.0 {
      assert RsiOf(gain, loss) + RsiOf(loss, gain) == 100.0;
    }
  }

  /** RSI is the gains' share of all movement. */
  lemma RsiAsShare(gain: real, loss: real)
    requires 0.0 <= gain && 0.0 < loss
    ensures RsiOf(gain, loss) == 100.0 * gain / (gain + loss)
  {
    var rs := gain / loss;
    DivideTimes(gain, loss);
    assert (1.0 + rs) * loss == gain + loss;
    ShareStep(100.0 / (1.0 + rs), 1.0 + rs, loss, gain);
  }

  /** RSI is a percentage. */
  lemma RsiInRange(closes: seq<real>, index: nat, period: nat)
    requires index < |closes| && 0 < period && Rsi(closes, index, period).Some?
    ensures 0.0 <= Rsi(closes, index, period).value <= 100.0
  {
    hide RsiOf, MeanOrZero, Window;
    var w := Window(closes, index, period);
    MeanOrZeroNonNegative(Gains(w));
    MeanOrZeroNonNegative(Losses(w));
    RsiOfInRange(MeanOrZero(Gains(w)), MeanOrZero(Losses(w)));
  }

  lemma RsiOfInRange(gain: real, loss: real)
    requires 0.0 <= gain && 0.0 <= loss
    ensures 0.0 <= RsiOf(gain, loss) <= 100.0
  {
    if loss > 0.0 {
      RsiAsShare(gain, loss);
      DivideTimes(100.0 * gain, gain + loss);
      CancelPositive(gain + loss, RsiOf(gain, loss));
      CancelPositive(gain + loss, 100.0 - RsiOf(gain, loss));
    }
  }

  lemma ShareStep(q: real, r: real, loss: real, gain: real)
    requires 0.0 < r && q == 100.0 / r
    requires 0.0 < loss && 0.0 <= gain
    requires r * loss == gain + loss
    ensures 100.0 - q == 100.0 * gain / (gain + loss)
  {
    DivideTimes(100.0, r);
    assert q * (gain + loss) == 100.0 * loss;
    DivideUnique(100.0 * gain, gain + loss, 100.0 - q);
  }

  lemma RsiWindowReflect(w: seq<real>, c: real)
    requires |w| >= 2
    ensures RsiOfWindow(Reflect(w, c)) == 100.0 - RsiOfWindow(w) <==> !PercentB.FlatTail(w, |w|)
    ensures PercentB.FlatTail(w, |w|) ==> RsiOfWindow(Reflect(w, c)) == RsiOfWindow(w) == 100.0
  {
    hide RsiOf, MeanOrZero, PercentB.FlatTail;
    GainsReflect(w, c);
    AveragesVanishIffFlat(w);
    MeanOrZeroNonNegative(Gains(w));
    MeanOrZeroNonNegative(Losses(w));
    RsiOfMirror(MeanOrZero(Gains(w)), MeanOrZero(Losses(w)));
  }

  /** RSI mirrors to `100 - RSI` except on a flat window, where the engine
      answers 100 on both sides. */
  lemma RsiReflect(closes: seq<real>, c: real, index: nat)
    requires index < |closes|
    ensures Rsi(Reflect(closes, c), index, 14) == From(100.0, Rsi(closes, index, 14))
       <==> index < 14 || !Flat(closes, index, 14)
    ensures index >= 14 && Flat(closes, index, 14) ==>
      Rsi(Reflect(closes, c), index, 14) == Rsi(closes, index, 14) == Some(100.0)
  {
    hide RsiOfWindow, PercentB.FlatTail;
    if 14 <= index {
      ReflectSlice(closes, c, index + 1 - 14, index + 1);
      RsiWindowReflect(Window(closes, index, 14), c);
    }
  }

  // ---------------------------------------------------------------- feature values

  /** What reflection does to one feature point. On a flat RSI window both RSIs
      are 100, the last return is zero and %B is away from its thresholds. */
  ghost predicate MirrorImage(v: Values, w: Values, c: real, flat: bool)
  {
    && w.close == c - v.close
    && w.sma3 == From(c, v.sma3)
    && w.sma5 == From(c, v.sma5)
    && w.sma20 == From(c, v.sma20)
    && w.bbPctB == From(1.0, v.bbPctB)
    && w.macd == Opposite(v.macd)
    && w.macdSignal == Opposite(v.macdSignal)
    && w.macdHist == Opposite(v.macdHist)
    && (w.volatility5.Some? <==> v.volatility5.Some?)
    && ReturnsOppose(v.return1, w.return1)
    && (!flat ==> w.rsi14 == From(100.0, v.rsi14))
    && (flat ==>
      && w.rsi14 == v.rsi14 == Some(100.0)
      && v.return1 == Some(0.0)
      && (v.bbPctB.Some? ==> BB_LOWER < v.bbPctB.value < BB_UPPER))
  }

  predicate ReturnsOppose(a: Option<real>, b: Option<real>)
  {
    match (a, b)
    case (Some(x), Some(y)) => (x > 0.0 <==> y < 0.0) && (x < 0.0 <==> y > 0.0)
    case (None, None) => true
    case _ => false
  }

  lemma ReturnsReflect(closes: seq<real>, c: real, index: nat)
    requires index < |closes| && Reflectable(closes, c)
    ensures ReturnsOppose(Return1(closes, index), Return1(Reflect(closes, c), index))
  {
    Return1Sign(closes, index);
    Return1Sign(Reflect(closes, c), index);
  }

  lemma FlatWindowValues(closes: seq<real>, index: nat, root: real -> real)
    requires 14 <= index < |closes| && IsSquareRoot(root)
    requires closes[index - 1] != 0.0 && Flat(closes, index, 14)
    ensures Return1(closes, index) == Some(0.0)
    ensures BbPctB(closes, index, 20, 2.0, root).Some? ==>
      BB_LOWER < BbPctB(closes, index, 20, 2.0, root).value < BB_UPPER
  {
    var w := Window(closes, index, 14);
    assert w[12] == closes[index - 1] && w[13] == closes[index];
    DivideUnique(closes[index], closes[index - 1], 1.0);
    if BbPctB(closes, index, 20, 2.0, root).Some? {
      PercentB.FlatRunKeepsPctBInside(closes, index, root);
    }
  }

  lemma ValuesReflect(closes: seq<real>, c: real, index: nat, root: real -> real)
    requires index < |closes| && Reflectable(closes, c) && IsSquareRoot(root)
    ensures MirrorImage(ValuesAt(closes, index, root), ValuesAt(Reflect(closes, c), index, root), c,
                        14 <= index && Flat(closes, index, 14))
  {
    hide Sma, BbUpper, BbLower, BbPctB, Macd, MacdSignal, MacdHist, Volatility, Return1, Rsi, Flat, ReturnsOppose;
    SmaReflect(closes, c, index, 3);
    SmaReflect(closes, c, index, 5);
    SmaReflect(closes, c, index, 20);
    BbPctBReflect(closes, c, index, root);
    MacdReflect(closes, c, index);
    MacdSignalReflect(closes, c, index);
    MacdHistReflect(closes, c, index);
    VolatilityPresent(closes, index, root);
    VolatilityPresent(Reflect(closes, c), index, root);
    ReturnsReflect(closes, c, index);
    RsiReflect(closes, c, index);
    if 14 <= index && Flat(closes, index, 14) {
      FlatWindowValues(closes, index, root);
    }
  }

  // ---------------------------------------------------------------- strategies

  lemma TrendFlips(v: Values, w: Values, c: real, flat: bool)
    requires MirrorImage(v, w, c, flat)
    ensures HasRequiredFeatures(TrendFollowing, w) == HasRequiredFeatures(TrendFollowing, v)
    ensures HasRequiredFeatures(TrendFollowing, v) ==> TrendDirection(w) == Flip(TrendDirection(v))
  {}

  lemma ReversionFlips(v: Values, w: Values, c: real, flat: bool)
    requires MirrorImage(v, w, c, flat)
    ensures HasRequiredFeatures(MeanReversion, w) == HasRequiredFeatures(MeanReversion, v)
    ensures ReversionDirection(w) == Flip(ReversionDirection(v))
    ensures ReversionConfidence(w, ReversionDirection(w)) == ReversionConfidence(v, ReversionDirection(v))
  {}

  lemma MomentumFlips(v: Values, w: Values, c: real, flat: bool)
    requires MirrorImage(v, w, c, flat)
    ensures HasRequiredFeatures(Momentum, w) == HasRequiredFeatures(Momentum, v)
    ensures MomentumDirection(w) == Flip(MomentumDirection(v))
  {}

  /** Every strategy answers a reflected series with the opposite direction, on
      every series of positive closes, flat stretches included; mean reversion
      does so with the same confidence. */
  lemma StrategiesFlip(strategy: Strategy, closes: seq<real>, c: real, index: nat, root: real -> real)
    requires index < |closes| && Reflectable(closes, c) && IsSquareRoot(root)
    ensures var v, w := ValuesAt(closes, index, root), ValuesAt(Reflect(closes, c), index, root);
      && HasRequiredFeatures(strategy, w) == HasRequiredFeatures(strategy, v)
      && (HasRequiredFeatures(strategy, v) ==>
            && DirectionOf(strategy, w) == Flip(DirectionOf(strategy, v))
            && (strategy == MeanReversion ==>
                  ConfidenceOf(strategy, w, DirectionOf(strategy, w))
                  == ConfidenceOf(strategy, v, DirectionOf(strategy, v))))
  {
    var v, w := ValuesAt(closes, index, root), ValuesAt(Reflect(closes, c), index, root);
    var flat := 14 <= index && Flat(closes, index, 14);
    hide ValuesAt, MirrorImage, Flat;
    ValuesReflect(closes, c, index, root);
    TrendFlips(v, w, c, flat);
    ReversionFlips(v, w, c, flat);
    MomentumFlips(v, w, c, flat);
  }

  // ---------------------------------------------------------------- the whole pipeline

  function ReflectBar(bar: Bar, c: real): Bar
  {
    bar.(close := c - bar.close)
  }

  function ReflectBars(bars: seq<Bar>, c: real): (r: seq<Bar>)
    ensures |r| == |bars|
    ensures forall i :: 0 <= i < |bars| ==> r[i] == ReflectBar(bars[i], c)
  {
    seq(|bars|, i requires 0 <= i < |bars| => ReflectBar(bars[i], c))
  }

  lemma ReflectBarsSnoc(bars: seq<Bar>, x: Bar, c: real)
    ensures ReflectBars(bars + [x], c) == ReflectBars(bars, c) + [ReflectBar(x, c)]
  {}

  lemma {:induction false} InsertReflect(s: seq<Bar>, x: Bar, c: real)
    ensures Sorting.Insert(ReflectBars(s, c), ReflectBar(x, c), BarNotAfter)
         == ReflectBars(Sorting.Insert(s, x, BarNotAfter), c)
  {
    hide ReflectBars;
    if s == [] {
      ReflectBarsSnoc([], x, c);
    } else {
      var front, last := s[..|s| - 1], s[|s| - 1];
      InsertReflect(front, x, c);
      ReflectBarsSnoc(s, x, c);
      ReflectBarsSnoc(Sorting.Insert(front, x, BarNotAfter), last, c);
      assert ReflectBars(s, c)[..|s| - 1] == ReflectBars(front, c);
    }
  }

  lemma {:induction false} SortReflect(bars: seq<Bar>, c: real)
    ensures Sorting.Sort(ReflectBars(bars, c), BarNotAfter) == ReflectBars(Sorting.Sort(bars, BarNotAfter), c)
  {
    if bars != [] {
      var front := bars[..|bars| - 1];
      SortReflect(front, c);
      assert ReflectBars(bars, c)[..|bars| - 1] == ReflectBars(front, c);
      InsertReflect(Sorting.Sort(front, BarNotAfter), bars[|bars| - 1], c);
    }
  }

  ghost predicate SignalFlips(strategy: Strategy, a: Signal, b: Signal)
  {
    && b.time == a.time
    && b.direction == Flip(a.direction)
    && (strategy == MeanReversion ==> b.confidence == a.confidence)
  }

  ghost predicate SignalsFlip(strategy: Strategy, a: seq<Signal>, b: seq<Signal>)
  {
    && |a| == |b|
    && forall i :: 0 <= i < |a| ==> SignalFlips(strategy, a[i], b[i])
  }

  ghost predicate RowFlips(strategy: Strategy, p: FeaturePoint, q: FeaturePoint, environment: string)
  {
    && HasRequiredFeatures(strategy, q.values) == HasRequiredFeatures(strategy, p.values)
    && (HasRequiredFeatures(strategy, p.values) ==>
          SignalFlips(strategy, SignalOf(strategy, p, environment), SignalOf(strategy, q, environment)))
  }

  lemma PointFlips(strategy: Strategy, bars: seq<Bar>, i: nat, c: real, featureSet: string, environment: string,
                   root: real -> real)
    requires i < |bars|
    requires forall j :: 0 <= j < |bars| ==> 0.0 < bars[j].close < c
    requires IsSquareRoot(root)
    ensures RowFlips(strategy, PointAt(bars, i, featureSet, root), PointAt(ReflectBars(bars, c), i, featureSet, root),
                     environment)
  {
    hide ValuesAt, HasRequiredFeatures, DirectionOf, ConfidenceOf;
    assert Closes(ReflectBars(bars, c)) == Reflect(Closes(bars), c);
    StrategiesFlip(strategy, Closes(bars), c, i, root);
  }

  lemma {:induction false} SignalsOfFlip(strategy: Strategy, p: seq<FeaturePoint>, q: seq<FeaturePoint>,
                                         environment: string)
    requires |p| == |q|
    requires forall i :: 0 <= i < |p| ==> RowFlips(strategy, p[i], q[i], environment)
    ensures SignalsFlip(strategy, SignalsOf(strategy, p, environment), SignalsOf(strategy, q, environment))
  {
    hide HasRequiredFeatures, SignalOf, SignalFlips;
    if p != [] {
      SignalsOfFlip(strategy, p[..|p| - 1], q[..|p| - 1], environment);
      assert RowFlips(strategy, p[|p| - 1], q[|p| - 1], environment);
    }
  }

  /** From raw bars to signals: reflecting the closes flips every signal, at the
      same times, whatever order the bars arrive in. */
  lemma PipelineFlips(strategy: Strategy, bars: seq<Bar>, c: real, featureSet: string, environment: string,
                      root: real -> real)
    requires forall i :: 0 <= i < |bars| ==> 0.0 < bars[i].close < c
    requires IsSquareRoot(root)
    ensures SignalsFlip(strategy,
      Signals(strategy, Points(Sorting.Sort(bars, BarNotAfter), featureSet, root), environment),
      Signals(strategy, Points(Sorting.Sort(ReflectBars(bars, c), BarNotAfter), featureSet, root), environment))
  {
    hide Sorting.Sort, Sorting.Ascending, Signals, SignalsFlip, Points, IsSquareRoot;
    var ordered := Sorting.Sort(bars, BarNotAfter);
    SortReflect(bars, c);
    BarOrderIsTotal();
    Sorting.SortAscending(bars, BarNotAfter);
    Sorting.SortAscending(ReflectBars(bars, c), BarNotAfter);
    forall i | 0 <= i < |ordered|
      ensures 0.0 < ordered[i].close < c
    {
      assert ordered[i] in multiset(bars);
    }
    OrderedFlips(strategy, ordered, c, featureSet, environment, root);
  }

  lemma OrderedFlips(strategy: Strategy, ordered: seq<Bar>, c: real, featureSet: string, environment: string,
                     root: real -> real)
    requires forall i :: 0 <= i < |ordered| ==> 0.0 < ordered[i].close < c
    requires IsSquareRoot(root)
    requires Sorting.Ascending(ordered, BarNotAfter) && Sorting.Ascending(ReflectBars(ordered, c), BarNotAfter)
    ensures SignalsFlip(strategy,
      Signals(strategy, Points(ordered, featureSet, root), environment),
      Signals(strategy, Points(ReflectBars(ordered, c), featureSet, root), environment))
  {
    hide Signals, SignalsOf, Sorting.Ascending, ManifestOf, PointAt;
    SignalsOfOrdered(strategy, ordered, featureSet, environment, root);
    SignalsOfOrdered(strategy, ReflectBars(ordered, c), featureSet, environment, root);
    PointsFlip(strategy, ordered, c, featureSet, environment, root);
  }

  lemma PointsFlip(strategy: Strategy, ordered: seq<Bar>, c: real, featureSet: string, environment: string,
                   root: real -> real)
    requires forall i :: 0 <= i < |ordered| ==> 0.0 < ordered[i].close < c
    requires IsSquareRoot(root)
    ensures SignalsFlip(strategy,
      SignalsOf(strategy, Points(ordered, featureSet, root), environment),
      SignalsOf(strategy, Points(ReflectBars(ordered, c), featureSet, root), environment))
  {
    hide PointAt, RowFlips, SignalsOf, IsSquareRoot;
    forall i | 0 <= i < |ordered|
      ensures RowFlips(strategy, PointAt(ordered, i, featureSet, root),
                       PointAt(ReflectBars(ordered, c), i, featureSet, root), environment)
    {
      PointFlips(strategy, ordered, i, c, featureSet, environment, root);
    }
    SignalsOfFlip(strategy, Points(ordered, featureSet, root), Points(ReflectBars(ordered, c), featureSet, root),
                  environment);
  }
}
