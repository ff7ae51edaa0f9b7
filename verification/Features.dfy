/** The technical indicators of rac/features/engine.py, over exact reals. */
module Features {
  import opened Basics
  import opened Sums
  import Sorting

  datatype Bar = Bar(time: int, symbol: string, timeframe: string, close: real)

  datatype Values = Values(
    close: real,
    return1: Option<real>,
    sma3: Option<real>,
    sma5: Option<real>,
    sma20: Option<real>,
    volatility5: Option<real>,
    rsi14: Option<real>,
    bbUpper: Option<real>,
    bbLower: Option<real>,
    bbPctB: Option<real>,
    macd: Option<real>,
    macdSignal: Option<real>,
    macdHist: Option<real>)

  datatype FeaturePoint = FeaturePoint(
    time: int,
    symbol: string,
    timeframe: string,
    featureSet: string,
    values: Values,
    sourceBarCount: nat)

  predicate BarNotAfter(a: Bar, b: Bar) { a.time <= b.time }

  function Closes(bars: seq<Bar>): (r: seq<real>)
    ensures |r| == |bars|
    ensures forall i :: 0 <= i < |bars| ==> r[i] == bars[i].close
  {
    seq(|bars|, i requires 0 <= i < |bars| => bars[i].close)
  }

  // ---------------------------------------------------------------- windows

  /** The `n` closes that end at `index`. */
  function Window(closes: seq<real>, index: nat, n: nat): (r: seq<real>)
    requires n <= index + 1 <= |closes|
    ensures |r| == n
  {
    closes[index + 1 - n..index + 1]
  }

  function Return1(closes: seq<real>, index: nat): Option<real>
    requires index < |closes|
  {
    if index == 0 || closes[index - 1] == 0.0 then None
    else Some(closes[index] / closes[index - 1] - 1.0)
  }

  function Sma(closes: seq<real>, index: nat, n: nat): Option<real>
    requires index < |closes| && 0 < n
  {
    if index + 1 < n then None else Some(Mean(Window(closes, index, n)))
  }

  /** Bar-to-bar returns of a window, skipping those that divide by zero. */
  function Returns(w: seq<real>): seq<real>
  {
    if |w| < 2 then []
    else
      var prev, last := w[|w| - 2], w[|w| - 1];
      Returns(w[..|w| - 1]) + if prev == 0.0 then [] else [last / prev - 1.0]
  }

  function Volatility(closes: seq<real>, index: nat, n: nat, root: real -> real): Option<real>
    requires index < |closes|
  {
    if index + 1 < n then None
    else
      var rs := Returns(Window(closes, index, n));
      if |rs| < 2 then None else Some(root(Variance(rs)))
  }

  // ---------------------------------------------------------------- RSI

  function Gains(w: seq<real>): (r: seq<real>)
    requires w != []
    ensures |r| == |w| - 1
    ensures forall i :: 0 <= i < |r| ==> r[i] == Max(w[i + 1] - w[i], 0.0)
  {
    seq(|w| - 1, i requires 0 <= i < |w| - 1 => Max(w[i + 1] - w[i], 0.0))
  }

  function Losses(w: seq<real>): (r: seq<real>)
    requires w != []
    ensures |r| == |w| - 1
    ensures forall i :: 0 <= i < |r| ==> r[i] == Max(w[i] - w[i + 1], 0.0)
  {
    seq(|w| - 1, i requires 0 <= i < |w| - 1 => Max(w[i] - w[i + 1], 0.0))
  }

  function MeanOrZero(s: seq<real>): real
  {
    if s == [] then 0.0 else Mean(s)
  }

  /** 100 when nothing was lost, otherwise `100 - 100 / (1 + gain / loss)`.
      A zero divisor cannot occur for the averages of `Gains` and `Losses`. */
  function RsiOf(gain: real, loss: real): real
    requires 0.0 <= gain && 0.0 <= loss
  {
    if loss == 0.0 then 100.0
    else
      assert 0.0 <= gain / loss;
      100.0 - 100.0 / (1.0 + gain / loss)
  }

  lemma MeanOrZeroNonNegative(s: seq<real>)
    requires forall i :: 0 <= i < |s| ==> 0.0 <= s[i]
    ensures 0.0 <= MeanOrZero(s)
  {
    SumNonNegative(s);
  }

  function RsiOfWindow(w: seq<real>): real
    requires w != []
  {
    MeanOrZeroNonNegative(Gains(w));
    MeanOrZeroNonNegative(Losses(w));
    RsiOf(MeanOrZero(Gains(w)), MeanOrZero(Losses(w)))
  }

  /** `period` closes make `period - 1` moves. */
  function Rsi(closes: seq<real>, index: nat, period: nat): Option<real>
    requires index < |closes| && 0 < period
  {
    if index < period then None else Some(RsiOfWindow(Window(closes, index, period)))
  }

  // ---------------------------------------------------------------- Bollinger bands

  function BbStd(closes: seq<real>, index: nat, n: nat, root: real -> real): Option<real>
    requires index < |closes| && 0 < n
  {
    if index + 1 < n then None else Some(root(Variance(Window(closes, index, n))))
  }

  function BbUpper(closes: seq<real>, index: nat, n: nat, mult: real, root: real -> real): Option<real>
    requires index < |closes| && 0 < n
  {
    match (Sma(closes, index, n), BbStd(closes, index, n, root))
    case (Some(mid), Some(std)) => Some(mid + mult * std)
    case _ => None
  }

  function BbLower(closes: seq<real>, index: nat, n: nat, mult: real, root: real -> real): Option<real>
    requires index < |closes| && 0 < n
  {
    match (Sma(closes, index, n), BbStd(closes, index, n, root))
    case (Some(mid), Some(std)) => Some(mid - mult * std)
    case _ => None
  }

  function BbPctB(closes: seq<real>, index: nat, n: nat, mult: real, root: real -> real): Option<real>
    requires index < |closes| && 0 < n
  {
    match (BbUpper(closes, index, n, mult, root), BbLower(closes, index, n, mult, root))
    case (Some(upper), Some(lower)) => PctB(closes[index], upper, lower)
    case _ => None
  }

  /** Position of a price inside its bands: 0 at the lower one, 1 at the upper one. */
  function PctB(price: real, upper: real, lower: real): Option<real>
  {
    if upper == lower then None else Some((price - lower) / (upper - lower))
  }

  // ---------------------------------------------------------------- MACD

  function Smoothing(period: nat): (k: real)
    requires 0 < period
    ensures 0.0 < k <= 1.0
    ensures k * (period as real + 1.0) == 2.0
  {
    2.0 / (period as real + 1.0)
  }

  function EmaStep(ema: real, price: real, k: real): real
  {
    price * k + ema * (1.0 - k)
  }

  /** Exponential average of a whole series: seeded with the mean of the first
      `period` prices, then smoothed one price at a time. */
  function EmaOf(prices: seq<real>, period: nat): real
    requires 0 < period <= |prices|
  {
    if |prices| == period then Mean(prices)
    else EmaStep(EmaOf(prices[..|prices| - 1], period), prices[|prices| - 1], Smoothing(period))
  }

  function Ema(closes: seq<real>, index: nat, period: nat): Option<real>
    requires index < |closes| && 0 < period
  {
    if index + 1 < period then None else Some(EmaOf(closes[..index + 1], period))
  }

  function Macd(closes: seq<real>, index: nat): Option<real>
    requires index < |closes|
  {
    match (Ema(closes, index, 12), Ema(closes, index, 26))
    case (Some(fast), Some(slow)) => Some(fast - slow)
    case _ => None
  }

  /** The nine MACD values that end at `index`. */
  function MacdSeries(closes: seq<real>, index: nat): (r: seq<real>)
    requires 34 <= index < |closes|
    ensures |r| == 9
    ensures forall j :: 0 <= j < 9 ==> Macd(closes, index - 8 + j) == Some(r[j])
  {
    seq(9, j requires 0 <= j < 9 => Macd(closes, index - 8 + j).value)
  }

  function MacdSignal(closes: seq<real>, index: nat): Option<real>
    requires index < |closes|
  {
    if index < 34 then None else Some(Mean(MacdSeries(closes, index)))
  }

  function MacdHist(closes: seq<real>, index: nat): Option<real>
    requires index < |closes|
  {
    match (Macd(closes, index), MacdSignal(closes, index))
    case (Some(macd), Some(signal)) => Some(macd - signal)
    case _ => None
  }

  // ---------------------------------------------------------------- feature points

  function ValuesAt(closes: seq<real>, index: nat, root: real -> real): Values
    requires index < |closes|
  {
    Values(
      closes[index],
      Return1(closes, index),
      Sma(closes, index, 3),
      Sma(closes, index, 5),
      Sma(closes, index, 20),
      Volatility(closes, index, 5, root),
      Rsi(closes, index, 14),
      BbUpper(closes, index, 20, 2.0, root),
      BbLower(closes, index, 20, 2.0, root),
      BbPctB(closes, index, 20, 2.0, root),
      Macd(closes, index),
      MacdSignal(closes, index),
      MacdHist(closes, index))
  }

  function PointAt(ordered: seq<Bar>, index: nat, featureSet: string, root: real -> real): FeaturePoint
    requires index < |ordered|
  {
    var row := ordered[index];
    FeaturePoint(row.time, row.symbol, row.timeframe, featureSet,
                 ValuesAt(Closes(ordered), index, root), index + 1)
  }

  /** One point per bar of the time-ordered series. */
  function Points(ordered: seq<Bar>, featureSet: string, root: real -> real): (r: seq<FeaturePoint>)
    ensures |r| == |ordered|
    ensures forall i :: 0 <= i < |ordered| ==> r[i] == PointAt(ordered, i, featureSet, root)
  {
    seq(|ordered|, i requires 0 <= i < |ordered| => PointAt(ordered, i, featureSet, root))
  }

  // ---------------------------------------------------------------- the loops of the engine

  lemma EmaStarts(window: seq<real>, period: nat)
    requires 0 < period <= |window|
    ensures EmaOf(window[..period], period) == Mean(window[..period])
    ensures Smoothing(period) == 2.0 / (period as real + 1.0)
  {
    hide Mean;
  }

  lemma EmaNext(window: seq<real>, i: nat, period: nat)
    requires 0 < period <= i < |window|
    ensures EmaOf(window[..i + 1], period)
         == window[i] * Smoothing(period) + EmaOf(window[..i], period) * (1.0 - Smoothing(period))
  {
    assert window[..i + 1][..i] == window[..i];
    hide Mean, Smoothing;
  }

  /** The `_ema` loop. */
  method ComputeEma(closes: seq<real>, endIndex: nat, period: nat) returns (r: Option<real>)
    requires endIndex < |closes| && 0 < period
    ensures r == Ema(closes, endIndex, period)
  {
    if endIndex + 1 < period {
      return None;
    }
    var window := closes[..endIndex + 1];
    var k := 2.0 / (period as real + 1.0);
    var ema := Mean(window[..period]);
    EmaStarts(window, period);
    hide EmaOf, Smoothing;
    for i := period to |window|
      invariant ema == EmaOf(window[..i], period)
    {
      EmaNext(window, i, period);
      ema := window[i] * k + ema * (1.0 - k);
    }
    assert window[..|window|] == window;
    return Some(ema);
  }

  /** The `_macd_signal` loop. Nine values are collected and nine are averaged,
      so the smoothing loop at line 132 has nothing left to run over. */
  method ComputeMacdSignal(closes: seq<real>, index: nat) returns (r: Option<real>)
    requires index < |closes|
    ensures r == MacdSignal(closes, index)
  {
    if index < 34 {
      return None;
    }
    var series: seq<real> := [];
    for i := index - 8 to index + 1
      invariant series == MacdSeries(closes, index)[..i - (index - 8)]
    {
      var fast := ComputeEma(closes, i, 12);
      var slow := ComputeEma(closes, i, 26);
      assert Macd(closes, i) == Some(MacdSeries(closes, index)[i - (index - 8)]);
      series := series + [fast.value - slow.value];
    }
    assert series == MacdSeries(closes, index);
    return Some(Mean(series));
  }

  /** `compute_technical_v1`: order the bars by time, then append a point per bar. */
  method ComputeTechnicalV1(bars: seq<Bar>, featureSet: string, root: real -> real)
    returns (points: seq<FeaturePoint>)
    ensures points == Points(Sorting.Sort(bars, BarNotAfter), featureSet, root)
  {
    hide Return1, Sma, Volatility, Rsi, BbUpper, BbLower, BbPctB, Macd, MacdSignal, MacdHist, Sorting.Sort;
    var ordered := Sorting.Sort(bars, BarNotAfter);
    var closes := Closes(ordered);
    points := [];
    for index := 0 to |ordered|
      invariant points == Points(ordered, featureSet, root)[..index]
    {
      var row := ordered[index];
      var signal := ComputeMacdSignal(closes, index);
      var values := ValuesAt(closes, index, root).(macdSignal := signal);
      points := points + [FeaturePoint(row.time, row.symbol, row.timeframe, featureSet, values, index + 1)];
    }
  }
}
