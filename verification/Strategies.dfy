/** The three signal strategies of rac/strategies. */
module Strategies {
  import opened Basics
  import opened Features
  import Sorting

  datatype Direction = BUY | SELL | HOLD

  datatype Strategy = TrendFollowing | MeanReversion | Momentum

  datatype Manifest = Manifest(
    strategyId: string,
    stopLossPct: real,
    takeProfitPct: real,
    maxPositionPct: real,
    minFeaturePoints: nat)

  datatype Signal = Signal(
    time: int,
    environment: string,
    strategyId: string,
    symbol: string,
    timeframe: string,
    direction: Direction,
    confidence: real,
    stopLossPct: real,
    takeProfitPct: real,
    maxPositionPct: real,
    values: Values)

  function ManifestOf(strategy: Strategy): Manifest
  {
    match strategy
    case TrendFollowing => Manifest("EQ_TREND_001", 1.0, 2.0, 2.0, 5)
    case MeanReversion => Manifest("EQ_REVERSION_001", 1.0, 2.0, 2.0, 20)
    case Momentum => Manifest("EQ_MOMENTUM_001", 1.0, 2.5, 2.0, 35)
  }

  /** `validate_features`: every feature the manifest requires is present. */
  predicate HasRequiredFeatures(strategy: Strategy, v: Values)
  {
    match strategy
    case TrendFollowing => v.sma3.Some? && v.sma5.Some? && v.return1.Some? && v.volatility5.Some?
    case MeanReversion => v.sma20.Some? && v.rsi14.Some? && v.bbPctB.Some?
    case Momentum => v.return1.Some? && v.macd.Some? && v.macdSignal.Some? && v.macdHist.Some? && v.rsi14.Some?
  }

  const RSI_OVERSOLD := 35.0
  const RSI_OVERBOUGHT := 65.0
  const BB_LOWER := 0.2
  const BB_UPPER := 0.8

  function TrendDirection(v: Values): Direction
    requires HasRequiredFeatures(TrendFollowing, v)
  {
    if v.close > v.sma3.value > v.sma5.value && v.return1.value > 0.0 then BUY
    else if v.close < v.sma3.value < v.sma5.value && v.return1.value < 0.0 then SELL
    else HOLD
  }

  function ReversionDirection(v: Values): Direction
  {
    match (v.rsi14, v.bbPctB, v.sma20)
    case (Some(rsi), Some(pctB), Some(sma20)) =>
      if rsi < RSI_OVERSOLD && pctB < BB_LOWER && v.close < sma20 then BUY
      else if rsi > RSI_OVERBOUGHT && pctB > BB_UPPER && v.close > sma20 then SELL
      else HOLD
    case _ => HOLD
  }

  function MomentumDirection(v: Values): Direction
  {
    match (v.macd, v.macdHist, v.rsi14, v.return1)
    case (Some(macd), Some(hist), Some(rsi), Some(ret)) =>
      if hist > 0.0 && macd > 0.0 && 45.0 <= rsi <= 72.0 && ret > 0.0 then BUY
      else if hist < 0.0 && macd < 0.0 && 28.0 <= rsi <= 55.0 && ret < 0.0 then SELL
      else HOLD
    case _ => HOLD
  }

  function DirectionOf(strategy: Strategy, v: Values): Direction
    requires HasRequiredFeatures(strategy, v)
  {
    match strategy
    case TrendFollowing => TrendDirection(v)
    case MeanReversion => ReversionDirection(v)
    case Momentum => MomentumDirection(v)
  }

  function Clamp(x: real): real { Max(0.0, Min(1.0, x)) }

  function ReversionConfidence(v: Values, direction: Direction): real
  {
    match (v.rsi14, v.bbPctB)
    case (Some(rsi), Some(pctB)) =>
      (match direction
       case BUY =>
         var rsiScore := Max(0.0, (RSI_OVERSOLD - rsi) / RSI_OVERSOLD);
         var bbScore := if pctB < BB_LOWER then Max(0.0, (BB_LOWER - pctB) / BB_LOWER) else 0.0;
         Clamp(0.5 + (rsiScore + bbScore) * 0.25)
       case SELL =>
         var rsiScore := Max(0.0, (rsi - RSI_OVERBOUGHT) / (100.0 - RSI_OVERBOUGHT));
         var bbScore := if pctB > BB_UPPER then Max(0.0, (pctB - BB_UPPER) / (1.0 - BB_UPPER)) else 0.0;
         Clamp(0.5 + (rsiScore + bbScore) * 0.25)
       case HOLD => 0.5)
    case _ => 0.5
  }

  /** Python's `x or d`: an absent or zero number gives way to the default. */
  function OrElse(x: Option<real>, d: real): real
  {
    match x
    case Some(v) => if v == 0.0 then d else v
    case None => d
  }

  function TrendConfidence(v: Values): real
  {
    var close := OrElse(Some(v.close), 1.0);
    var sma3 := OrElse(v.sma3, close);
    var sma5 := OrElse(v.sma5, close);
    var vol := OrElse(v.volatility5, 0.0);
    var priceGap := if sma5 == 0.0 then 0.0 else Abs(close - sma5) / sma5;
    var smaSpread := if sma5 == 0.0 then 0.0 else Abs(sma3 - sma5) / sma5;
    var priceScore := Min(1.0, priceGap / 0.003);
    var spreadScore := Min(1.0, smaSpread / 0.002);
    var volPenalty := Min(0.3, vol * 50.0);
    Clamp(0.5 + priceScore * 0.35 + spreadScore * 0.25 - volPenalty)
  }

  function MomentumConfidence(v: Values, direction: Direction): real
  {
    if direction == HOLD then 0.5
    else
      var close := OrElse(Some(v.close), 1.0);
      var hist := OrElse(v.macdHist, 0.0);
      var rsi := OrElse(v.rsi14, 50.0);
      var histScore := Min(1.0, Abs(hist) / close / 0.001);
      var rsiScore := if direction == BUY then Max(0.0, (rsi - 50.0) / (72.0 - 50.0))
                      else Max(0.0, (50.0 - rsi) / (50.0 - 28.0));
      Clamp(0.5 + histScore * 0.30 + rsiScore * 0.20)
  }

  function ConfidenceOf(strategy: Strategy, v: Values, direction: Direction): real
  {
    match strategy
    case TrendFollowing => TrendConfidence(v)
    case MeanReversion => ReversionConfidence(v, direction)
    case Momentum => MomentumConfidence(v, direction)
  }

  /** Every confidence is one the signal model accepts. */
  lemma ConfidenceIsValid(strategy: Strategy, v: Values, direction: Direction)
    ensures 0.0 <= ConfidenceOf(strategy, v, direction) <= 1.0
  {}

  predicate PointNotAfter(a: FeaturePoint, b: FeaturePoint) { a.time <= b.time }

  function SignalOf(strategy: Strategy, row: FeaturePoint, environment: string): Signal
    requires HasRequiredFeatures(strategy, row.values)
  {
    var m := ManifestOf(strategy);
    var direction := DirectionOf(strategy, row.values);
    Signal(row.time, environment, m.strategyId, row.symbol, row.timeframe, direction,
           ConfidenceOf(strategy, row.values, direction),
           m.stopLossPct, m.takeProfitPct, m.maxPositionPct, row.values)
  }

  /** A signal for every row that carries the required features, in row order. */
  function SignalsOf(strategy: Strategy, rows: seq<FeaturePoint>, environment: string): seq<Signal>
  {
    if rows == [] then []
    else
      var last := rows[|rows| - 1];
      SignalsOf(strategy, rows[..|rows| - 1], environment)
      + if HasRequiredFeatures(strategy, last.values) then [SignalOf(strategy, last, environment)] else []
  }

  function Signals(strategy: Strategy, features: seq<FeaturePoint>, environment: string): seq<Signal>
  {
    if |features| < ManifestOf(strategy).minFeaturePoints then []
    else SignalsOf(strategy, Sorting.Sort(features, PointNotAfter), environment)
  }

  /** The `generate` loop of each strategy. */
  method Generate(strategy: Strategy, features: seq<FeaturePoint>, environment: string)
    returns (signals: seq<Signal>)
    ensures signals == Signals(strategy, features, environment)
  {
    var manifest := ManifestOf(strategy);
    var ordered := Sorting.Sort(features, PointNotAfter);
    if |ordered| < manifest.minFeaturePoints {
      return [];
    }
    signals := [];
    for i := 0 to |ordered|
      invariant signals == SignalsOf(strategy, ordered[..i], environment)
    {
      var row := ordered[i];
      assert ordered[..i + 1][..i] == ordered[..i];
      if HasRequiredFeatures(strategy, row.values) {
        var direction := DirectionOf(strategy, row.values);
        var confidence := ConfidenceOf(strategy, row.values, direction);
        signals := signals + [Signal(row.time, environment, manifest.strategyId, row.symbol, row.timeframe,
                                     direction, confidence, manifest.stopLossPct, manifest.takeProfitPct,
                                     manifest.maxPositionPct, row.values)];
      }
    }
    assert ordered[..|ordered|] == ordered;
  }

  /** Points of time-ordered bars are already in order, so re-sorting them changes nothing. */
  lemma SignalsOfOrdered(strategy: Strategy, ordered: seq<Bar>, featureSet: string, environment: string,
                         root: real -> real)
    requires Sorting.Ascending(ordered, BarNotAfter)
    ensures var points := Points(ordered, featureSet, root);
      Signals(strategy, points, environment)
      == if |ordered| < ManifestOf(strategy).minFeaturePoints then [] else SignalsOf(strategy, points, environment)
  {
    var points := Points(ordered, featureSet, root);
    hide ValuesAt;
    forall i, j | 0 <= i <= j < |points|
      ensures i == j || PointNotAfter(points[i], points[j])
    {
      assert i == j || BarNotAfter(ordered[i], ordered[j]);
    }
    Sorting.SortOfAscending(points, PointNotAfter);
  }

  lemma BarOrderIsTotal()
    ensures Sorting.TotalPreorder(BarNotAfter)
  {}
}
