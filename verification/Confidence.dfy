/** How confident the strategies are, and in what. */
module Confidence {
  import opened Basics
  import opened Features
  import opened Strategies

  /** Mean reversion starts at one half and gains a quarter over the whole range of
      RSI beyond its threshold, and another one for each 0.2 of %B beyond its own. */
  lemma ReversionConfidenceReads(v: Values, rsi: real, pctB: real)
    requires v.rsi14 == Some(rsi) && v.bbPctB == Some(pctB)
    ensures rsi <= 35.0 && pctB <= 0.2 ==>
      ReversionConfidence(v, BUY) == Min(1.0, 0.5 + (35.0 - rsi) / 140.0 + (0.2 - pctB) / 0.8)
    ensures 65.0 <= rsi && 0.8 <= pctB ==>
      ReversionConfidence(v, SELL) == Min(1.0, 0.5 + (rsi - 65.0) / 140.0 + (pctB - 0.8) / 0.8)
    ensures ReversionConfidence(v, HOLD) == 0.5
  {}

  /** What volatility takes off trend following's confidence. */
  function Penalty(vol: real): real { Min(0.3, 50.0 * vol) }

  /** Trend following is at its most confident once the close is 0.3 percent and the
      short mean 0.2 percent from the long one, and at one half when they coincide,
      less the penalty for volatility in both cases. */
  lemma TrendConfidenceReads(v: Values, sma3: real, sma5: real, vol: real)
    requires 0.0 < v.close && 0.0 < sma3 && 0.0 < sma5 && 0.0 <= vol
    requires v.sma3 == Some(sma3) && v.sma5 == Some(sma5) && v.volatility5 == Some(vol)
    ensures 0.003 * sma5 <= Abs(v.close - sma5) && 0.002 * sma5 <= Abs(sma3 - sma5) ==>
      TrendConfidence(v) == Min(1.0, 1.1 - Penalty(vol))
    ensures v.close == sma3 == sma5 ==> TrendConfidence(v) == 0.5 - Penalty(vol)
    ensures v.close == sma5 && 0.002 * sma5 <= Abs(sma3 - sma5) ==> TrendConfidence(v) == 0.75 - Penalty(vol)
    ensures 0.003 * sma5 <= Abs(v.close - sma5) && sma3 == sma5 ==> TrendConfidence(v) == 0.85 - Penalty(vol)
  {
    ScoreOf(Abs(v.close - sma5), sma5, 0.003);
    ScoreOf(Abs(sma3 - sma5), sma5, 0.002);
    var p, s := Abs(v.close - sma5) / sma5, Abs(sma3 - sma5) / sma5;
    assert TrendConfidence(v)
        == Clamp(0.5 + Min(1.0, p / 0.003) * 0.35 + Min(1.0, s / 0.002) * 0.25 - Min(0.3, vol * 50.0));
    hide TrendConfidence;
  }

  /** A gap scores fully from `step` times the base on, and nothing when it is zero. */
  lemma ScoreOf(gap: real, base: real, step: real)
    requires 0.0 <= gap && 0.0 < base && 0.0 < step
    ensures step * base <= gap ==> Min(1.0, gap / base / step) == 1.0
    ensures gap == 0.0 ==> Min(1.0, gap / base / step) == 0.0
  {
    DivideTimes(gap, base);
    DivideTimes(gap / base, step);
    if gap == 0.0 {
      DivideUnique(gap, base, 0.0);
      DivideUnique(0.0, step, 0.0);
    }
    if step * base <= gap {
      AtLeast(gap / base, base, step);
      AtLeast(gap / base / step, step, 1.0);
    }
  }

  lemma AtLeast(x: real, n: real, low: real)
    requires 0.0 < n && low * n <= x * n
    ensures low <= x
  {
    CancelPositive(n, x - low);
  }

  /** Momentum gains 0.3 once the histogram reaches a thousandth of the close, and
      0.2 for RSI at the far end of its zone. */
  lemma MomentumConfidenceReads(v: Values, hist: real, rsi: real)
    requires 0.0 < v.close && v.macdHist == Some(hist) && v.rsi14 == Some(rsi)
    ensures 0.001 * v.close <= Abs(hist) ==>
      && (50.0 <= rsi <= 72.0 ==> MomentumConfidence(v, BUY) == 0.8 + (rsi - 50.0) / 110.0)
      && (0.0 < rsi < 50.0 ==> MomentumConfidence(v, BUY) == 0.8)
      && (28.0 <= rsi <= 50.0 ==> MomentumConfidence(v, SELL) == 0.8 + (50.0 - rsi) / 110.0)
      && (50.0 < rsi ==> MomentumConfidence(v, SELL) == 0.8)
    ensures hist == 0.0 && 50.0 <= rsi <= 72.0 ==> MomentumConfidence(v, BUY) == 0.5 + (rsi - 50.0) / 110.0
    ensures MomentumConfidence(v, HOLD) == 0.5
  {
    ScoreOf(Abs(hist), v.close, 0.001);
    var q := Abs(hist) / v.close;
    forall direction | direction != HOLD
      ensures MomentumConfidence(v, direction) == MomentumScore(Min(1.0, q / 0.001), if rsi == 0.0 then 50.0
          else rsi, direction)
    {}
    hide MomentumConfidence;
  }

  function MomentumScore(score: real, rsi: real, direction: Direction): real
  {
    Clamp(0.5 + score * 0.30
          + (if direction == BUY then Max(0.0, (rsi - 50.0) / 22.0) else Max(0.0, (50.0 - rsi) / 22.0)) * 0.20)
  }
}
