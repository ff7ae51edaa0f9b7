/** The sign of MACD on monotone price series, of any length. */
module MacdSign {
  import opened Basics
  import opened Sums
  import opened Features
  import Mirror

  ghost predicate Rising(s: seq<real>)
  {
    forall i, j :: 0 <= i <= j < |s| ==> s[i] <= s[j]
  }

  ghost predicate Falling(s: seq<real>)
  {
    forall i, j :: 0 <= i <= j < |s| ==> s[i] >= s[j]
  }

  // ---------------------------------------------------------------- bounds

  lemma StepBetween(ema: real, price: real, k: real, lo: real, hi: real)
    requires 0.0 < k <= 1.0
    requires lo <= ema <= hi && lo <= price <= hi
    ensures lo <= EmaStep(ema, price, k) <= hi
  {
    assert EmaStep(ema, price, k) - lo == (price - lo) * k + (ema - lo) * (1.0 - k);
    assert hi - EmaStep(ema, price, k) == (hi - price) * k + (hi - ema) * (1.0 - k);
    NonNegativeProduct(price - lo, k);
    NonNegativeProduct(ema - lo, 1.0 - k);
    NonNegativeProduct(hi - price, k);
    NonNegativeProduct(hi - ema, 1.0 - k);
  }

  /** An exponential average never leaves the range of the prices it has seen. */
  lemma {:induction false} EmaBetween(prices: seq<real>, period: nat, lo: real, hi: real)
    requires 0 < period <= |prices|
    requires forall i :: 0 <= i < |prices| ==> lo <= prices[i] <= hi
    ensures lo <= EmaOf(prices, period) <= hi
    decreases |prices|
  {
    if |prices| == period {
      MeanBetween(prices, lo, hi);
    } else {
      hide EmaStep;
      EmaBetween(prices[..|prices| - 1], period, lo, hi);
      StepBetween(EmaOf(prices[..|prices| - 1], period), prices[|prices| - 1], Smoothing(period), lo, hi);
    }
  }

  lemma {:induction false} SumBelow(s: seq<real>, hi: real)
    requires s != [] && s[0] < hi
    requires forall i :: 0 <= i < |s| ==> s[i] <= hi
    ensures Sum(s) < |s| as real * hi
  {
    if |s| == 1 {
      assert s[..0] == [];
    } else {
      SumBelow(s[..|s| - 1], hi);
    }
  }

  lemma MeanBelow(s: seq<real>, hi: real)
    requires s != [] && s[0] < hi
    requires forall i :: 0 <= i < |s| ==> s[i] <= hi
    ensures Mean(s) < hi
  {
    SumBelow(s, hi);
    DivideTimes(Sum(s), |s| as real);
  }

  // ---------------------------------------------------------------- fast average against the running mean

  lemma MeanSnoc(s: seq<real>, x: real)
    requires s != []
    ensures Mean(s + [x]) * (|s| as real + 1.0) == Mean(s) * |s| as real + x
  {
    SumSnoc(s, x);
    DivideTimes(Sum(s), |s| as real);
    DivideTimes(Sum(s + [x]), |s| as real + 1.0);
  }

  /** One step: the 12-average moves towards a higher price faster than the mean does. */
  lemma FastStep(ema: real, mean: real, mean': real, n: real, price: real)
    requires 12.0 <= n && mean <= ema <= price
    requires mean' * (n + 1.0) == mean * n + price
    ensures mean' <= EmaStep(ema, price, Smoothing(12))
    ensures mean < price ==> mean' < EmaStep(ema, price, Smoothing(12))
  {
    var k := Smoothing(12);
    assert k == 2.0 / 13.0;
    var gap := EmaStep(ema, price, k) - mean';
    var lead := price - mean;
    assert gap * (n + 1.0) == (1.0 - k) * ((ema - mean) * (n + 1.0)) + lead * (k * (n + 1.0) - 1.0);
    NonNegativeProduct(ema - mean, n + 1.0);
    assert k * (n + 1.0) - 1.0 >= 1.0;
    TimesMonotone(1.0, k * (n + 1.0) - 1.0, lead);
    assert gap * (n + 1.0) >= lead;
    SameSign(gap, n + 1.0, gap * (n + 1.0));
  }

  lemma RisingFront(prices: seq<real>, period: nat)
    requires 0 < period < |prices| && Rising(prices)
    ensures var front, x := prices[..|prices| - 1], prices[|prices| - 1];
      && Rising(front)
      && front[0] <= EmaOf(front, period) <= x
      && forall i :: 0 <= i < |front| ==> front[i] <= x
  {
    hide EmaOf;
    EmaBetween(prices[..|prices| - 1], period, prices[0], prices[|prices| - 1]);
  }

  lemma {:induction false} FastAboveMean(prices: seq<real>)
    requires 12 <= |prices| && Rising(prices)
    ensures Mean(prices) <= EmaOf(prices, 12)
    ensures 13 <= |prices| && prices[0] < prices[|prices| - 1] ==> Mean(prices) < EmaOf(prices, 12)
    decreases |prices|
  {
    hide Mean, EmaStep, Smoothing;
    if 12 < |prices| {
      var front, x := prices[..|prices| - 1], prices[|prices| - 1];
      RisingFront(prices, 12);
      hide Rising;
      FastAboveMean(front);
      assert prices == front + [x];
      MeanSnoc(front, x);
      if prices[0] < x {
        MeanBelow(front, x);
      }
      FastStep(EmaOf(front, 12), Mean(front), Mean(prices), |front| as real, x);
    }
  }

  // ---------------------------------------------------------------- fast average against the slow one

  lemma SlowStep(fast: real, slow: real, price: real)
    requires slow <= fast <= price
    ensures EmaStep(slow, price, Smoothing(26)) <= EmaStep(fast, price, Smoothing(12))
    ensures slow < fast || fast < price ==>
      EmaStep(slow, price, Smoothing(26)) < EmaStep(fast, price, Smoothing(12))
  {
    assert Smoothing(12) == 2.0 / 13.0 && Smoothing(26) == 2.0 / 27.0;
  }

  lemma {:induction false} FastAboveSlow(prices: seq<real>)
    requires 26 <= |prices| && Rising(prices)
    ensures EmaOf(prices, 26) <= EmaOf(prices, 12)
    ensures prices[0] < prices[|prices| - 1] ==> EmaOf(prices, 26) < EmaOf(prices, 12)
    decreases |prices|
  {
    if |prices| == 26 {
      FastAboveMean(prices);
    } else {
      hide EmaStep, Smoothing;
      var front, x := prices[..|prices| - 1], prices[|prices| - 1];
      FastAboveSlow(front);
      EmaBetween(front, 12, front[0], front[|front| - 1]);
      SlowStep(EmaOf(front, 12), EmaOf(front, 26), x);
    }
  }

  // ---------------------------------------------------------------- the sign of MACD

  /** On a non-decreasing series MACD is non-negative, and zero only if nothing ever rose. */
  lemma MacdOfRising(closes: seq<real>, index: nat)
    requires 25 <= index < |closes| && Rising(closes[..index + 1])
    ensures Macd(closes, index).Some?
    ensures Macd(closes, index).value >= 0.0
    ensures Macd(closes, index).value == 0.0 <==> closes[0] == closes[index]
  {
    var prices := closes[..index + 1];
    FastAboveSlow(prices);
    if prices[0] == prices[index] {
      EmaBetween(prices, 12, prices[0], prices[0]);
      EmaBetween(prices, 26, prices[0], prices[0]);
    }
  }

  /** On a non-increasing series MACD is non-positive, and zero only if nothing ever fell. */
  lemma MacdOfFalling(closes: seq<real>, index: nat)
    requires 25 <= index < |closes| && Falling(closes[..index + 1])
    ensures Macd(closes, index).Some?
    ensures Macd(closes, index).value <= 0.0
    ensures Macd(closes, index).value == 0.0 <==> closes[0] == closes[index]
  {
    var down := Reflect(closes, 0.0);
    var prices, fallen := down[..index + 1], closes[..index + 1];
    forall i, j | 0 <= i <= j < |prices|
      ensures prices[i] <= prices[j]
    {
      assert fallen[i] >= fallen[j];
    }
    MacdOfRising(down, index);
    Mirror.MacdReflect(closes, 0.0, index);
  }
}
