/** Bounds on %B that hold for every price window, and what they mean for the
    mean-reversion strategy. */
module PercentB {
  import opened Basics
  import opened Sums
  import opened Features
  import opened Strategies

  /** The last `m` entries of `w` all equal its last entry. */
  predicate FlatTail(w: seq<real>, m: nat)
    requires 1 <= m <= |w|
  {
    forall i :: |w| - m <= i < |w| ==> w[i] == w[|w| - 1]
  }

  lemma {:induction false} TailSum(s: seq<real>, m: nat, x: real)
    requires m <= |s|
    requires forall i :: |s| - m <= i < |s| ==> s[i] == x
    ensures Sum(s) == Sum(s[..|s| - m]) + m as real * x
  {
    if m == 0 {
      assert s[..|s|] == s;
    } else {
      var t := s[..|s| - 1];
      assert Sum(s) == Sum(t) + x;
      assert t[..|t| - (m - 1)] == s[..|s| - m];
      hide Sum;
      TailSum(t, m - 1, x);
      OneMore((m - 1) as real, x);
      assert (m - 1) as real + 1.0 == m as real;
    }
  }

  lemma OneMore(n: real, a: real)
    ensures (n + 1.0) * a == n * a + a
  {}

  lemma ExcessOverMean(w: seq<real>)
    requires w != []
    ensures Excess(w, Mean(w)) == 0.0
  {
    ExcessOfSum(w, Mean(w));
    DivideTimes(Sum(w), |w| as real);
  }

  lemma TailExcess(w: seq<real>, m: nat, centre: real, d: real)
    requires m <= |w|
    requires forall i :: |w| - m <= i < |w| ==> w[i] == centre + d
    ensures Excess(w, centre) == Excess(w[..|w| - m], centre) + m as real * d
  {
    hide Excess, Sum;
    var head := w[..|w| - m];
    ExcessOfSum(w, centre);
    ExcessOfSum(head, centre);
    TailSum(w, m, centre + d);
    SplitTerms(|head| as real, m as real, centre, d);
    assert |head| as real + m as real == |w| as real;
  }

  lemma SplitTerms(h: real, m: real, c: real, d: real)
    ensures (h + m) * c == h * c + m * c
    ensures m * (c + d) == m * c + m * d
  {}

  lemma TailSquares(w: seq<real>, m: nat, centre: real, d: real)
    requires m <= |w|
    requires forall i :: |w| - m <= i < |w| ==> w[i] == centre + d
    ensures Sum(Squares(w, centre)) == Sum(Squares(w[..|w| - m], centre)) + m as real * Square(d)
  {
    hide *;
    forall i | |w| - m <= i < |w|
      ensures Squares(w, centre)[i] == Square(d)
    {
      assert w[i] - centre == d;
    }
    assert Squares(w, centre)[..|w| - m] == Squares(w[..|w| - m], centre);
    TailSum(Squares(w, centre), m, Square(d));
  }

  /** The block's deviation `d` from a centre that balances the window. */
  lemma TailDeviationAbout(w: seq<real>, m: nat, centre: real, d: real)
    requires m <= |w|
    requires forall i :: |w| - m <= i < |w| ==> w[i] == centre + d
    requires Excess(w, centre) == 0.0
    ensures |w| as real * (m as real * Square(d)) <= (|w| - m) as real * Sum(Squares(w, centre))
  {
    hide *;
    var head := w[..|w| - m];
    TailExcess(w, m, centre, d);
    TailSquares(w, m, centre, d);
    SquareOfExcessBound(head, centre);
    Rearrange(Excess(head, centre), Sum(Squares(head, centre)), m as real, |head| as real,
              d, |w| as real, Sum(Squares(w, centre)));
  }

  lemma Rearrange(e: real, q: real, m: real, h: real, d: real, n: real, total: real)
    requires n == m + h && total == q + m * Square(d)
    requires e + m * d == 0.0
    requires Square(e) <= h * q
    ensures n * (m * Square(d)) <= h * total
  {
    assert e == -(m * d);
    assert Square(e) == m * (m * Square(d));
  }

  /** Samuelson's inequality, for a block of `m` equal closes at the end of the
      window: `m * d^2 <= (n - m) * variance`. With `m == 1` it bounds the
      deviation of the last close alone. */
  lemma TailDeviation(w: seq<real>, m: nat)
    requires 1 <= m <= |w| && FlatTail(w, m)
    ensures m as real * Square(w[|w| - 1] - Mean(w)) <= (|w| - m) as real * Variance(w)
  {
    ExcessOverMean(w);
    TailDeviationAbout(w, m, Mean(w), w[|w| - 1] - Mean(w));
    DivideBoth(m as real * Square(w[|w| - 1] - Mean(w)), (|w| - m) as real, Sum(Squares(w, Mean(w))), |w| as real);
  }

  lemma DivideBoth(a: real, h: real, total: real, n: real)
    requires 0.0 < n && n * a <= h * total
    ensures a <= h * (total / n)
  {
    DivideTimes(total, n);
    assert n * (h * (total / n) - a) == h * total - n * a;
    CancelPositive(n, h * (total / n) - a);
  }

  /** %B measures the distance of the close from the mean in units of four
      standard deviations. */
  lemma PctBIsDeviation(closes: seq<real>, index: nat, root: real -> real)
    requires index < |closes| && IsSquareRoot(root)
    requires BbPctB(closes, index, 20, 2.0, root).Some?
    ensures 19 <= index
    ensures var w := Window(closes, index, 20);
      && 0.0 < root(Variance(w))
      && root(Variance(w)) * root(Variance(w)) == Variance(w)
      && (BbPctB(closes, index, 20, 2.0, root).value - 0.5) * (4.0 * root(Variance(w)))
         == closes[index] - Mean(w)
  {
    var w := Window(closes, index, 20);
    VarianceNonNegative(w);
    var mid, std := Mean(w), root(Variance(w));
    DivideTimes(closes[index] - (mid - 2.0 * std), (mid + 2.0 * std) - (mid - 2.0 * std));
  }

  /** Whenever it is defined, %B lies within `sqrt(19)/4` of one half. */
  lemma PctBBound(closes: seq<real>, index: nat, root: real -> real)
    requires index < |closes| && IsSquareRoot(root)
    requires BbPctB(closes, index, 20, 2.0, root).Some?
    ensures Square(BbPctB(closes, index, 20, 2.0, root).value - 0.5) <= 19.0 / 16.0
  {
    PctBIsDeviation(closes, index, root);
    var w := Window(closes, index, 20);
    TailDeviation(w, 1);
    ScaleDown(BbPctB(closes, index, 20, 2.0, root).value - 0.5, root(Variance(w)), closes[index] - Mean(w),
              1.0, 19.0, Variance(w));
  }

  /** A flat run of 14 closes keeps %B strictly inside the 0.2 / 0.8 thresholds. */
  lemma FlatRunKeepsPctBInside(closes: seq<real>, index: nat, root: real -> real)
    requires index < |closes| && IsSquareRoot(root)
    requires BbPctB(closes, index, 20, 2.0, root).Some?
    requires 13 <= index && FlatTail(Window(closes, index, 14), 14)
    ensures BB_LOWER < BbPctB(closes, index, 20, 2.0, root).value < BB_UPPER
  {
    PctBIsDeviation(closes, index, root);
    var w, f := Window(closes, index, 20), Window(closes, index, 14);
    forall i | 6 <= i < 20
      ensures w[i] == w[19]
    {
      assert w[i] == f[i - 6];
    }
    TailDeviation(w, 14);
    var b := BbPctB(closes, index, 20, 2.0, root).value - 0.5;
    ScaleDown(b, root(Variance(w)), closes[index] - Mean(w), 14.0, 6.0, Variance(w));
    InsideSquare(b, 0.3);
  }

  lemma ScaleDown(b: real, s: real, d: real, m: real, h: real, v: real)
    requires 0.0 < s && Square(s) == v
    requires b * (4.0 * s) == d
    requires m * Square(d) <= h * v
    ensures 16.0 * m * Square(b) <= h
  {
    SquareOfProduct(b, s, d);
    PositiveSquare(s);
    hide Square;
    ScaleOut(m, Square(b), Square(d), h, v);
  }

  lemma SquareOfProduct(b: real, s: real, d: real)
    requires b * (4.0 * s) == d
    ensures Square(d) == 16.0 * Square(b) * Square(s)
  {
    assert d == 4.0 * (b * s);
    assert Square(d) == 16.0 * ((b * s) * (b * s));
  }

  lemma ScaleOut(m: real, bb: real, dd: real, h: real, v: real)
    requires 0.0 < v
    requires dd == 16.0 * bb * v && m * dd <= h * v
    ensures 16.0 * m * bb <= h
  {
    assert v * (h - 16.0 * m * bb) == h * v - m * dd;
    CancelPositive(v, h - 16.0 * m * bb);
  }

  lemma PositiveSquare(s: real)
    requires 0.0 < s
    ensures 0.0 < Square(s)
  {
    if Square(s) <= 0.0 {
      OnlyZeroSquaresToZero(s);
    }
  }

  lemma InsideSquare(b: real, limit: real)
    requires 0.0 < limit && Square(b) < Square(limit)
    ensures -limit < b < limit
  {}

  lemma PctBSign(closes: seq<real>, index: nat, root: real -> real)
    requires index < |closes| && IsSquareRoot(root)
    requires BbPctB(closes, index, 20, 2.0, root).Some?
    ensures 19 <= index
    ensures var b, mean := BbPctB(closes, index, 20, 2.0, root).value, Mean(Window(closes, index, 20));
      (b < 0.5 <==> closes[index] < mean) && (b > 0.5 <==> closes[index] > mean)
  {
    PctBIsDeviation(closes, index, root);
    var w := Window(closes, index, 20);
    SameSign(BbPctB(closes, index, 20, 2.0, root).value - 0.5, 4.0 * root(Variance(w)), closes[index] - Mean(w));
  }

  /** On features made by the engine the close-versus-SMA clause is implied by
      the %B clause, so RSI and %B alone decide. */
  lemma RsiAndPctBDecide(closes: seq<real>, index: nat, root: real -> real)
    requires index < |closes| && IsSquareRoot(root)
    ensures var v := ValuesAt(closes, index, root);
      HasRequiredFeatures(MeanReversion, v) ==>
        && (ReversionDirection(v) == BUY <==> v.rsi14.value < RSI_OVERSOLD && v.bbPctB.value < BB_LOWER)
        && (ReversionDirection(v) == SELL <==> v.rsi14.value > RSI_OVERBOUGHT && v.bbPctB.value > BB_UPPER)
  {
    if HasRequiredFeatures(MeanReversion, ValuesAt(closes, index, root)) {
      PctBSign(closes, index, root);
    }
  }
}
