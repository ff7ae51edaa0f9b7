/** Sums and means of price windows, and how reflecting a price series moves them. */
module Sums {
  import opened Basics

  function Sum(s: seq<real>): real
  {
    if s == [] then 0.0 else Sum(s[..|s| - 1]) + s[|s| - 1]
  }

  function Mean(s: seq<real>): real
    requires s != []
  {
    Sum(s) / |s| as real
  }

  function Square(a: real): (r: real)
    ensures 0.0 <= r
  {
    a * a
  }

  /** Squared deviations from `centre`. */
  function Squares(s: seq<real>, centre: real): (r: seq<real>)
    ensures |r| == |s|
    ensures forall i :: 0 <= i < |s| ==> r[i] == Square(s[i] - centre)
  {
    seq(|s|, i requires 0 <= i < |s| => Square(s[i] - centre))
  }

  /** Population variance: the square of `statistics.pstdev`. */
  function Variance(s: seq<real>): real
    requires s != []
  {
    Mean(Squares(s, Mean(s)))
  }

  /** `root` behaves as a square root on the variances it is applied to. */
  ghost predicate IsSquareRoot(root: real -> real)
  {
    forall v {:trigger root(v)} :: 0.0 <= v ==> 0.0 <= root(v) && root(v) * root(v) == v
  }

  /** Every price `p` becomes `c - p`. */
  function Reflect(s: seq<real>, c: real): (r: seq<real>)
    ensures |r| == |s|
    ensures forall i :: 0 <= i < |s| ==> r[i] == c - s[i]
  {
    seq(|s|, i requires 0 <= i < |s| => c - s[i])
  }

  lemma SumSnoc(s: seq<real>, x: real)
    ensures Sum(s + [x]) == Sum(s) + x
  {
    assert (s + [x])[..|s|] == s;
  }

  lemma {:induction false} SumReflect(s: seq<real>, c: real)
    ensures Sum(Reflect(s, c)) == |s| as real * c - Sum(s)
  {
    if s != [] {
      SumReflect(s[..|s| - 1], c);
      assert Reflect(s, c)[..|s| - 1] == Reflect(s[..|s| - 1], c);
    }
  }

  lemma MeanReflect(s: seq<real>, c: real)
    requires s != []
    ensures Mean(Reflect(s, c)) == c - Mean(s)
  {
    SumReflect(s, c);
    DivideTimes(Sum(s), |s| as real);
    DivideUnique(|s| as real * c - Sum(s), |s| as real, c - Mean(s));
  }

  lemma ReflectSlice(s: seq<real>, c: real, lo: int, hi: int)
    requires 0 <= lo <= hi <= |s|
    ensures Reflect(s, c)[lo..hi] == Reflect(s[lo..hi], c)
  {}

  lemma VarianceReflect(s: seq<real>, c: real)
    requires s != []
    ensures Variance(Reflect(s, c)) == Variance(s)
  {
    MeanReflect(s, c);
    var m := Mean(s);
    forall i | 0 <= i < |s|
      ensures Squares(Reflect(s, c), c - m)[i] == Squares(s, m)[i]
    {
      assert Reflect(s, c)[i] - (c - m) == -(s[i] - m);
    }
    assert Squares(Reflect(s, c), c - m) == Squares(s, m);
  }

  lemma {:induction false} SumNonNegative(s: seq<real>)
    requires forall i :: 0 <= i < |s| ==> 0.0 <= s[i]
    ensures 0.0 <= Sum(s)
    ensures forall i :: 0 <= i < |s| ==> s[i] <= Sum(s)
  {
    if s != [] {
      SumNonNegative(s[..|s| - 1]);
      assert forall i :: 0 <= i < |s| - 1 ==> s[i] == s[..|s| - 1][i];
    }
  }

  lemma VarianceNonNegative(s: seq<real>)
    requires s != []
    ensures 0.0 <= Variance(s)
  {
    SumNonNegative(Squares(s, Mean(s)));
  }

  lemma {:induction false} SumBetween(s: seq<real>, lo: real, hi: real)
    requires forall i :: 0 <= i < |s| ==> lo <= s[i] <= hi
    ensures |s| as real * lo <= Sum(s) <= |s| as real * hi
  {
    if s != [] {
      SumBetween(s[..|s| - 1], lo, hi);
    }
  }

  lemma MeanBetween(s: seq<real>, lo: real, hi: real)
    requires s != []
    requires forall i :: 0 <= i < |s| ==> lo <= s[i] <= hi
    ensures lo <= Mean(s) <= hi
  {
    SumBetween(s, lo, hi);
    QuotientBetween(Sum(s), |s| as real, lo, hi);
  }

  lemma SquaresSnoc(s: seq<real>, x: real, centre: real)
    ensures Sum(Squares(s + [x], centre)) == Sum(Squares(s, centre)) + Square(x - centre)
  {
    assert Squares(s + [x], centre) == Squares(s, centre) + [Square(x - centre)];
    SumSnoc(Squares(s, centre), Square(x - centre));
  }

  /** Sum of the deviations from `centre`. */
  function Excess(s: seq<real>, centre: real): real
  {
    if s == [] then 0.0 else Excess(s[..|s| - 1], centre) + (s[|s| - 1] - centre)
  }

  lemma ExcessSnoc(s: seq<real>, x: real, centre: real)
    ensures Excess(s + [x], centre) == Excess(s, centre) + (x - centre)
  {
    assert (s + [x])[..|s|] == s;
  }

  lemma {:induction false} ExcessOfSum(s: seq<real>, centre: real)
    ensures Excess(s, centre) == Sum(s) - |s| as real * centre
  {
    if s != [] {
      ExcessOfSum(s[..|s| - 1], centre);
    }
  }

  /** Cauchy-Schwarz against the constant sequence: the square of a sum is at
      most the number of terms times the sum of their squares. */
  predicate CauchySchwarz(s: seq<real>, centre: real)
  {
    Square(Excess(s, centre)) <= |s| as real * Sum(Squares(s, centre))
  }

  lemma {:induction false} SquareOfExcess(s: seq<real>, centre: real)
    ensures CauchySchwarz(s, centre)
  {
    if s == [] {
      assert Excess(s, centre) == 0.0;
    } else {
      hide CauchySchwarz;
      SquareOfExcess(s[..|s| - 1], centre);
      SquareOfExcessStep(s[..|s| - 1], s[|s| - 1], centre);
      assert s[..|s| - 1] + [s[|s| - 1]] == s;
    }
  }

  lemma SquareOfExcessBound(s: seq<real>, centre: real)
    ensures Square(Excess(s, centre)) <= |s| as real * Sum(Squares(s, centre))
  {
    SquareOfExcess(s, centre);
    hide Square, Excess, Sum, Squares;
  }

  lemma SquareOfExcessStep(t: seq<real>, x: real, centre: real)
    requires CauchySchwarz(t, centre)
    ensures CauchySchwarz(t + [x], centre)
  {
    hide Square, Excess, Sum, Squares;
    var e, q := Excess(t, centre), Sum(Squares(t, centre));
    ExcessSnoc(t, x, centre);
    SquaresSnoc(t, x, centre);
    SumNonNegative(Squares(t, centre));
    SumOfSquaresStep(e, |t| as real, q, x - centre);
    var e', n', q' := Excess(t + [x], centre), |t + [x]| as real, Sum(Squares(t + [x], centre));
    assert e' == e + (x - centre);
    assert n' == |t| as real + 1.0;
    assert q' == q + Square(x - centre);
  }

  lemma SumOfSquaresStep(a: real, n: real, q: real, x: real)
    requires 0.0 <= n && 0.0 <= q && Square(a) <= n * q
    ensures Square(a + x) <= (n + 1.0) * (q + Square(x))
  {
    SquareOfSum(a, x);
    OneMoreTimes(n, q, Square(x));
    if n == 0.0 {
      assert n * q == 0.0 && n * Square(x) == 0.0;
      OnlyZeroSquaresToZero(a);
      assert a * x == 0.0;
    } else {
      SquareOfGap(n, a, x);
      ScaledGap(n, q, Square(x), a * x, Square(a), Square(n * x - a));
    }
    hide Square;
  }

  lemma SquareOfSum(a: real, x: real)
    ensures Square(a + x) == Square(a) + 2.0 * (a * x) + Square(x)
  {}

  lemma OneMoreTimes(n: real, q: real, y: real)
    ensures (n + 1.0) * (q + y) == n * q + n * y + q + y
  {}

  lemma SquareOfGap(n: real, a: real, x: real)
    ensures Square(n * x - a) == n * (n * Square(x)) - 2.0 * (n * (a * x)) + Square(a)
  {}

  lemma ScaledGap(n: real, q: real, xx: real, ax: real, aa: real, gg: real)
    requires 0.0 < n && aa <= n * q && 0.0 <= gg
    requires gg == n * (n * xx) - 2.0 * (n * ax) + aa
    ensures 2.0 * ax <= n * xx + q
  {
    assert n * (n * xx + q - 2.0 * ax) == n * (n * xx) + n * q - 2.0 * (n * ax);
    CancelPositive(n, n * xx + q - 2.0 * ax);
  }

  lemma OnlyZeroSquaresToZero(a: real)
    requires Square(a) <= 0.0
    ensures a == 0.0
  {
    if a != 0.0 {
      SquareNonNegative(a);
      DivideUnique(a * a, a, a);
    }
  }
}
