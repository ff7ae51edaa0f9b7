/** Small vocabulary shared by every module. */
module Basics {
  datatype Option<+T> = None | Some(value: T)

  datatype Result<+T, +E> = Success(value: T) | Failure(error: E)

  function Max(a: real, b: real): real { if a < b then b else a }

  function Min(a: real, b: real): real { if b < a then b else a }

  function Abs(a: real): real { if a < 0.0 then -a else a }

  /** Worth of a quantity at a price. */
  function Value(quantity: real, price: real): real { quantity * price }

  function UpperChar(c: char): char
  {
    if 'a' <= c <= 'z' then (c as int - 'a' as int + 'A' as int) as char else c
  }

  /** `str.upper`, for ASCII letters. */
  function Upper(s: string): (r: string)
    ensures |r| == |s|
  {
    seq(|s|, i requires 0 <= i < |s| => UpperChar(s[i]))
  }

  /** `(a / b)` really is the solution of `x * b == a`. */
  lemma DivideTimes(a: real, b: real)
    requires b != 0.0
    ensures (a / b) * b == a
  {}

  lemma DivideUnique(a: real, b: real, x: real)
    requires b != 0.0
    requires x * b == a
    ensures a / b == x
  {}

  lemma TimesMonotone(a: real, b: real, x: real)
    requires a <= b && 0.0 <= x
    ensures a * x <= b * x
  {}

  lemma SquareNonNegative(a: real)
    ensures 0.0 <= a * a
  {}

  lemma CancelPositive(n: real, a: real)
    requires 0.0 < n
    requires 0.0 <= n * a
    ensures 0.0 <= a
  {}

  lemma NonNegativeProduct(a: real, b: real)
    requires 0.0 <= a && 0.0 <= b
    ensures 0.0 <= a * b
  {}

  lemma PositiveProduct(a: real, b: real)
    requires 0.0 < a && 0.0 < b
    ensures 0.0 < a * b
  {}

  lemma PositiveQuotient(a: real, b: real)
    requires 0.0 < a && 0.0 < b
    ensures 0.0 < a / b
  {}

  lemma SameSign(a: real, scale: real, scaled: real)
    requires 0.0 < scale && a * scale == scaled
    ensures (a < 0.0 <==> scaled < 0.0) && (a > 0.0 <==> scaled > 0.0)
  {}

  lemma QuotientBetween(total: real, n: real, lo: real, hi: real)
    requires 0.0 < n && n * lo <= total <= n * hi
    ensures lo <= total / n <= hi
  {
    DivideTimes(total, n);
    assert n * (total / n - lo) == total - n * lo;
    assert n * (hi - total / n) == n * hi - total;
    CancelPositive(n, total / n - lo);
    CancelPositive(n, hi - total / n);
  }
}
