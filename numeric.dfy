/**
 * Exact arithmetic behind the pandas numerics the pipeline uses: sums,
 * minimum and maximum, rounding to two decimals (round half to even, as
 * numpy and Python do), and the division whose infinite or NaN result the
 * aggregator replaces by 0.
 */
module Numeric {

  function Sum(s: seq<real>): real {
    if s == [] then 0.0 else s[0] + Sum(s[1..])
  }

  function SumSquares(s: seq<real>): real {
    if s == [] then 0.0 else s[0] * s[0] + SumSquares(s[1..])
  }

  lemma {:induction false} SumAppend(a: seq<real>, b: seq<real>)
    ensures Sum(a + b) == Sum(a) + Sum(b)
  {
    if a == [] {
      assert a + b == b;
    } else {
      assert (a + b)[1..] == a[1..] + b;
      SumAppend(a[1..], b);
    }
  }

  /** A sum of non-negative values is non-negative. */
  lemma {:induction false} SumNonNegative(s: seq<real>)
    requires forall k :: 0 <= k < |s| ==> s[k] >= 0.0
    ensures Sum(s) >= 0.0
  {
    if s != [] {
      SumNonNegative(s[1..]);
    }
  }

  /** A non-empty sum of positive values is positive. */
  lemma {:induction false} SumPositive(s: seq<real>)
    requires s != [] && forall k :: 0 <= k < |s| ==> s[k] > 0.0
    ensures Sum(s) > 0.0
  {
    SumNonNegative(s[1..]);
  }

  /** The sum of squared deviations from `m`. */
  function SumSqDev(s: seq<real>, m: real): real {
    if s == [] then 0.0 else (s[0] - m) * (s[0] - m) + SumSqDev(s[1..], m)
  }

  /** The squared deviations from `m`, expanded: `sum(x^2) - 2 m sum(x) + n m^2`. */
  lemma {:induction false} SumSqDevExpand(s: seq<real>, m: real)
    ensures SumSqDev(s, m) == SumSquares(s) - 2.0 * m * Sum(s) + |s| as real * m * m
  {
    if s != [] {
      var x := s[0];
      var t := s[1..];
      SumSqDevExpand(t, m);
      var n := |t| as real;
      assert SumSqDev(s, m) == (x - m) * (x - m) + SumSqDev(t, m);
      assert SumSqDev(t, m) == SumSquares(t) - 2.0 * m * Sum(t) + n * m * m;
      assert (x - m) * (x - m) == x * x - 2.0 * m * x + m * m;
      assert |s| as real == n + 1.0;
      assert (n + 1.0) * m * m == n * m * m + m * m;
      assert 2.0 * m * Sum(s) == 2.0 * m * x + 2.0 * m * Sum(t);
    }
  }

  /** A sequence of equal values sums to `n c` and its squares to `n c^2`. */
  lemma {:induction false} SumOfConstant(s: seq<real>, c: real)
    requires forall k :: 0 <= k < |s| ==> s[k] == c
    ensures Sum(s) == |s| as real * c
    ensures SumSquares(s) == |s| as real * c * c
  {
    if s != [] {
      SumOfConstant(s[1..], c);
      var n := |s[1..]| as real;
      assert |s| as real * c == n * c + c;
      assert |s| as real * c * c == n * c * c + c * c;
    }
  }

  /** The smallest value of a non-empty sequence (pandas `min`). */
  function MinOf(s: seq<real>): (m: real)
    requires s != []
    ensures m in s
    ensures forall k :: 0 <= k < |s| ==> m <= s[k]
  {
    if |s| == 1 then s[0]
    else
      var rest := MinOf(s[1..]);
      assert forall k :: 1 <= k < |s| ==> s[k] == s[1..][k - 1];
      if s[0] <= rest then s[0] else rest
  }

  /** The largest value of a non-empty sequence (pandas `max`). */
  function MaxOf(s: seq<real>): (m: real)
    requires s != []
    ensures m in s
    ensures forall k :: 0 <= k < |s| ==> s[k] <= m
  {
    if |s| == 1 then s[0]
    else
      var rest := MaxOf(s[1..]);
      assert forall k :: 1 <= k < |s| ==> s[k] == s[1..][k - 1];
      if s[0] >= rest then s[0] else rest
  }

  /** `a / b`, with the infinity or NaN of a zero divisor replaced by 0 (`replace([inf, -inf], nan).fillna(0)`). */
  function SafeDiv(a: real, b: real): (q: real)
    ensures b != 0.0 ==> q * b == a
    ensures b == 0.0 ==> q == 0.0
  {
    if b == 0.0 then 0.0 else a / b
  }

  // ---------------------------------------------------------------------------
  // Rounding to two decimals

  /** `x` is a whole number of hundredths. */
  predicate IsCents(x: real) {
    (x * 100.0).Floor as real == x * 100.0
  }

  /** The whole number of hundredths nearest to `x`, ties to the even neighbour. */
  function RoundHalfEvenCents(x: real): (n: int)
    ensures -0.5 <= n as real - x * 100.0 <= 0.5
  {
    var y := x * 100.0;
    var f := y.Floor;
    var frac := y - f as real;
    if frac < 0.5 then f
    else if frac > 0.5 then f + 1
    else if f % 2 == 0 then f
    else f + 1
  }

  /** `round(x, 2)`: the nearest hundredth, ties to even. */
  function Round2(x: real): (r: real)
    ensures IsCents(r)
    ensures -0.005 <= r - x <= 0.005
  {
    var n := RoundHalfEvenCents(x);
    var r := n as real / 100.0;
    assert r * 100.0 == n as real;
    assert (n as real).Floor == n;
    r
  }

  /** Rounding leaves an amount that is already whole hundredths unchanged. */
  lemma Round2OfCents(x: real)
    requires IsCents(x)
    ensures Round2(x) == x
  {
    var y := x * 100.0;
    assert y - y.Floor as real == 0.0;
    assert RoundHalfEvenCents(x) == y.Floor;
  }

  /** Rounding never crosses a whole number of hundredths: a bound in cents is kept. */
  lemma Round2Bounds(x: real, lo: real, hi: real)
    requires IsCents(lo) && IsCents(hi) && lo <= x <= hi
    ensures lo <= Round2(x) <= hi
  {
    var y := x * 100.0;
    var f := y.Floor;
    var l := (lo * 100.0).Floor;
    var h := (hi * 100.0).Floor;
    assert l as real == lo * 100.0 && h as real == hi * 100.0;
    assert l <= f <= h;
    var n := RoundHalfEvenCents(x);
    assert n == f || n == f + 1;
    if n == f + 1 {
      assert y > f as real;
      assert f < h;
    }
    assert n as real / 100.0 >= l as real / 100.0;
    assert n as real / 100.0 <= h as real / 100.0;
  }

  /** A non-negative amount below half a cent rounds to zero. */
  lemma Round2OfSubCent(x: real)
    requires 0.0 <= x < 0.005
    ensures Round2(x) == 0.0
  {
    assert (x * 100.0).Floor == 0;
  }

  /** Ties go to the even hundredth: 0.005 rounds down to 0.00 and 0.015 up to 0.02. */
  lemma Round2Ties()
    ensures Round2(0.005) == 0.0
    ensures Round2(0.015) == 0.02
  {
    assert (0.005 * 100.0).Floor == 0;
    assert (0.015 * 100.0).Floor == 1;
  }
}
