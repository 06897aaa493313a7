/**
 Number handling used by the detection stabiliser: JavaScript's `Math.round`,
 the sums behind the `reduce((a, b) => a + b, 0)` calls, and means.
 All arithmetic is exact (`int` and `real`), not IEEE doubles.
 */
module Numeric {

  function Abs(r: real): (a: real)
    ensures a >= 0.0
    ensures a == r || a == -r
  {
    if r < 0.0 then -r else r
  }

  /** JavaScript's `Math.round`: the nearest integer, halves rounded towards +infinity. */
  function JsRound(r: real): (k: int)
    ensures k as real - 0.5 <= r < k as real + 0.5
  {
    (r + 0.5).Floor
  }

  /** Left-to-right sum of integers, as `reduce((a, b) => a + b, 0)`. */
  function SumInt(xs: seq<int>): int
  {
    if xs == [] then 0 else SumInt(xs[..|xs| - 1]) + xs[|xs| - 1]
  }

  lemma {:induction false} SumIntAppend(xs: seq<int>, ys: seq<int>)
    ensures SumInt(xs + ys) == SumInt(xs) + SumInt(ys)
    decreases |ys|
  {
    if ys != [] {
      var init := ys[..|ys| - 1];
      SumIntAppend(xs, init);
      assert (xs + ys)[..|xs + ys| - 1] == xs + init;
    } else {
      assert xs + ys == xs;
    }
  }

  lemma {:induction false} SumIntConstant(xs: seq<int>, v: int)
    requires forall i :: 0 <= i < |xs| ==> xs[i] == v
    ensures SumInt(xs) == |xs| * v
  {
    if xs != [] {
      SumIntConstant(xs[..|xs| - 1], v);
    }
  }

  /** Left-to-right sum of reals. */
  function Sum(xs: seq<real>): real
  {
    if xs == [] then 0.0 else Sum(xs[..|xs| - 1]) + xs[|xs| - 1]
  }

  function Mean(xs: seq<real>): real
    requires |xs| > 0
  {
    Sum(xs) / |xs| as real
  }

  /** `Math.round(sum / length)` of a non-empty list of integers: the integer
      nearest to the mean, characterised without division. */
  function RoundedMean(xs: seq<int>): (m: int)
    requires |xs| > 0
    ensures (2 * m - 1) * |xs| <= 2 * SumInt(xs) < (2 * m + 1) * |xs|
  {
    var s, n := SumInt(xs), |xs|;
    var m := JsRound(s as real / n as real);
    DivLe(m as real - 0.5, s as real, n as real);
    DivLt(s as real, m as real + 0.5, n as real);
    HalfBounds(s, n, m);
    m
  }

  /** `m` within a half of `s / n`, scaled by `2 * n` into integers. */
  lemma HalfBounds(s: int, n: int, m: int)
    requires (m as real - 0.5) * n as real <= s as real < (m as real + 0.5) * n as real
    ensures (2 * m - 1) * n <= 2 * s < (2 * m + 1) * n
  {
    CastMul(2 * m - 1, n);
    CastMul(2 * m + 1, n);
    assert (2 * m - 1) as real * n as real == 2.0 * ((m as real - 0.5) * n as real);
    assert (2 * m + 1) as real * n as real == 2.0 * ((m as real + 0.5) * n as real);
  }

  lemma DivLe(a: real, s: real, n: real)
    requires n > 0.0 && a <= s / n
    ensures a * n <= s
  {
    MulLe(a, s / n, n);
  }

  lemma DivLt(s: real, b: real, n: real)
    requires n > 0.0 && s / n < b
    ensures s < b * n
  {
    MulStrict(s / n, b, n);
  }

  lemma CastMul(a: int, b: int)
    ensures (a * b) as real == a as real * b as real
  {
  }

  lemma MulLe(a: real, b: real, n: real)
    requires a <= b && n >= 0.0
    ensures a * n <= b * n
  {
    assert (b - a) * n >= 0.0;
  }

  lemma MulStrict(a: real, b: real, n: real)
    requires a < b && n > 0.0
    ensures a * n < b * n
  {
    assert (b - a) * n > 0.0;
  }

  lemma IntMulLe(a: int, b: int, n: int)
    requires a <= b && n >= 0
    ensures a * n <= b * n
  {
    assert (b - a) * n >= 0;
  }

  /** Integer division `q` is fixed by `q * b <= a < q * b + b`. */
  lemma DivUnique(a: int, b: int, q: int)
    requires b > 0
    requires q * b <= a < q * b + b
    ensures a / b == q
  {
    var d, r := a / b, a % b;
    assert d * b + r == a && 0 <= r < b;
    if d > q {
      IntMulLe(q + 1, d, b);
    } else if d < q {
      IntMulLe(d + 1, q, b);
    }
  }

  /** The rounded mean equals the all-integer formula `(2 * sum + n) / (2 * n)`. */
  lemma RoundedMeanFormula(xs: seq<int>)
    requires |xs| > 0
    ensures RoundedMean(xs) == (2 * SumInt(xs) + |xs|) / (2 * |xs|)
  {
    var m, n, s := RoundedMean(xs), |xs|, SumInt(xs);
    assert (2 * m - 1) * n == m * (2 * n) - n;
    assert (2 * m + 1) * n == m * (2 * n) + n;
    DivUnique(2 * s + n, 2 * n, m);
  }

  /** The rounded mean exceeds a threshold `t` exactly when the sum reaches
      `(t + 1/2) * n`: a mean of `t + 0.5` already rounds up past `t`. */
  lemma RoundedMeanAbove(xs: seq<int>, t: int)
    requires |xs| > 0
    ensures RoundedMean(xs) > t <==> 2 * SumInt(xs) >= (2 * t + 1) * |xs|
  {
    var m := RoundedMean(xs);
    if m > t {
      IntMulLe(2 * t + 1, 2 * m - 1, |xs|);
    } else {
      IntMulLe(2 * m + 1, 2 * t + 1, |xs|);
    }
  }

  /** A list of equal integers rounds to that integer. */
  lemma RoundedMeanConstant(xs: seq<int>, v: int)
    requires |xs| > 0
    requires forall i :: 0 <= i < |xs| ==> xs[i] == v
    ensures RoundedMean(xs) == v
  {
    SumIntConstant(xs, v);
    var m, n := RoundedMean(xs), |xs|;
    if m < v {
      IntMulLe(2 * m + 1, 2 * v - 1, n);
    } else if m > v {
      IntMulLe(2 * v + 1, 2 * m - 1, n);
    }
  }

  /** Every term within `[lo, hi]` bounds the sum by `n * lo` and `n * hi`. */
  lemma {:induction false} SumBounds(xs: seq<real>, lo: real, hi: real)
    requires forall i :: 0 <= i < |xs| ==> lo <= xs[i] <= hi
    ensures |xs| as real * lo <= Sum(xs) <= |xs| as real * hi
  {
    if xs != [] {
      var init := xs[..|xs| - 1];
      SumBounds(init, lo, hi);
      assert |xs| as real * lo == |init| as real * lo + lo;
      assert |xs| as real * hi == |init| as real * hi + hi;
    }
  }

  /** Every term strictly inside `(lo, hi)` keeps a non-empty sum strictly inside. */
  lemma {:induction false} SumStrictBounds(xs: seq<real>, lo: real, hi: real)
    requires |xs| > 0
    requires forall i :: 0 <= i < |xs| ==> lo < xs[i] < hi
    ensures |xs| as real * lo < Sum(xs) < |xs| as real * hi
  {
    var init := xs[..|xs| - 1];
    if init == [] {
      assert Sum(xs) == xs[0];
    } else {
      SumStrictBounds(init, lo, hi);
      assert |xs| as real * lo == |init| as real * lo + lo;
      assert |xs| as real * hi == |init| as real * hi + hi;
    }
  }

  /** The mean lies between any lower and upper bound of the terms. */
  lemma MeanBounds(xs: seq<real>, lo: real, hi: real)
    requires |xs| > 0
    requires forall i :: 0 <= i < |xs| ==> lo <= xs[i] <= hi
    ensures lo <= Mean(xs) <= hi
  {
    SumBounds(xs, lo, hi);
    var n := |xs| as real;
    assert Mean(xs) * n == Sum(xs);
  }

  /** The mean lies strictly inside any open interval holding every term. */
  lemma MeanStrictBounds(xs: seq<real>, lo: real, hi: real)
    requires |xs| > 0
    requires forall i :: 0 <= i < |xs| ==> lo < xs[i] < hi
    ensures lo < Mean(xs) < hi
  {
    SumStrictBounds(xs, lo, hi);
    var n := |xs| as real;
    assert Mean(xs) * n == Sum(xs);
  }
}
