/** Real-number stand-ins for the floating-point operations the feature extractor
    and the classifier take from numpy, and the sums, means and extrema they use. */
module Numerics {

  /** numpy's exp, sqrt and isfinite, supplied by the platform rather than defined here. */
  datatype FloatOps = FloatOps(exp: real -> real, sqrt: real -> real, isFinite: real -> bool)

  /** What the model assumes of exp: positive and strictly increasing. */
  ghost predicate IsExp(exp: real -> real) {
    && (forall x :: exp(x) > 0.0)
    && (forall x, y :: x < y ==> exp(x) < exp(y))
  }

  /** What the model assumes of sqrt: the non-negative square root of a non-negative number. */
  ghost predicate IsSqrt(sqrt: real -> real) {
    forall x :: x >= 0.0 ==> sqrt(x) >= 0.0 && sqrt(x) * sqrt(x) == x
  }

  function Abs(x: real): real {
    if x < 0.0 then -x else x
  }

  function Sum(xs: seq<real>): real {
    if |xs| == 0 then 0.0 else xs[0] + Sum(xs[1..])
  }

  /** np.mean of a non-empty list. */
  function Mean(xs: seq<real>): real
    requires |xs| > 0
  {
    Sum(xs) / (|xs| as real)
  }

  /** np.max / max() of a non-empty list. */
  function MaxOf(xs: seq<real>): (m: real)
    requires |xs| > 0
    ensures m in xs
    ensures forall i :: 0 <= i < |xs| ==> xs[i] <= m
  {
    if |xs| == 1 then xs[0]
    else
      var rest := MaxOf(xs[1..]);
      if xs[0] >= rest then xs[0] else rest
  }

  /** min() of a non-empty list. */
  function MinOf(xs: seq<real>): (m: real)
    requires |xs| > 0
    ensures m in xs
    ensures forall i :: 0 <= i < |xs| ==> m <= xs[i]
  {
    if |xs| == 1 then xs[0]
    else
      var rest := MinOf(xs[1..]);
      if xs[0] <= rest then xs[0] else rest
  }

  /** A sum of values that all lie in [lo, hi] lies in [n * lo, n * hi]. */
  lemma {:induction false} SumBounds(xs: seq<real>, lo: real, hi: real)
    requires forall i :: 0 <= i < |xs| ==> lo <= xs[i] <= hi
    ensures (|xs| as real) * lo <= Sum(xs) <= (|xs| as real) * hi
  {
    if |xs| > 0 {
      SumBounds(xs[1..], lo, hi);
    }
  }

  /** In a sum of non-negative values every term is at most the sum. */
  lemma {:induction false} SumDominatesTerm(xs: seq<real>, k: nat)
    requires forall i :: 0 <= i < |xs| ==> xs[i] >= 0.0
    requires k < |xs|
    ensures xs[k] <= Sum(xs)
  {
    SumNonNegative(xs[1..]);
    if k > 0 {
      SumDominatesTerm(xs[1..], k - 1);
    }
  }

  lemma {:induction false} SumNonNegative(xs: seq<real>)
    requires forall i :: 0 <= i < |xs| ==> xs[i] >= 0.0
    ensures Sum(xs) >= 0.0
  {
    if |xs| > 0 {
      SumNonNegative(xs[1..]);
    }
  }

  /** A non-empty sum of positive values is positive. */
  lemma {:induction false} SumPositive(xs: seq<real>)
    requires |xs| > 0
    requires forall i :: 0 <= i < |xs| ==> xs[i] > 0.0
    ensures Sum(xs) > 0.0
  {
    if |xs| > 1 {
      SumPositive(xs[1..]);
    } else {
      assert xs[1..] == [];
    }
  }

  /** Dividing every term by s divides the sum by s. */
  lemma {:induction false} SumDivide(xs: seq<real>, s: real)
    requires s != 0.0
    ensures Sum(seq(|xs|, i requires 0 <= i < |xs| => xs[i] / s)) == Sum(xs) / s
  {
    var q := seq(|xs|, i requires 0 <= i < |xs| => xs[i] / s);
    if |xs| > 0 {
      var rest := xs[1..];
      assert q[1..] == seq(|rest|, i requires 0 <= i < |rest| => rest[i] / s);
      SumDivide(rest, s);
      assert Sum(q) == xs[0] / s + Sum(rest) / s;
      assert xs[0] / s + Sum(rest) / s == (xs[0] + Sum(rest)) / s;
    }
  }

  /** The mean of values in [lo, hi] lies in [lo, hi]. */
  lemma MeanBounds(xs: seq<real>, lo: real, hi: real)
    requires |xs| > 0
    requires forall i :: 0 <= i < |xs| ==> lo <= xs[i] <= hi
    ensures lo <= Mean(xs) <= hi
  {
    SumBounds(xs, lo, hi);
    var n := |xs| as real;
    assert n * lo <= Sum(xs) <= n * hi;
    assert Sum(xs) / n >= lo by {
      assert Sum(xs) >= n * lo;
    }
    assert Sum(xs) / n <= hi by {
      assert Sum(xs) <= n * hi;
    }
  }

  /** sqrt is monotone against a bound: v <= b * b gives sqrt(v) <= b. */
  lemma SqrtAtMost(sqrt: real -> real, v: real, b: real)
    requires IsSqrt(sqrt)
    requires 0.0 <= v <= b * b && b >= 0.0
    ensures 0.0 <= sqrt(v) <= b
  {
    var s := sqrt(v);
    assert s >= 0.0 && s * s == v;
    if s > b {
      SquareIncreasing(b, s);
    }
  }

  lemma SquareIncreasing(b: real, s: real)
    requires 0.0 <= b < s
    ensures b * b < s * s
  {
    var bb, bs, ss := b * b, b * s, s * s;
    assert bb <= bs;
    assert bs < ss;
  }

  /** sqrt of a positive number is positive. */
  lemma SqrtPositive(sqrt: real -> real, v: real)
    requires IsSqrt(sqrt)
    requires v > 0.0
    ensures sqrt(v) > 0.0
  {
    assert sqrt(v) * sqrt(v) == v;
  }

  function Square(x: real): real {
    x * x
  }

  lemma SquareNonNegative(d: real)
    ensures Square(d) >= 0.0
  {
    if d < 0.0 {
      var e := -d;
      assert d * d == e * e;
    }
  }

  lemma SquarePositive(d: real)
    requires d != 0.0
    ensures Square(d) > 0.0
  {
    if d > 0.0 {
      SquareIncreasing(0.0, d);
    } else {
      var e := -d;
      assert d * d == e * e;
      SquareIncreasing(0.0, e);
    }
  }
  /** Dividing by a positive number keeps strict order. */
  lemma DivStrictMonotone(a: real, b: real, s: real)
    requires s > 0.0 && a < b
    ensures a / s < b / s
  {
    var d := b - a;
    assert d / s > 0.0;
    assert a / s + d / s == b / s;
  }

  /** A positive part of a positive whole is a fraction in (0, 1]. */
  lemma DivAtMostOne(a: real, s: real)
    requires 0.0 < a <= s
    ensures 0.0 < a / s <= 1.0
  {
    var q := a / s;
    assert q * s == a;
  }

  lemma DivSelf(s: real)
    requires s > 0.0
    ensures s / s == 1.0
  {
  }
}
