/** Sums, means and extrema over sequences of reals: the arithmetic that the
    averaging and summary code reduces to. */
module Seqs {

  /** Sum of a sequence of reals (the `reduce((t, x) => t + x, 0)` idiom). */
  function Sum(xs: seq<real>): real
  {
    if |xs| == 0 then 0.0 else xs[0] + Sum(xs[1..])
  }

  /** Arithmetic mean; the empty sequence averages to 0. */
  function Mean(xs: seq<real>): (m: real)
    ensures |xs| > 0 ==> m * (|xs| as real) == Sum(xs)
    ensures |xs| == 0 ==> m == 0.0
  {
    if |xs| == 0 then 0.0 else Sum(xs) / (|xs| as real)
  }

  /** `n` copies of `x`. */
  function Repeat(x: real, n: nat): (xs: seq<real>)
    ensures |xs| == n
    ensures forall i :: 0 <= i < n ==> xs[i] == x
  {
    seq(n, _ => x)
  }

  /** `n` copies of `x` add up to `n` times `x`. */
  lemma {:induction false} SumOfRepeat(x: real, n: nat)
    ensures Sum(Repeat(x, n)) == x * (n as real)
  {
    if n > 0 {
      assert Repeat(x, n)[1..] == Repeat(x, n - 1);
      SumOfRepeat(x, n - 1);
    }
  }

  function Minimum(xs: seq<real>): (m: real)
    requires |xs| > 0
    ensures forall i :: 0 <= i < |xs| ==> m <= xs[i]
    ensures exists i :: 0 <= i < |xs| && xs[i] == m
  {
    if |xs| == 1 then xs[0]
    else
      var rest := Minimum(xs[1..]);
      if xs[0] <= rest then xs[0] else rest
  }

  function Maximum(xs: seq<real>): (m: real)
    requires |xs| > 0
    ensures forall i :: 0 <= i < |xs| ==> xs[i] <= m
    ensures exists i :: 0 <= i < |xs| && xs[i] == m
  {
    if |xs| == 1 then xs[0]
    else
      var rest := Maximum(xs[1..]);
      if xs[0] >= rest then xs[0] else rest
  }

  /** `x` lies between the smallest and the largest element of `xs`. */
  predicate Between(x: real, xs: seq<real>)
  {
    |xs| > 0 && Minimum(xs) <= x <= Maximum(xs)
  }

  lemma {:induction false} SumBounds(xs: seq<real>, lo: real, hi: real)
    requires forall i :: 0 <= i < |xs| ==> lo <= xs[i] <= hi
    ensures (|xs| as real) * lo <= Sum(xs) <= (|xs| as real) * hi
  {
    if |xs| > 0 {
      SumBounds(xs[1..], lo, hi);
    }
  }

  /** Dividing bounds on `m * n` by a positive `n` bounds `m`. */
  lemma ScaledBound(m: real, n: real, total: real, lo: real, hi: real)
    requires n > 0.0 && m * n == total
    requires n * lo <= total <= n * hi
    ensures lo <= m <= hi
  {
    assert (m - lo) * n >= 0.0;
    assert (hi - m) * n >= 0.0;
  }

  /** A mean of values within [lo, hi] is within [lo, hi]. */
  lemma MeanWithin(xs: seq<real>, lo: real, hi: real)
    requires |xs| > 0
    requires forall i :: 0 <= i < |xs| ==> lo <= xs[i] <= hi
    ensures lo <= Mean(xs) <= hi
  {
    var n, total := |xs| as real, Sum(xs);
    SumBounds(xs, lo, hi);
    ScaledBound(Mean(xs), n, total, lo, hi);
  }

  /** A mean never leaves the range of the values it averages. */
  lemma MeanBetween(xs: seq<real>)
    requires |xs| > 0
    ensures Between(Mean(xs), xs)
  {
    MeanWithin(xs, Minimum(xs), Maximum(xs));
  }

  lemma {:induction false} SumNonNegative(xs: seq<real>)
    requires forall i :: 0 <= i < |xs| ==> xs[i] >= 0.0
    ensures Sum(xs) >= 0.0
  {
    if |xs| > 0 {
      SumNonNegative(xs[1..]);
    }
  }

  /** A sum of non-negative reals is zero only when every term is zero. */
  lemma {:induction false} ZeroSumOfNonNegative(xs: seq<real>)
    requires forall i :: 0 <= i < |xs| ==> xs[i] >= 0.0
    requires Sum(xs) == 0.0
    ensures forall i :: 0 <= i < |xs| ==> xs[i] == 0.0
  {
    if |xs| > 0 {
      SumNonNegative(xs[1..]);
      ZeroSumOfNonNegative(xs[1..]);
      forall i | 0 <= i < |xs|
        ensures xs[i] == 0.0
      {
        if i > 0 {
          assert xs[i] == xs[1..][i - 1];
        }
      }
    }
  }

  lemma {:induction false} SumOfZeros(xs: seq<real>)
    requires forall i :: 0 <= i < |xs| ==> xs[i] == 0.0
    ensures Sum(xs) == 0.0
  {
    if |xs| > 0 {
      SumOfZeros(xs[1..]);
    }
  }

  function Take<T>(s: seq<T>, n: nat): (r: seq<T>)
    ensures |r| == if n <= |s| then n else |s|
    ensures r <= s
  {
    if n <= |s| then s[..n] else s
  }
}
