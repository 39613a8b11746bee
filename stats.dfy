/**
 * The column aggregates of pandas that the analysis code uses: mean, sample
 * variance (the square of Series.std(), whose denominator is n - 1), max and
 * min. A single value has no sample variance: pandas returns NaN there,
 * modelled as None.
 */
module Stats {
  import opened Wrappers

  function Sum(xs: seq<real>): real
  {
    if xs == [] then 0.0 else Sum(xs[..|xs| - 1]) + xs[|xs| - 1]
  }

  /** Series.mean(): the value that, taken |xs| times, gives the sum. */
  function Mean(xs: seq<real>): (m: real)
    requires |xs| > 0
    ensures m * |xs| as real == Sum(xs)
  {
    Sum(xs) / |xs| as real
  }

  /** Sum of the squared deviations of xs from m. */
  function SquaredDeviations(xs: seq<real>, m: real): (r: real)
    ensures r >= 0.0
  {
    if xs == [] then 0.0
    else SquaredDeviations(xs[..|xs| - 1], m) + Square(xs[|xs| - 1] - m)
  }

  function Square(d: real): (r: real)
    ensures r >= 0.0
  {
    NonNegativeProduct(if d < 0.0 then -d else d);
    d * d
  }

  lemma NonNegativeProduct(a: real)
    requires a >= 0.0
    ensures a * a >= 0.0 && (-a) * (-a) == a * a
  {
  }

  /** Series.var() with ddof = 1; NaN (None) for fewer than two values. */
  function SampleVariance(xs: seq<real>): (v: Option<real>)
    ensures v.None? <==> |xs| < 2
    ensures v.Some? ==> v.value >= 0.0
  {
    if |xs| < 2 then None
    else Some(SquaredDeviations(xs, Mean(xs)) / (|xs| - 1) as real)
  }

  function Max(xs: seq<real>): (m: real)
    requires |xs| > 0
    ensures m in xs
    ensures forall i :: 0 <= i < |xs| ==> xs[i] <= m
  {
    if |xs| == 1 then xs[0]
    else
      var rest := Max(xs[..|xs| - 1]);
      if xs[|xs| - 1] > rest then xs[|xs| - 1] else rest
  }

  function Min(xs: seq<real>): (m: real)
    requires |xs| > 0
    ensures m in xs
    ensures forall i :: 0 <= i < |xs| ==> m <= xs[i]
  {
    if |xs| == 1 then xs[0]
    else
      var rest := Min(xs[..|xs| - 1]);
      if xs[|xs| - 1] < rest then xs[|xs| - 1] else rest
  }

  lemma {:induction false} SumBounds(xs: seq<real>, lo: real, hi: real)
    requires forall i :: 0 <= i < |xs| ==> lo <= xs[i] <= hi
    ensures |xs| as real * lo <= Sum(xs) <= |xs| as real * hi
  {
    if xs != [] {
      SumBounds(xs[..|xs| - 1], lo, hi);
    }
  }

  lemma {:induction false} SumStrictlyAbove(xs: seq<real>, lo: real)
    requires |xs| > 0
    requires forall i :: 0 <= i < |xs| ==> lo < xs[i]
    ensures |xs| as real * lo < Sum(xs)
  {
    if |xs| > 1 {
      SumStrictlyAbove(xs[..|xs| - 1], lo);
    }
  }

  lemma {:induction false} SumStrictlyBelow(xs: seq<real>, hi: real)
    requires |xs| > 0
    requires forall i :: 0 <= i < |xs| ==> xs[i] < hi
    ensures Sum(xs) < |xs| as real * hi
  {
    if |xs| > 1 {
      SumStrictlyBelow(xs[..|xs| - 1], hi);
    }
  }

  /** The mean lies between the smallest and the largest value. */
  lemma MeanBetweenMinAndMax(xs: seq<real>)
    requires |xs| > 0
    ensures Min(xs) <= Mean(xs) <= Max(xs)
  {
    MeanWithin(xs, Min(xs), Max(xs));
  }

  /** Values that all lie in [lo, hi] have their mean in [lo, hi]. */
  lemma MeanWithin(xs: seq<real>, lo: real, hi: real)
    requires |xs| > 0
    requires forall i :: 0 <= i < |xs| ==> lo <= xs[i] <= hi
    ensures lo <= Mean(xs) <= hi
  {
    SumBounds(xs, lo, hi);
    DivideBounds(Sum(xs), |xs| as real, lo, hi);
  }

  /** Values that all exceed c have a mean that exceeds c. */
  lemma MeanAbove(xs: seq<real>, c: real)
    requires |xs| > 0
    requires forall i :: 0 <= i < |xs| ==> c < xs[i]
    ensures c < Mean(xs)
  {
    SumStrictlyAbove(xs, c);
    var n := |xs| as real;
    assert Sum(xs) / n * n == Sum(xs);
  }

  /** Values that all stay below c have a mean below c. */
  lemma MeanBelow(xs: seq<real>, c: real)
    requires |xs| > 0
    requires forall i :: 0 <= i < |xs| ==> xs[i] < c
    ensures Mean(xs) < c
  {
    SumStrictlyBelow(xs, c);
    var n := |xs| as real;
    assert Sum(xs) / n * n == Sum(xs);
  }

  lemma DivideBounds(s: real, n: real, lo: real, hi: real)
    requires n > 0.0 && n * lo <= s <= n * hi
    ensures lo <= s / n <= hi
  {
    assert s / n * n == s;
  }

  lemma {:induction false} SumConstant(xs: seq<real>, c: real)
    requires forall i :: 0 <= i < |xs| ==> xs[i] == c
    ensures Sum(xs) == |xs| as real * c
  {
    if xs != [] {
      SumConstant(xs[..|xs| - 1], c);
    }
  }

  lemma {:induction false} SquaredDeviationsConstant(xs: seq<real>, c: real)
    requires forall i :: 0 <= i < |xs| ==> xs[i] == c
    ensures SquaredDeviations(xs, c) == 0.0
  {
    if xs != [] {
      SquaredDeviationsConstant(xs[..|xs| - 1], c);
    }
  }

  /** A column of two or more equal values has sample variance zero. */
  lemma ConstantVarianceZero(xs: seq<real>)
    requires |xs| >= 2
    requires forall i :: 0 <= i < |xs| ==> xs[i] == xs[0]
    ensures SampleVariance(xs) == Some(0.0)
  {
    SumConstant(xs, xs[0]);
    var n := |xs| as real;
    assert Mean(xs) == n * xs[0] / n;
    assert Mean(xs) == xs[0];
    SquaredDeviationsConstant(xs, xs[0]);
  }
}
