/** `statistics.mean` and the squared `statistics.stdev`, over exact reals. */
module Stats {

  function Sum(xs: seq<real>): real
  {
    if xs == [] then 0.0 else Sum(xs[..|xs| - 1]) + xs[|xs| - 1]
  }

  /** `statistics.mean(xs)`; Python raises on an empty list, so callers pass a non-empty one. */
  function Mean(xs: seq<real>): real
    requires |xs| > 0
  {
    Sum(xs) / (|xs| as real)
  }

  lemma {:induction false} SumWithinBounds(xs: seq<real>, lo: real, hi: real)
    requires forall k :: 0 <= k < |xs| ==> lo <= xs[k] <= hi
    ensures (|xs| as real) * lo <= Sum(xs) <= (|xs| as real) * hi
  {
    if xs != [] {
      SumWithinBounds(xs[..|xs| - 1], lo, hi);
    }
  }

  /** A mean lies between any lower and upper bound of its samples. */
  lemma MeanWithinBounds(xs: seq<real>, lo: real, hi: real)
    requires |xs| > 0
    requires forall k :: 0 <= k < |xs| ==> lo <= xs[k] <= hi
    ensures lo <= Mean(xs) <= hi
  {
    SumWithinBounds(xs, lo, hi);
    var n := |xs| as real;
    assert n * lo <= Sum(xs) <= n * hi;
    assert Sum(xs) / n >= lo by { assert Sum(xs) >= lo * n; }
    assert Sum(xs) / n <= hi by { assert Sum(xs) <= hi * n; }
  }

  lemma SquareNonNegative(d: real)
    ensures d * d >= 0.0
  {
    if d < 0.0 { assert d * d == (-d) * (-d); }
  }

  /** Σ (x − m)² over xs. */
  function SquaredDeviations(xs: seq<real>, m: real): (r: real)
    ensures r >= 0.0
  {
    if xs == [] then 0.0
    else
      SquareNonNegative(xs[0] - m);
      SquaredDeviations(xs[1..], m) + (xs[0] - m) * (xs[0] - m)
  }

  /**
   * The square of `stdev(xs) if len(xs) > 1 else 0`: the sample variance (n − 1
   * denominator) for two or more samples, and 0 otherwise. Never negative.
   */
  function GuardedVariance(xs: seq<real>): (v: real)
    ensures v >= 0.0
    ensures |xs| <= 1 ==> v == 0.0
  {
    if |xs| > 1 then SquaredDeviations(xs, Mean(xs)) / ((|xs| - 1) as real) else 0.0
  }
}
