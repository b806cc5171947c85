/** The numeric aggregates of SQL over a column of reals: SUM, MAX, MIN and
    the average, with the bounds that relate them. */
module Aggregates {
  /** `SUM` over a column; 0 over none. */
  function Sum(xs: seq<real>): real
  {
    if xs == [] then 0.0 else Sum(xs[..|xs| - 1]) + xs[|xs| - 1]
  }

  /** `MAX(co2e)` over a non-empty column. */
  function Max(xs: seq<real>): (m: real)
    requires xs != []
    ensures forall i :: 0 <= i < |xs| ==> xs[i] <= m
    ensures exists i :: 0 <= i < |xs| && xs[i] == m
  {
    if |xs| == 1 then xs[0]
    else
      var m := Max(xs[..|xs| - 1]);
      if xs[|xs| - 1] > m then xs[|xs| - 1] else m
  }

  /** `MIN(co2e)` over a non-empty column. */
  function Min(xs: seq<real>): (m: real)
    requires xs != []
    ensures forall i :: 0 <= i < |xs| ==> m <= xs[i]
    ensures exists i :: 0 <= i < |xs| && xs[i] == m
  {
    if |xs| == 1 then xs[0]
    else
      var m := Min(xs[..|xs| - 1]);
      if xs[|xs| - 1] < m then xs[|xs| - 1] else m
  }

  /** `AVG` over a non-empty column: the sum divided by the count, which lies
      between the column's minimum and maximum. */
  function Mean(xs: seq<real>): (m: real)
    requires xs != []
    ensures Min(xs) <= m <= Max(xs)
  {
    SumBounds(xs, Min(xs), Max(xs));
    AverageBounds(Sum(xs), |xs| as real, Min(xs), Max(xs));
    Sum(xs) / |xs| as real
  }

  /** A sum lies between count times a lower and count times an upper bound. */
  lemma {:induction false} SumBounds(xs: seq<real>, lo: real, hi: real)
    requires forall i :: 0 <= i < |xs| ==> lo <= xs[i] <= hi
    ensures |xs| as real * lo <= Sum(xs) <= |xs| as real * hi
    decreases |xs|
  {
    if xs != [] {
      SumBounds(xs[..|xs| - 1], lo, hi);
    }
  }

  /** Bounds on a sum of n values carry over to their average. */
  lemma AverageBounds(total: real, n: real, lo: real, hi: real)
    requires n > 0.0 && n * lo <= total <= n * hi
    ensures lo <= total / n <= hi
  {
    var a := total / n;
    assert a * n == total;
    assert n * (a - lo) == total - n * lo;
    assert n * (hi - a) == n * hi - total;
  }
}
