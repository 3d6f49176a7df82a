/** The numpy reductions the pipeline applies to a temperature profile (`np.max`, `np.min`,
    `np.sum`, `np.mean`), over reals. */
module Reductions {

  /** `np.max(u)`; numpy raises on an empty array, so callers check for emptiness. */
  function Max(u: seq<real>): (m: real)
    requires u != []
    ensures forall i :: 0 <= i < |u| ==> u[i] <= m
    ensures exists i :: 0 <= i < |u| && u[i] == m
  {
    if |u| == 1 then u[0]
    else
      var rest := Max(u[1..]);
      assert forall i :: 1 <= i < |u| ==> u[i] == u[1..][i - 1];
      if u[0] >= rest then u[0] else rest
  }

  /** `np.min(u)`. */
  function Min(u: seq<real>): (m: real)
    requires u != []
    ensures forall i :: 0 <= i < |u| ==> m <= u[i]
    ensures exists i :: 0 <= i < |u| && u[i] == m
  {
    if |u| == 1 then u[0]
    else
      var rest := Min(u[1..]);
      assert forall i :: 1 <= i < |u| ==> u[i] == u[1..][i - 1];
      if u[0] <= rest then u[0] else rest
  }

  /** `np.sum(u)` (0 for an empty array). */
  function Sum(u: seq<real>): real {
    if u == [] then 0.0 else u[0] + Sum(u[1..])
  }

  /** `np.sum(u**2)`: never negative. */
  function SumSquares(u: seq<real>): (s: real)
    ensures s >= 0.0
  {
    if u == [] then 0.0 else u[0] * u[0] + SumSquares(u[1..])
  }

  /** `np.mean(u)`. */
  function Mean(u: seq<real>): real
    requires u != []
  {
    Sum(u) / |u| as real
  }

  /** A sum of values between `lo` and `hi` lies between `|u|*lo` and `|u|*hi`. */
  lemma {:induction false} SumBounds(u: seq<real>, lo: real, hi: real)
    requires forall i :: 0 <= i < |u| ==> lo <= u[i] <= hi
    ensures |u| as real * lo <= Sum(u) <= |u| as real * hi
  {
    if u != [] {
      assert forall i :: 0 <= i < |u| - 1 ==> u[1..][i] == u[i + 1];
      SumBounds(u[1..], lo, hi);
    }
  }

  /** The mean lies between the minimum and the maximum. */
  lemma MeanBetween(u: seq<real>)
    requires u != []
    ensures Min(u) <= Mean(u) <= Max(u)
  {
    SumBounds(u, Min(u), Max(u));
    DivideBounds(Sum(u), |u| as real, Min(u), Max(u));
  }

  lemma DivideBounds(s: real, n: real, lo: real, hi: real)
    requires n > 0.0 && n * lo <= s <= n * hi
    ensures lo <= s / n <= hi
  {
    var q := s / n;
    assert s == n * q;
  }

  /** Every value between `lo` and `hi` bounds the maximum and the minimum the same way. */
  lemma BoundsOfExtremes(u: seq<real>, lo: real, hi: real)
    requires u != []
    requires forall i :: 0 <= i < |u| ==> lo <= u[i] <= hi
    ensures lo <= Min(u) <= Max(u) <= hi
  {
  }
}
