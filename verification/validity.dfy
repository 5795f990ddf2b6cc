/** The validity mask of the inverse-fit plot: evaluate the fitted surface
    on the query points and keep only the points whose predicted output does
    not exceed the full-command ceiling. */
module Validity {
  import opened Selection
  import opened Surface

  /** The largest meaningful normalised output (full forward command). */
  const Ceiling: real := 1.0

  /** The query points that survive the mask, still aligned by position. */
  datatype Points = Points(x: seq<real>, y: seq<real>, z: seq<real>)

  /** The mask `z <= 1.0` over the evaluated surface. */
  function ValidMask(z: seq<real>): (keep: seq<bool>)
    ensures |keep| == |z|
  {
    seq(|z|, i requires 0 <= i < |z| => z[i] <= Ceiling)
  }

  /** Positions of the query points whose predicted output is within the
      ceiling: exactly those, in ascending order. */
  function ValidIndices(x: seq<real>, y: seq<real>, fit: Coefficients): (idx: seq<nat>)
    requires |x| == |y|
    ensures forall k :: 0 <= k < |idx| ==> idx[k] < |x| && Value(x[idx[k]], y[idx[k]], fit) <= Ceiling
    ensures forall i :: 0 <= i < |x| && Value(x[i], y[i], fit) <= Ceiling ==> i in idx
    ensures forall k, l :: 0 <= k < l < |idx| ==> idx[k] < idx[l]
  {
    TrueIndices(ValidMask(EvaluateAt(x, y, fit)))
  }

  /** `plot2`'s data: `z = make_matrix(x, y) @ fit`, then `x`, `y` and `z`
      each masked by `z <= 1.0`, all three with the mask of the original
      `z`. The survivors are the valid query points in their original
      order, each still paired with its own inputs, and each surviving `z`
      is the surface's value at its surviving `(x, y)`. */
  function ValidPoints(x: seq<real>, y: seq<real>, fit: Coefficients): (p: Points)
    requires |x| == |y|
    ensures |p.x| == |p.y| == |p.z| == |ValidIndices(x, y, fit)|
    ensures forall k :: 0 <= k < |p.z| ==>
      var i := ValidIndices(x, y, fit)[k];
      p.x[k] == x[i] && p.y[k] == y[i] && p.z[k] == Value(x[i], y[i], fit)
    ensures forall k :: 0 <= k < |p.z| ==> p.z[k] <= Ceiling
    ensures p.z == EvaluateAt(p.x, p.y, fit)
  {
    var z := EvaluateAt(x, y, fit);
    var keep := ValidMask(z);
    EvaluateAtCommutesWithMask(x, y, fit, keep);
    Points(Mask(x, keep), Mask(y, keep), Mask(z, keep))
  }
}
