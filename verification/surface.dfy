/** Evaluation of a fitted cubic surface: the matrix-vector product of a
    design matrix with a ten-element coefficient vector (`arr @ fit`). */
module Surface {
  import opened Basis
  import opened Selection

  /** A coefficient vector: one weight per basis column. */
  type Coefficients = c: seq<real> | |c| == 10
    witness [0.0, 0.0, 0.0, 0.0, 0.0, 0.0, 0.0, 0.0, 0.0, 0.0]

  /** Inner product of the first `n` entries of two vectors. */
  function DotPrefix(u: seq<real>, v: seq<real>, n: nat): real
    requires n <= |u| == |v|
  {
    if n == 0 then 0.0 else DotPrefix(u, v, n - 1) + u[n - 1] * v[n - 1]
  }

  /** Inner product of two vectors of one length. */
  function Dot(u: seq<real>, v: seq<real>): real
    requires |u| == |v|
  {
    DotPrefix(u, v, |u|)
  }

  /** The fitted surface written out as a polynomial in the two inputs. */
  function Value(x: real, y: real, c: Coefficients): real
  {
    c[0] + c[1] * x + c[2] * y
    + c[3] * (x * x) + c[4] * (x * y) + c[5] * (y * y)
    + c[6] * (x * x * x) + c[7] * (x * x * y) + c[8] * (x * y * y) + c[9] * (y * y * y)
  }

  /** The inner product of two ten-element vectors, spelled out. */
  lemma DotTen(u: seq<real>, v: seq<real>)
    requires |u| == |v| == 10
    ensures Dot(u, v) == u[0] * v[0] + u[1] * v[1] + u[2] * v[2] + u[3] * v[3] + u[4] * v[4]
                         + u[5] * v[5] + u[6] * v[6] + u[7] * v[7] + u[8] * v[8] + u[9] * v[9]
  {
    assert DotPrefix(u, v, 1) == u[0] * v[0];
    assert DotPrefix(u, v, 2) == DotPrefix(u, v, 1) + u[1] * v[1];
    assert DotPrefix(u, v, 3) == DotPrefix(u, v, 2) + u[2] * v[2];
    assert DotPrefix(u, v, 4) == DotPrefix(u, v, 3) + u[3] * v[3];
    assert DotPrefix(u, v, 5) == DotPrefix(u, v, 4) + u[4] * v[4];
    assert DotPrefix(u, v, 6) == DotPrefix(u, v, 5) + u[5] * v[5];
    assert DotPrefix(u, v, 7) == DotPrefix(u, v, 6) + u[6] * v[6];
    assert DotPrefix(u, v, 8) == DotPrefix(u, v, 7) + u[7] * v[7];
    assert DotPrefix(u, v, 9) == DotPrefix(u, v, 8) + u[8] * v[8];
    assert DotPrefix(u, v, 10) == DotPrefix(u, v, 9) + u[9] * v[9];
  }

  /** The inner product of a monomial row with the coefficients is the
      polynomial's value at that point. */
  lemma DotMonomials(x: real, y: real, c: Coefficients)
    ensures Dot(Monomials(x, y), c) == Value(x, y, c)
  {
    var m := Monomials(x, y);
    DotTen(m, c);
  }

  /** `m @ c`: one inner product per row. */
  function Evaluate(m: seq<seq<real>>, c: Coefficients): (z: seq<real>)
    requires forall i :: 0 <= i < |m| ==> |m[i]| == |c|
    ensures |z| == |m|
  {
    seq(|m|, i requires 0 <= i < |m| => Dot(m[i], c))
  }

  /** `make_matrix(a, b) @ c`: the surface evaluated at every input pair.
      Entry `i` is the polynomial's value at `(a[i], b[i])` alone. */
  function EvaluateAt(a: seq<real>, b: seq<real>, c: Coefficients): (z: seq<real>)
    requires |a| == |b|
    ensures |z| == |a|
    ensures forall i :: 0 <= i < |z| ==> z[i] == Value(a[i], b[i], c)
  {
    var z := Evaluate(MakeMatrix(a, b), c);
    assert forall i :: 0 <= i < |z| ==> z[i] == Value(a[i], b[i], c) by {
      forall i | 0 <= i < |z|
        ensures z[i] == Value(a[i], b[i], c)
      {
        DotMonomials(a[i], b[i], c);
      }
    }
    z
  }

  /** Evaluation is pointwise: the value at a position depends only on the
      input pair there, not on where it sits or what surrounds it. */
  lemma EvaluateAtIsPointwise(a: seq<real>, b: seq<real>, a': seq<real>, b': seq<real>,
                              c: Coefficients, i: nat, j: nat)
    requires |a| == |b| && |a'| == |b'|
    requires i < |a| && j < |a'|
    requires a[i] == a'[j] && b[i] == b'[j]
    ensures EvaluateAt(a, b, c)[i] == EvaluateAt(a', b', c)[j]
  {
  }

  /** Evaluating a concatenation of inputs concatenates the evaluations. */
  lemma EvaluateAtAppend(a1: seq<real>, b1: seq<real>, a2: seq<real>, b2: seq<real>, c: Coefficients)
    requires |a1| == |b1| && |a2| == |b2|
    ensures EvaluateAt(a1 + a2, b1 + b2, c) == EvaluateAt(a1, b1, c) + EvaluateAt(a2, b2, c)
  {
    var z, z1, z2 := EvaluateAt(a1 + a2, b1 + b2, c), EvaluateAt(a1, b1, c), EvaluateAt(a2, b2, c);
    assert forall i :: |a1| <= i < |z| ==> (a1 + a2)[i] == a2[i - |a1|] && (b1 + b2)[i] == b2[i - |b1|];
    assert z == z1 + z2;
  }

  /** Selecting input pairs with a mask and then evaluating gives the same
      values as evaluating everything and applying the mask afterwards. */
  lemma EvaluateAtCommutesWithMask(a: seq<real>, b: seq<real>, c: Coefficients, keep: seq<bool>)
    requires |a| == |b| == |keep|
    ensures EvaluateAt(Mask(a, keep), Mask(b, keep), c) == Mask(EvaluateAt(a, b, c), keep)
  {
  }
}
