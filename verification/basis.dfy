/** The cubic bivariate design matrix of `make_matrix`: ten columns built
    elementwise from two equal-length sequences, stacked and transposed so
    that each sample becomes one row of monomials. */
module Basis {

  /** One row of the design matrix: the ten monomials of total degree at
      most three, in the order the columns are stacked. */
  function Monomials(x: real, y: real): seq<real>
  {
    [1.0, x, y, x * x, x * y, y * y, x * x * x, x * x * y, x * y * y, y * y * y]
  }

  /** Number of basis terms, i.e. the width of every design-matrix row. */
  const Terms: nat := 10

  function Ones(n: nat): seq<real>
  {
    seq(n, i => 1.0)
  }

  /** Elementwise product `u * v` of two arrays of one shape. */
  function Times(u: seq<real>, v: seq<real>): seq<real>
    requires |u| == |v|
  {
    seq(|u|, i requires 0 <= i < |u| => u[i] * v[i])
  }

  /** Elementwise `u**2`. */
  function Squared(u: seq<real>): seq<real>
  {
    seq(|u|, i requires 0 <= i < |u| => u[i] * u[i])
  }

  /** Elementwise `u**3`. */
  function Cubed(u: seq<real>): seq<real>
  {
    seq(|u|, i requires 0 <= i < |u| => u[i] * u[i] * u[i])
  }

  /** The ten stacked columns, before the transpose. */
  function Columns(a: seq<real>, b: seq<real>): (cols: seq<seq<real>>)
    requires |a| == |b|
    ensures |cols| == Terms
    ensures forall k :: 0 <= k < |cols| ==> |cols[k]| == |a|
  {
    [ Ones(|a|), a, b,
      Squared(a), Times(a, b), Squared(b),
      Cubed(a), Times(Squared(a), b), Times(a, Squared(b)), Cubed(b) ]
  }

  /** `.T` of a stack of `|cols|` columns, each of length `n`. */
  function Transpose(cols: seq<seq<real>>, n: nat): (m: seq<seq<real>>)
    requires forall k :: 0 <= k < |cols| ==> |cols[k]| == n
    ensures |m| == n
    ensures forall i :: 0 <= i < n ==> |m[i]| == |cols|
    ensures forall i, k :: 0 <= i < n && 0 <= k < |cols| ==> m[i][k] == cols[k][i]
  {
    seq(n, i requires 0 <= i < n => seq(|cols|, k requires 0 <= k < |cols| => cols[k][i]))
  }

  /** `make_matrix(a, b)`: one row per sample, and row `i` is the monomial
      row of the pair `(a[i], b[i])`. */
  function MakeMatrix(a: seq<real>, b: seq<real>): (m: seq<seq<real>>)
    requires |a| == |b|
    ensures |m| == |a|
    ensures forall i :: 0 <= i < |m| ==> |m[i]| == Terms
    ensures forall i :: 0 <= i < |m| ==> m[i] == Monomials(a[i], b[i])
  {
    var m := Transpose(Columns(a, b), |a|);
    assert forall i :: 0 <= i < |m| ==> m[i] == Monomials(a[i], b[i]) by {
      forall i | 0 <= i < |m|
        ensures m[i] == Monomials(a[i], b[i])
      {
        assert forall k :: 0 <= k < Terms ==> m[i][k] == Monomials(a[i], b[i])[k];
      }
    }
    m
  }

  /** `x` raised to a natural power. */
  function Pow(x: real, n: nat): real
  {
    if n == 0 then 1.0 else x * Pow(x, n - 1)
  }

  /** The exponent pair `(i, j)` of the monomial `a^i * b^j` in each column. */
  const Exponents: seq<(nat, nat)> :=
    [(0, 0), (1, 0), (0, 1), (2, 0), (1, 1), (0, 2), (3, 0), (2, 1), (1, 2), (0, 3)]

  function Degree(e: (nat, nat)): nat
  {
    e.0 + e.1
  }

  /** Column `k` of every row is the monomial `x^i * y^j` for the `k`-th
      exponent pair. */
  lemma MonomialsMatchExponents(x: real, y: real)
    ensures |Monomials(x, y)| == |Exponents| == Terms
    ensures forall k :: 0 <= k < |Exponents| ==>
      Monomials(x, y)[k] == Pow(x, Exponents[k].0) * Pow(y, Exponents[k].1)
  {
    PowSmall(x);
    PowSmall(y);
  }

  lemma PowSmall(x: real)
    ensures Pow(x, 0) == 1.0 && Pow(x, 1) == x
    ensures Pow(x, 2) == x * x && Pow(x, 3) == x * x * x
  {
    assert Pow(x, 1) == x * 1.0;
    assert Pow(x, 2) == x * x;
    assert Pow(x, 3) == x * (x * x);
  }

  /** The columns are the complete cubic basis: every exponent pair of total
      degree at most three occurs exactly once, and no other pair occurs;
      columns are ordered by total degree, and within one degree by
      decreasing power of the first input. */
  lemma ExponentsAreCubicBasis()
    ensures forall k :: 0 <= k < |Exponents| ==> Degree(Exponents[k]) <= 3
    ensures forall i: nat, j: nat :: i + j <= 3 ==> (i, j) in Exponents
    ensures forall k, l :: 0 <= k < l < |Exponents| ==> Exponents[k] != Exponents[l]
    ensures forall k, l :: 0 <= k < l < |Exponents| ==>
      Degree(Exponents[k]) < Degree(Exponents[l]) ||
      (Degree(Exponents[k]) == Degree(Exponents[l]) && Exponents[k].0 > Exponents[l].0)
  {
    forall i: nat, j: nat | i + j <= 3
      ensures (i, j) in Exponents
    {
      if i + j == 0 { assert (i, j) == Exponents[0]; }
      else if i + j == 1 { assert (i, j) == Exponents[2 - i]; }
      else if i + j == 2 { assert (i, j) == Exponents[5 - i]; }
      else { assert (i, j) == Exponents[9 - i]; }
    }
  }
}
