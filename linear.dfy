/**
 * Exact linear algebra over `real`: the vectors and matrices that stand
 * in for the layer's floating-point tensors.
 */
module Linear {

  /** A feature vector (one row of a tensor). */
  type Vec = seq<real>

  /** A matrix, stored row by row. */
  type Mat = seq<Vec>

  /** `m` has `rows` rows, each of `cols` entries. */
  predicate IsMatrix(m: Mat, rows: nat, cols: nat)
  {
    |m| == rows && forall i | 0 <= i < |m| :: |m[i]| == cols
  }

  /** The zero vector of length `n`. */
  function Zeros(n: nat): (r: Vec)
    ensures |r| == n
    ensures forall k | 0 <= k < n :: r[k] == 0.0
  {
    seq(n, _ => 0.0)
  }

  /** Elementwise sum of two vectors of equal length. */
  function Add(a: Vec, b: Vec): (r: Vec)
    requires |a| == |b|
    ensures |r| == |a|
    ensures forall k | 0 <= k < |r| :: r[k] == a[k] + b[k]
  {
    seq(|a|, k requires 0 <= k < |a| => a[k] + b[k])
  }

  /** Elementwise difference of two vectors of equal length. */
  function Sub(a: Vec, b: Vec): (r: Vec)
    requires |a| == |b|
    ensures |r| == |a|
    ensures forall k | 0 <= k < |r| :: r[k] == a[k] - b[k]
  {
    seq(|a|, k requires 0 <= k < |a| => a[k] - b[k])
  }

  /** Every entry of `a` divided by the non-zero scalar `d`. */
  function DivBy(a: Vec, d: real): (r: Vec)
    requires d != 0.0
    ensures |r| == |a|
    ensures forall k | 0 <= k < |r| :: r[k] == a[k] / d
  {
    seq(|a|, k requires 0 <= k < |a| => a[k] / d)
  }

  /** Inner product of two vectors of equal length. */
  function Dot(a: Vec, b: Vec): real
    requires |a| == |b|
  {
    if |a| == 0 then 0.0 else Dot(a[..|a| - 1], b[..|b| - 1]) + a[|a| - 1] * b[|b| - 1]
  }

  /**
   * The row vector `v` multiplied by the transpose of `w`, that is
   * `v @ w.t()`: entry `i` is the inner product of row `i` of `w` with `v`.
   */
  function Apply(w: Mat, v: Vec): (r: Vec)
    requires forall i | 0 <= i < |w| :: |w[i]| == |v|
    ensures |r| == |w|
    ensures forall i | 0 <= i < |w| :: r[i] == Dot(w[i], v)
  {
    seq(|w|, i requires 0 <= i < |w| => Dot(w[i], v))
  }

  /** The sum of column `k` over all rows of `m`. */
  function ColumnSum(m: Mat, k: nat): real
    requires forall i | 0 <= i < |m| :: k < |m[i]|
  {
    if |m| == 0 then 0.0 else ColumnSum(m[..|m| - 1], k) + m[|m| - 1][k]
  }

  /** The sum of a sequence of counts. */
  function SumNat(s: seq<nat>): nat
  {
    if |s| == 0 then 0 else SumNat(s[..|s| - 1]) + s[|s| - 1]
  }

  /** Any row of weights applied to the zero vector gives zero. */
  lemma {:induction false} DotZeros(a: Vec)
    ensures Dot(a, Zeros(|a|)) == 0.0
  {
    if |a| > 0 {
      assert Zeros(|a|)[..|a| - 1] == Zeros(|a| - 1);
      DotZeros(a[..|a| - 1]);
    }
  }

  /** A linear map sends the zero vector to the zero vector. */
  lemma ApplyZeros(w: Mat, n: nat)
    requires forall i | 0 <= i < |w| :: |w[i]| == n
    ensures Apply(w, Zeros(n)) == Zeros(|w|)
  {
    forall i | 0 <= i < |w|
      ensures Apply(w, Zeros(n))[i] == 0.0
    {
      DotZeros(w[i]);
    }
  }
}
