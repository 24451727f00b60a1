/**
 * Dense real matrices as sequences of rows, and the handful of Eigen
 * operations the model needs: zero matrices, sums, scaling, block
 * extraction, transposition and column-major flattening.
 */
module Matrices {

  /** A dense matrix stored row by row; `m[i][j]` is row i, column j. */
  type Matrix = seq<seq<real>>

  /** A vector of reals (Eigen's `Vector`). */
  type Vector = seq<real>

  /** `m` has `r` rows of `c` entries each. */
  predicate IsShape(m: Matrix, r: nat, c: nat) {
    |m| == r && forall i :: 0 <= i < r ==> |m[i]| == c
  }

  /** `m` has `r` rows, each with at least `c` entries. */
  predicate Covers(m: Matrix, r: nat, c: nat) {
    |m| == r && forall i :: 0 <= i < r ==> c <= |m[i]|
  }

  /** Row count. */
  function Rows(m: Matrix): nat {
    |m|
  }

  /** Column count, read from the first row (0 for a matrix without rows). */
  function Cols(m: Matrix): nat {
    if |m| == 0 then 0 else |m[0]|
  }

  /** `m` is rectangular: every row is as long as the first. */
  predicate IsRectangular(m: Matrix) {
    IsShape(m, Rows(m), Cols(m))
  }

  /** `a` and `b` are rectangular and of the same size. */
  predicate SameShape(a: Matrix, b: Matrix) {
    IsRectangular(a) && IsShape(b, Rows(a), Cols(a))
  }

  /** Eigen's `zeros(r, c)`. */
  function Zeros(r: nat, c: nat): (z: Matrix)
    ensures IsShape(z, r, c)
    ensures forall i, j :: 0 <= i < r && 0 <= j < c ==> z[i][j] == 0.0
  {
    seq(r, _ => seq(c, _ => 0.0))
  }

  /** Eigen's `zero(n)`: the zero vector of length n. */
  function ZeroVector(n: nat): (v: Vector)
    ensures |v| == n && forall i :: 0 <= i < n ==> v[i] == 0.0
  {
    seq(n, _ => 0.0)
  }

  /** Entry-wise sum of two matrices of one shape. */
  function Add(a: Matrix, b: Matrix): (s: Matrix)
    requires SameShape(a, b)
    ensures IsShape(s, Rows(a), Cols(a))
  {
    seq(|a|, i requires 0 <= i < |a| => seq(Cols(a), j requires 0 <= j < Cols(a) => a[i][j] + b[i][j]))
  }

  /** The product `k * a` of a scalar and a matrix. */
  function Scale(k: real, a: Matrix): (s: Matrix)
    requires IsRectangular(a)
    ensures IsShape(s, Rows(a), Cols(a))
  {
    seq(|a|, i requires 0 <= i < |a| => seq(Cols(a), j requires 0 <= j < Cols(a) => k * a[i][j]))
  }

  /** Entry (i, j) of a sum is the sum of the entries. */
  lemma AddAt(a: Matrix, b: Matrix, i: nat, j: nat)
    requires SameShape(a, b) && i < Rows(a) && j < Cols(a)
    ensures Add(a, b)[i][j] == a[i][j] + b[i][j]
  {
  }

  /** Entry (i, j) of `k * a` is k times that entry of a. */
  lemma ScaleAt(k: real, a: Matrix, i: nat, j: nat)
    requires IsRectangular(a) && i < Rows(a) && j < Cols(a)
    ensures Scale(k, a)[i][j] == k * a[i][j]
  {
  }

  /** Eigen's `m.block(r0, c0, nr, nc)`: the nr-by-nc sub-matrix whose top-left entry is m[r0][c0]. */
  function Block(m: Matrix, r0: nat, c0: nat, nr: nat, nc: nat): (b: Matrix)
    requires r0 + nr <= |m|
    requires forall i :: r0 <= i < r0 + nr ==> c0 + nc <= |m[i]|
    ensures IsShape(b, nr, nc)
    ensures forall i, j :: 0 <= i < nr && 0 <= j < nc ==> b[i][j] == m[r0 + i][c0 + j]
  {
    seq(nr, i requires 0 <= i < nr => seq(nc, j requires 0 <= j < nc => m[r0 + i][c0 + j]))
  }

  /** The transpose of an r-by-c matrix, which is c-by-r. */
  function Transpose(m: Matrix, r: nat, c: nat): (t: Matrix)
    requires IsShape(m, r, c)
    ensures IsShape(t, c, r)
    ensures forall i, j :: 0 <= i < c && 0 <= j < r ==> t[i][j] == m[j][i]
  {
    seq(c, i requires 0 <= i < c => seq(r, j requires 0 <= j < r => m[j][i]))
  }

  /** Column j of an r-row matrix, top to bottom. */
  function Column(m: Matrix, r: nat, j: nat): (v: Vector)
    requires |m| == r && forall i :: 0 <= i < r ==> j < |m[i]|
    ensures |v| == r && forall i :: 0 <= i < r ==> v[i] == m[i][j]
  {
    seq(r, i requires 0 <= i < r => m[i][j])
  }

  /**
   * The entries of the first c columns of an r-row matrix laid out column
   * after column: Eigen's default (column-major) storage order, which
   * `resize(size, 1)` keeps.
   */
  function ColumnMajor(m: Matrix, r: nat, c: nat): Vector
    requires Covers(m, r, c)
  {
    if c == 0 then [] else ColumnMajor(m, r, c - 1) + Column(m, r, c - 1)
  }

  /** Two matrices of one shape with equal entries are equal. */
  lemma MatrixExtensionality(a: Matrix, b: Matrix, r: nat, c: nat)
    requires IsShape(a, r, c) && IsShape(b, r, c)
    requires forall i, j :: 0 <= i < r && 0 <= j < c ==> a[i][j] == b[i][j]
    ensures a == b
  {
    forall i | 0 <= i < r ensures a[i] == b[i] {
      assert forall j :: 0 <= j < c ==> a[i][j] == b[i][j];
    }
  }

  /** Entry r*k + i of the column-major layout is m[i][k]: column k occupies positions k*r .. k*r + r - 1. */
  lemma {:induction false} ColumnMajorAt(m: Matrix, r: nat, c: nat, k: nat, i: nat)
    requires Covers(m, r, c)
    requires k < c && i < r
    ensures |ColumnMajor(m, r, c)| == c * r
    ensures k * r + i < c * r
    ensures ColumnMajor(m, r, c)[k * r + i] == m[i][k]
  {
    var prefix := ColumnMajor(m, r, c - 1);
    ColumnMajorLength(m, r, c - 1);
    assert |prefix| == c * r - r;
    if k < c - 1 {
      ColumnMajorAt(m, r, c - 1, k, i);
    } else {
      assert k * r == c * r - r;
    }
  }

  /** The column-major layout of c columns of r entries has r*c entries. */
  lemma {:induction false} ColumnMajorLength(m: Matrix, r: nat, c: nat)
    requires Covers(m, r, c)
    ensures |ColumnMajor(m, r, c)| == c * r
  {
    if c > 0 {
      ColumnMajorLength(m, r, c - 1);
      assert (c - 1) * r + r == c * r;
    }
  }
}
