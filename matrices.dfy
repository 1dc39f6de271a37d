/**
 * Dense real matrices as lists of rows, with the shape-checked operations the
 * network uses from its linear-algebra library: bias augmentation, dropping the
 * bias row, transpose, product, elementwise difference and product, scaling and
 * elementwise mapping. Entries are reals; IEEE-754 rounding is not modelled.
 * Each operation is written row by row (or column by column); its contract gives
 * the shape of the result, and a lemma beside it says what every entry is.
 */
module Matrices {

  type Matrix = seq<seq<real>>

  /** `m` has exactly `rows` rows, each of length `cols`. */
  predicate IsShape(m: Matrix, rows: nat, cols: nat)
  {
    |m| == rows && forall i :: 0 <= i < |m| ==> |m[i]| == cols
  }

  predicate SameShape(a: Matrix, b: Matrix)
  {
    |a| == |b| && forall i :: 0 <= i < |a| ==> |a[i]| == |b[i]|
  }

  function Dot(u: seq<real>, v: seq<real>): real
    requires |u| == |v|
  {
    if u == [] then 0.0 else u[0] * v[0] + Dot(u[1..], v[1..])
  }

  /** Column `j` of a matrix whose rows all have more than `j` entries. */
  function Column(m: Matrix, j: nat): (c: seq<real>)
    requires forall i :: 0 <= i < |m| ==> j < |m[i]|
    ensures |c| == |m| && forall i :: 0 <= i < |m| ==> c[i] == m[i][j]
  {
    if m == [] then [] else [m[0][j]] + Column(m[1..], j)
  }

  /** `biased`: prepends a 1.0 to every row. */
  function Biased(m: Matrix): (r: Matrix)
    ensures |r| == |m| && forall i :: 0 <= i < |m| ==> |r[i]| == |m[i]| + 1
  {
    if m == [] then [] else [[1.0] + m[0]] + Biased(m[1..])
  }

  /** Row `i` of the biased matrix is a 1.0 followed by row `i` of the original. */
  lemma {:induction false} BiasedRow(m: Matrix, i: nat)
    requires i < |m|
    ensures Biased(m)[i] == [1.0] + m[i]
  {
    if i > 0 {
      BiasedRow(m[1..], i - 1);
    }
  }

  /** `unbiased`: rows 1 until numRows, all columns; putting the first row back restores the matrix. */
  function Unbiased(m: Matrix): (r: Matrix)
    requires |m| >= 1
    ensures |r| == |m| - 1
    ensures forall k :: 0 <= k < |r| ==> r[k] == m[k + 1]
    ensures [m[0]] + r == m
  {
    m[1..]
  }

  /** The first `n` columns of `m`, as rows. */
  function Columns(m: Matrix, n: nat): (r: Matrix)
    requires forall i :: 0 <= i < |m| ==> n <= |m[i]|
    ensures IsShape(r, n, |m|)
  {
    if n == 0 then [] else Columns(m, n - 1) + [Column(m, n - 1)]
  }

  /** `.T` of a matrix with `cols` columns (given explicitly so a matrix without rows keeps its width). */
  function Transpose(m: Matrix, cols: nat): (r: Matrix)
    requires IsShape(m, |m|, cols)
    ensures IsShape(r, cols, |m|)
  {
    Columns(m, cols)
  }

  lemma {:induction false} ColumnsEntry(m: Matrix, n: nat, i: nat, j: nat)
    requires forall k :: 0 <= k < |m| ==> n <= |m[k]|
    requires i < |m| && j < n
    ensures Columns(m, n)[j][i] == m[i][j]
  {
    if j < n - 1 {
      ColumnsEntry(m, n - 1, i, j);
      assert Columns(m, n)[j] == Columns(m, n - 1)[j];
    }
  }

  /** Entry (j, i) of the transpose is entry (i, j) of the matrix. */
  lemma TransposeEntry(m: Matrix, cols: nat, i: nat, j: nat)
    requires IsShape(m, |m|, cols) && i < |m| && j < cols
    ensures Transpose(m, cols)[j][i] == m[i][j]
  {
    ColumnsEntry(m, cols, i, j);
  }

  /** Transposing twice gives the matrix back. */
  lemma TransposeInvolution(m: Matrix, cols: nat)
    requires IsShape(m, |m|, cols)
    ensures Transpose(Transpose(m, cols), |m|) == m
  {
    var t := Transpose(m, cols);
    var tt := Transpose(t, |m|);
    forall i | 0 <= i < |m|
      ensures tt[i] == m[i]
    {
      forall j | 0 <= j < cols
        ensures tt[i][j] == m[i][j]
      {
        TransposeEntry(t, |m|, j, i);
        TransposeEntry(m, cols, i, j);
      }
    }
  }

  /** Row `u` times the first `cols` columns of `b`. */
  function RowTimes(u: seq<real>, b: Matrix, cols: nat): (r: seq<real>)
    requires |b| == |u| && forall i :: 0 <= i < |b| ==> cols <= |b[i]|
    ensures |r| == cols
  {
    if cols == 0 then [] else RowTimes(u, b, cols - 1) + [Dot(u, Column(b, cols - 1))]
  }

  /** `a * b` for an `|a|` x `inner` matrix and an `inner` x `cols` matrix. */
  function Multiply(a: Matrix, b: Matrix, inner: nat, cols: nat): (r: Matrix)
    requires IsShape(a, |a|, inner) && IsShape(b, inner, cols)
    ensures IsShape(r, |a|, cols)
  {
    if a == [] then [] else [RowTimes(a[0], b, cols)] + Multiply(a[1..], b, inner, cols)
  }

  lemma {:induction false} RowTimesEntry(u: seq<real>, b: Matrix, cols: nat, j: nat)
    requires |b| == |u| && forall i :: 0 <= i < |b| ==> cols <= |b[i]|
    requires j < cols
    ensures RowTimes(u, b, cols)[j] == Dot(u, Column(b, j))
  {
    if j < cols - 1 {
      RowTimesEntry(u, b, cols - 1, j);
    }
  }

  lemma {:induction false} MultiplyRow(a: Matrix, b: Matrix, inner: nat, cols: nat, i: nat)
    requires IsShape(a, |a|, inner) && IsShape(b, inner, cols) && i < |a|
    ensures Multiply(a, b, inner, cols)[i] == RowTimes(a[i], b, cols)
  {
    if i > 0 {
      MultiplyRow(a[1..], b, inner, cols, i - 1);
    }
  }

  /** Entry (i, j) of a product is row `i` of `a` dotted with column `j` of `b`. */
  lemma MultiplyEntry(a: Matrix, b: Matrix, inner: nat, cols: nat, i: nat, j: nat)
    requires IsShape(a, |a|, inner) && IsShape(b, inner, cols) && i < |a| && j < cols
    ensures Multiply(a, b, inner, cols)[i][j] == Dot(a[i], Column(b, j))
  {
    MultiplyRow(a, b, inner, cols, i);
    RowTimesEntry(a[i], b, cols, j);
  }

  function MapRow(u: seq<real>, f: real -> real): (r: seq<real>)
    ensures |r| == |u|
  {
    if u == [] then [] else [f(u[0])] + MapRow(u[1..], f)
  }

  /** `mapMat(f)`. */
  function Map(m: Matrix, f: real -> real): (r: Matrix)
    ensures SameShape(r, m)
  {
    if m == [] then [] else [MapRow(m[0], f)] + Map(m[1..], f)
  }

  lemma {:induction false} MapRowEntry(u: seq<real>, f: real -> real, j: nat)
    requires j < |u|
    ensures MapRow(u, f)[j] == f(u[j])
  {
    if j > 0 {
      MapRowEntry(u[1..], f, j - 1);
    }
  }

  lemma {:induction false} MapRowOf(m: Matrix, f: real -> real, i: nat)
    requires i < |m|
    ensures Map(m, f)[i] == MapRow(m[i], f)
  {
    if i > 0 {
      MapRowOf(m[1..], f, i - 1);
    }
  }

  /** Entry (i, j) of `mapMat(f)` is `f` of entry (i, j). */
  lemma MapEntry(m: Matrix, f: real -> real, i: nat, j: nat)
    requires i < |m| && j < |m[i]|
    ensures Map(m, f)[i][j] == f(m[i][j])
  {
    MapRowOf(m, f, i);
    MapRowEntry(m[i], f, j);
  }

  function ZipRow(u: seq<real>, v: seq<real>, f: (real, real) -> real): (r: seq<real>)
    requires |u| == |v|
    ensures |r| == |u|
  {
    if u == [] then [] else [f(u[0], v[0])] + ZipRow(u[1..], v[1..], f)
  }

  /** Combines two matrices of the same shape entry by entry. */
  function ZipWith(a: Matrix, b: Matrix, f: (real, real) -> real): (r: Matrix)
    requires SameShape(a, b)
    ensures SameShape(r, a)
  {
    if a == [] then [] else [ZipRow(a[0], b[0], f)] + ZipWith(a[1..], b[1..], f)
  }

  lemma {:induction false} ZipRowEntry(u: seq<real>, v: seq<real>, f: (real, real) -> real, j: nat)
    requires |u| == |v| && j < |u|
    ensures ZipRow(u, v, f)[j] == f(u[j], v[j])
  {
    if j > 0 {
      ZipRowEntry(u[1..], v[1..], f, j - 1);
    }
  }

  lemma {:induction false} ZipWithRow(a: Matrix, b: Matrix, f: (real, real) -> real, i: nat)
    requires SameShape(a, b) && i < |a|
    ensures ZipWith(a, b, f)[i] == ZipRow(a[i], b[i], f)
  {
    if i > 0 {
      ZipWithRow(a[1..], b[1..], f, i - 1);
    }
  }

  /** Entry (i, j) of a combination is `f` of the two entries (i, j). */
  lemma ZipWithEntry(a: Matrix, b: Matrix, f: (real, real) -> real, i: nat, j: nat)
    requires SameShape(a, b) && i < |a| && j < |a[i]|
    ensures ZipWith(a, b, f)[i][j] == f(a[i][j], b[i][j])
  {
    ZipWithRow(a, b, f, i);
    ZipRowEntry(a[i], b[i], f, j);
  }

  /** `a - b`. */
  function Sub(a: Matrix, b: Matrix): (r: Matrix)
    requires SameShape(a, b)
    ensures SameShape(r, a)
  {
    ZipWith(a, b, (x, y) => x - y)
  }

  /** `a emul b`. */
  function EMul(a: Matrix, b: Matrix): (r: Matrix)
    requires SameShape(a, b)
    ensures SameShape(r, a)
  {
    ZipWith(a, b, (x, y) => x * y)
  }

  /** `c * m` for a scalar `c`. */
  function Scale(c: real, m: Matrix): (r: Matrix)
    ensures SameShape(r, m)
  {
    Map(m, x => c * x)
  }

  /** `m / d` for a non-zero scalar `d`. */
  function Divide(m: Matrix, d: real): (r: Matrix)
    requires d != 0.0
    ensures SameShape(r, m)
  {
    Map(m, x => x / d)
  }

  /** Entry-level meaning of the four elementwise operations the update step uses. */
  lemma ElementwiseEntries(a: Matrix, b: Matrix, c: real, d: real, i: nat, j: nat)
    requires SameShape(a, b) && i < |a| && j < |a[i]| && d != 0.0
    ensures Sub(a, b)[i][j] == a[i][j] - b[i][j]
    ensures EMul(a, b)[i][j] == a[i][j] * b[i][j]
    ensures Scale(c, a)[i][j] == c * a[i][j]
    ensures Divide(a, d)[i][j] == a[i][j] / d
  {
    ZipWithEntry(a, b, (x, y) => x - y, i, j);
    ZipWithEntry(a, b, (x, y) => x * y, i, j);
    MapEntry(a, x => c * x, i, j);
    MapEntry(a, x => x / d, i, j);
  }
}
