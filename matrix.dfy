/** The part of nalgebra's dynamically sized `DMatrix<f64>` that the crate relies on:
    column-major storage, construction from a slice or an iterator (which assert the
    element count), construction from a row-major slice or from a list of rows, the
    matrix product, and column and row views. */
module DenseMatrix {
  import opened Errors
  import opened Iter

  datatype Mat = Mat(nrows: nat, ncols: nat, data: seq<real>)

  /** A matrix whose storage holds exactly `nrows · ncols` entries, column after column. */
  type Matrix = m: Mat | |m.data| == m.nrows * m.ncols witness Mat(0, 0, [])

  /** Entry `(i, j)` of an `r × c` column-major layout lies inside the storage. */
  lemma ColumnMajorBound(r: nat, c: nat, i: nat, j: nat)
    requires i < r && j < c
    ensures j * r + i < r * c
  {
    MulLe(j + 1, c, r);
  }

  /** Position `j·r + i` with `i < r` splits back into column `j` and row `i`. */
  lemma DivModSplit(r: nat, i: nat, j: nat)
    requires i < r
    ensures (j * r + i) / r == j && (j * r + i) % r == i
  {
    var p := j * r + i;
    var q := p / r;
    var m := p % r;
    assert q * r + m == p;
    if q < j {
      MulLe(q + 1, j, r);
    } else if q > j {
      MulLe(j + 1, q, r);
    }
  }

  /** A position inside an `r × c` storage names a valid column and row. */
  lemma DivBound(r: nat, c: nat, p: nat)
    requires p < r * c
    ensures r > 0 && p / r < c && p % r < r
  {
    if p / r >= c {
      MulLe(c, p / r, r);
    }
  }

  function At(m: Matrix, i: nat, j: nat): real
    requires i < m.nrows && j < m.ncols
  {
    ColumnMajorBound(m.nrows, m.ncols, i, j);
    m.data[j * m.nrows + i]
  }

  /** `DMatrix::from_column_slice(r, c, s)` and `DMatrix::from_iterator(r, c, it)`:
      the storage is taken as given, and a wrong element count panics. */
  function FromColumnSlice(r: nat, c: nat, s: seq<real>): (res: Result<Matrix>)
    ensures res.Ok? <==> |s| == r * c
    ensures res.Ok? ==> res.value.nrows == r && res.value.ncols == c && res.value.data == s
  {
    if |s| == r * c then Ok(Mat(r, c, s)) else Err(Panic(ShapeMismatch))
  }

  /** Entry `(i, j)` of a column-major construction is element `j·r + i` of the slice. */
  lemma FromColumnSliceAt(r: nat, c: nat, s: seq<real>, i: nat, j: nat)
    requires |s| == r * c && i < r && j < c
    ensures FromColumnSlice(r, c, s).Ok?
    ensures j * r + i < |s| && At(FromColumnSlice(r, c, s).value, i, j) == s[j * r + i]
  {
    ColumnMajorBound(r, c, i, j);
  }

  /** `DMatrix::from_row_slice(r, c, s)`: entry `(i, j)` is `s[i·c + j]`. */
  function FromRowSlice(r: nat, c: nat, s: seq<real>): (res: Result<Matrix>)
    ensures res.Ok? <==> |s| == r * c
    ensures res.Ok? ==> res.value.nrows == r && res.value.ncols == c
  {
    if |s| == r * c then
      Ok(Mat(r, c, seq(r * c, p requires 0 <= p < r * c =>
        DivBound(r, c, p);
        ColumnMajorBound(c, r, p / r, p % r);
        s[(p % r) * c + p / r])))
    else
      Err(Panic(ShapeMismatch))
  }

  lemma {:induction false} FromRowSliceAt(r: nat, c: nat, s: seq<real>, i: nat, j: nat)
    requires |s| == r * c && i < r && j < c
    ensures FromRowSlice(r, c, s).Ok?
    ensures i * c + j < |s| && At(FromRowSlice(r, c, s).value, i, j) == s[i * c + j]
  {
    ColumnMajorBound(r, c, i, j);
    DivModSplit(r, i, j);
    ColumnMajorBound(c, r, j, i);
  }

  /** `Σ_{q < k} a(i, q) · b(q, t)`. */
  function Dot(a: Matrix, i: nat, b: Matrix, t: nat, k: nat): real
    requires i < a.nrows && t < b.ncols && k <= a.ncols && k <= b.nrows
  {
    if k == 0 then 0.0 else Dot(a, i, b, t, k - 1) + At(a, i, k - 1) * At(b, k - 1, t)
  }

  /** The matrix product `a * b`; nalgebra panics when the inner dimensions differ. */
  function Mul(a: Matrix, b: Matrix): (res: Result<Matrix>)
    ensures res.Ok? <==> a.ncols == b.nrows
    ensures res.Ok? ==> res.value.nrows == a.nrows && res.value.ncols == b.ncols
  {
    if a.ncols == b.nrows then
      Ok(Mat(a.nrows, b.ncols, seq(a.nrows * b.ncols, p requires 0 <= p < a.nrows * b.ncols =>
        DivBound(a.nrows, b.ncols, p);
        Dot(a, p % a.nrows, b, p / a.nrows, a.ncols))))
    else
      Err(Panic(DimensionMismatch))
  }

  /** Entry `(i, t)` of the product is the dot product of row `i` of `a` with column `t` of `b`. */
  lemma MulAt(a: Matrix, b: Matrix, i: nat, t: nat)
    requires a.ncols == b.nrows && i < a.nrows && t < b.ncols
    ensures Mul(a, b).Ok?
    ensures At(Mul(a, b).value, i, t) == Dot(a, i, b, t, a.ncols)
  {
    ColumnMajorBound(a.nrows, b.ncols, i, t);
    DivModSplit(a.nrows, i, t);
  }

  /** Column `j`, top to bottom (`column(j).as_slice()`). */
  function Column(m: Matrix, j: nat): (col: seq<real>)
    requires j < m.ncols
    ensures |col| == m.nrows
    ensures forall i :: 0 <= i < m.nrows ==> col[i] == At(m, i, j)
  {
    seq(m.nrows, i requires 0 <= i < m.nrows => At(m, i, j))
  }

  /** Row `i`, left to right (`row(i)`). */
  function Row(m: Matrix, i: nat): (row: seq<real>)
    requires i < m.nrows
    ensures |row| == m.ncols
    ensures forall j :: 0 <= j < m.ncols ==> row[j] == At(m, i, j)
  {
    seq(m.ncols, j requires 0 <= j < m.ncols => At(m, i, j))
  }

  /** The columns of a matrix, in order: `column_iter()`. */
  function Columns(m: Matrix): (cols: seq<seq<real>>)
    ensures |cols| == m.ncols && Uniform(cols, m.nrows)
    ensures forall t :: 0 <= t < m.ncols ==> cols[t] == Column(m, t)
  {
    seq(m.ncols, t requires 0 <= t < m.ncols => Column(m, t))
  }

  /** Division with remainder by a positive divisor. */
  lemma Euclid(p: nat, r: nat)
    requires r > 0
    ensures p == (p / r) * r + p % r
  {
  }

  lemma ColumnsFlattenAt(m: Matrix, i: nat, t: nat)
    requires i < m.nrows && t < m.ncols
    ensures t * m.nrows + i < |Flatten(Columns(m))|
    ensures Flatten(Columns(m))[t * m.nrows + i] == At(m, i, t)
  {
    UniformFlattenAt(Columns(m), m.nrows, t, i);
    assert Columns(m)[t][i] == At(m, i, t);
  }

  /** The columns of a matrix, laid end to end, are its column-major storage. */
  lemma ColumnsFlatten(m: Matrix)
    ensures Flatten(Columns(m)) == m.data
  {
    UniformFlattenLength(Columns(m), m.nrows);
    forall p | 0 <= p < |m.data|
      ensures Flatten(Columns(m))[p] == m.data[p]
    {
      DivBound(m.nrows, m.ncols, p);
      Euclid(p, m.nrows);
      ColumnsFlattenAt(m, p % m.nrows, p / m.nrows);
    }
  }

  /** `DMatrix::from_rows(rows)`, every row holding `c` entries: at least one row must
      be given. */
  function FromRows(rows: seq<seq<real>>, c: nat): (res: Result<Matrix>)
    requires Uniform(rows, c)
    ensures res.Ok? <==> rows != []
    ensures rows == [] ==> res == Err(Panic(EmptyRows))
    ensures res.Ok? ==> res.value.nrows == |rows| && res.value.ncols == c
  {
    if rows == [] then Err(Panic(EmptyRows))
    else
      var n := |rows|;
      Ok(Mat(n, c, seq(n * c, p requires 0 <= p < n * c =>
        DivBound(n, c, p);
        rows[p % n][p / n])))
  }

  /** Entry `(i, j)` of the matrix built from rows is entry `j` of row `i`. */
  lemma FromRowsAt(rows: seq<seq<real>>, c: nat, i: nat, j: nat)
    requires Uniform(rows, c) && i < |rows| && j < c
    ensures FromRows(rows, c).Ok?
    ensures At(FromRows(rows, c).value, i, j) == rows[i][j]
  {
    ColumnMajorBound(|rows|, c, i, j);
    DivModSplit(|rows|, i, j);
  }
}
