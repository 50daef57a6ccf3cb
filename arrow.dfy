/** Arrow record batches as the motion tables use them: named columns whose cells are
    nullable lists of nullable 64-bit floats, and the row filter that keeps the rows
    whose lists are present and free of nulls. */
module Arrow {
  import opened Errors
  import opened Iter
  import opened DenseMatrix

  /** One cell of a list column: null, or a list whose items may be null. */
  type Cell = Option<seq<Option<real>>>

  datatype Column = Column(name: string, cells: seq<Cell>)

  /** A record batch: its columns in schema order. */
  type Record = seq<Column>

  /** `Schema::index_of` / `column_with_name`: the first column with that name. */
  function IndexOf(rec: Record, name: string): (r: Option<nat>)
    ensures r.Some? ==> r.value < |rec| && rec[r.value].name == name
    ensures r.Some? ==> forall j :: 0 <= j < r.value ==> rec[j].name != name
    ensures r.None? <==> forall j :: 0 <= j < |rec| ==> rec[j].name != name
  {
    if rec == [] then None
    else if rec[0].name == name then Some(0)
    else
      match IndexOf(rec[1..], name)
      case None => None
      case Some(j) => Some(j + 1)
  }

  /** `iter().collect::<Option<Vec<f64>>>()`: all the items, or `None` at the first null. */
  function AllSome(xs: seq<Option<real>>): (r: Option<seq<real>>)
    ensures r.Some? <==> forall k :: 0 <= k < |xs| ==> xs[k].Some?
    ensures r.Some? ==> |r.value| == |xs| && forall k :: 0 <= k < |xs| ==> r.value[k] == xs[k].value
  {
    if xs == [] then Some([])
    else
      match AllSome(xs[..|xs| - 1])
      case None => None
      case Some(init) =>
        match xs[|xs| - 1]
        case None => None
        case Some(x) => Some(init + [x])
  }

  /** The values of a cell that is present and free of nulls. */
  function Complete(c: Cell): (r: Option<seq<real>>)
    ensures r.Some? <==> c.Some? && forall k :: 0 <= k < |c.value| ==> c.value[k].Some?
  {
    match c
    case None => None
    case Some(xs) => AllSome(xs)
  }

  /** A kept row: its index in the table, which becomes its time, and its values. */
  datatype Sample = Sample(index: nat, values: seq<real>)

  /** `enumerate().filter_map(..)`: the rows whose values are present, with their index. */
  function Filter(rows: seq<Option<seq<real>>>): (r: seq<Sample>)
    ensures |r| <= |rows|
    ensures forall k :: 0 <= k < |r| ==> r[k].index < |rows| && rows[r[k].index] == Some(r[k].values)
    ensures forall a, b :: 0 <= a < b < |r| ==> r[a].index < r[b].index
  {
    if rows == [] then []
    else
      var n := |rows| - 1;
      var init := Filter(rows[..n]);
      match rows[n]
      case None => init
      case Some(v) => init + [Sample(n, v)]
  }

  /** Every present row is kept. */
  lemma {:induction false} FilterKeeps(rows: seq<Option<seq<real>>>, i: nat)
    requires i < |rows| && rows[i].Some?
    ensures exists k :: 0 <= k < |Filter(rows)| && Filter(rows)[k].index == i
  {
    var n := |rows| - 1;
    if i < n {
      assert rows[..n][i] == rows[i];
      FilterKeeps(rows[..n], i);
      var k :| 0 <= k < |Filter(rows[..n])| && Filter(rows[..n])[k].index == i;
      assert Filter(rows)[k] == Filter(rows[..n])[k];
    } else {
      assert Filter(rows)[|Filter(rows)| - 1].index == i;
    }
  }

  /** A row is kept exactly when its values are present. */
  lemma FilterIff(rows: seq<Option<seq<real>>>, i: nat)
    requires i < |rows|
    ensures (exists k :: 0 <= k < |Filter(rows)| && Filter(rows)[k].index == i) <==> rows[i].Some?
  {
    if rows[i].Some? {
      FilterKeeps(rows, i);
    }
  }

  /** When every row is present, every row is kept, at its own index. */
  lemma {:induction false} FilterAll(rows: seq<Option<seq<real>>>)
    requires forall k :: 0 <= k < |rows| ==> rows[k].Some?
    ensures Filter(rows) == seq(|rows|, k requires 0 <= k < |rows| => Sample(k, rows[k].value))
  {
    if rows != [] {
      var n := |rows| - 1;
      FilterAll(rows[..n]);
    }
  }

  /** The times of the kept rows: their indices. */
  function Times(kept: seq<Sample>): (t: seq<real>)
    ensures |t| == |kept|
  {
    seq(|kept|, k requires 0 <= k < |kept| => kept[k].index as real)
  }

  /** The values of the kept rows. */
  function Values(kept: seq<Sample>): (v: seq<seq<real>>)
    ensures |v| == |kept|
  {
    seq(|kept|, k requires 0 <= k < |kept| => kept[k].values)
  }

  /** `(time[1] - time[0]).recip()`: indexing `time[1]` panics with fewer than two rows;
      kept indices increase, so the difference is positive. */
  function SamplingFrequency(kept: seq<Sample>): (r: Result<real>)
    requires forall a, b :: 0 <= a < b < |kept| ==> kept[a].index < kept[b].index
    ensures r.Ok? <==> |kept| >= 2
    ensures r.Err? ==> r == Err(Panic(IndexOutOfRange))
    ensures r.Ok? ==> r.value > 0.0 && r.value * (Times(kept)[1] - Times(kept)[0]) == 1.0
  {
    if |kept| < 2 then Err(Panic(IndexOutOfRange))
    else
      var d := Times(kept)[1] - Times(kept)[0];
      assert d > 0.0;
      Ok(1.0 / d)
  }

  /** A table read as a time series: the sampling frequency, the times and the samples as
      matrix columns. */
  datatype Series = Series(samplingFrequency: real, time: seq<real>, data: Matrix)

  /** The kept rows as a time series: `(time[1] - time[0]).recip()` first, then
      `DMatrix::from_iterator(rows, n, values.flatten())`, which needs exactly
      `rows × n` values. */
  function Pack(kept: seq<Sample>, rows: nat): (r: Result<Series>)
    requires forall a, b :: 0 <= a < b < |kept| ==> kept[a].index < kept[b].index
    ensures r.Ok? <==> |kept| >= 2 && |Flatten(Values(kept))| == rows * |kept|
    ensures |kept| < 2 ==> r == Err(Panic(IndexOutOfRange))
    ensures |kept| >= 2 && |Flatten(Values(kept))| != rows * |kept| ==> r == Err(Panic(ShapeMismatch))
    ensures r.Ok? ==> r.value.time == Times(kept) && r.value.data.nrows == rows && r.value.data.ncols == |kept|
    ensures r.Ok? ==> r.value.samplingFrequency * (Times(kept)[1] - Times(kept)[0]) == 1.0
  {
    var fs :- SamplingFrequency(kept);
    var data :- FromColumnSlice(rows, |kept|, Flatten(Values(kept)));
    Ok(Series(fs, Times(kept), data))
  }

  /** Kept rows of `rows` values each become the columns of the matrix, in order. */
  lemma PackAt(kept: seq<Sample>, rows: nat, i: nat, t: nat)
    requires forall a, b :: 0 <= a < b < |kept| ==> kept[a].index < kept[b].index
    requires |kept| >= 2 && Uniform(Values(kept), rows) && i < rows && t < |kept|
    ensures Pack(kept, rows).Ok?
    ensures |kept[t].values| == rows
    ensures At(Pack(kept, rows).value.data, i, t) == kept[t].values[i]
  {
    UniformFlattenLength(Values(kept), rows);
    assert Values(kept)[t] == kept[t].values;
    UniformFlattenAt(Values(kept), rows, t, i);
    FromColumnSliceAt(rows, |kept|, Flatten(Values(kept)), i, t);
  }
}
