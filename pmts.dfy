/** Pupil mounted tiltmeter (PMT) measurements: a `300 × n` time series read from the
    `PMT3D` list column of a table, a row selection on it, and the segment tip-tilt and
    segment piston obtained by multiplying it with a row-major PMT sensitivity matrix. */
module Pmts {
  import opened Errors
  import opened Iter
  import opened DenseMatrix
  import opened Arrow

  /** The label of the PMT column. */
  const Label: string := "PMT3D"

  /** Number of PMT channels per sample. */
  const Channels: nat := 300

  /** A PMT sensitivity as read from its records: values row after row. */
  datatype PmtSensitivity = PmtSensitivity(data: seq<real>, nRow: nat, nCol: nat)

  /** `PmtSensitivity::new` once the records are read: one row per record, as many columns
      as the first record has values, and the values of every record end to end; with no
      record `values[0]` panics. */
  function NewPmtSensitivity(records: seq<seq<real>>): (r: Result<PmtSensitivity>)
    ensures r.Ok? <==> records != []
    ensures records == [] ==> r == Err(Panic(IndexOutOfRange))
    ensures r.Ok? ==> r.value.nRow == |records| && r.value.nCol == |records[0]|
    ensures r.Ok? ==> r.value.data == Flatten(records)
  {
    if records == [] then Err(Panic(IndexOutOfRange))
    else Ok(PmtSensitivity(Flatten(records), |records|, |records[0]|))
  }

  /** `From<PmtSensitivity> for DMatrix`: a row-major reshape. */
  function SensitivityMatrix(s: PmtSensitivity): Result<Matrix>
  {
    FromRowSlice(s.nRow, s.nCol, s.data)
  }

  /** Records of equal length give a matrix whose row `r` is record `r`. */
  lemma SensitivityAt(records: seq<seq<real>>, c: nat, row: nat, col: nat)
    requires Uniform(records, c) && row < |records| && col < c
    ensures NewPmtSensitivity(records).Ok? && SensitivityMatrix(NewPmtSensitivity(records).value).Ok?
    ensures At(SensitivityMatrix(NewPmtSensitivity(records).value).value, row, col) == records[row][col]
  {
    UniformFlattenLength(records, c);
    UniformFlattenAt(records, c, row, col);
    FromRowSliceAt(|records|, c, Flatten(records), row, col);
  }

  /** Records of unequal length are still accepted when their total is the number of
      records times the first one's length: the rows then straddle the records. */
  lemma RaggedRecordsAccepted()
    ensures var records := [[1.0, 2.0], [3.0], [4.0, 5.0, 6.0]];
      NewPmtSensitivity(records).Ok? && SensitivityMatrix(NewPmtSensitivity(records).value).Ok?
      && At(SensitivityMatrix(NewPmtSensitivity(records).value).value, 1, 0) == 3.0
      && At(SensitivityMatrix(NewPmtSensitivity(records).value).value, 1, 1) == 4.0
  {
    var records := [[1.0, 2.0], [3.0], [4.0, 5.0, 6.0]];
    assert Flatten(records) == [1.0, 2.0, 3.0, 4.0, 5.0, 6.0] by {
      FlattenAppend([[1.0, 2.0], [3.0]], [4.0, 5.0, 6.0]);
      FlattenAppend([[1.0, 2.0]], [3.0]);
      FlattenAppend([], [1.0, 2.0]);
      assert [[1.0, 2.0], [3.0]] + [[4.0, 5.0, 6.0]] == records;
      assert [[1.0, 2.0]] + [[3.0]] == [[1.0, 2.0], [3.0]];
      assert [] + [[1.0, 2.0]] == [[1.0, 2.0]];
    }
    FromRowSliceAt(3, 2, Flatten(records), 1, 0);
    FromRowSliceAt(3, 2, Flatten(records), 1, 1);
  }

  /** The PMT cells of every row, with the values of the complete ones. */
  function Present(cells: seq<Cell>): (r: seq<Option<seq<real>>>)
    ensures |r| == |cells| && forall k :: 0 <= k < |cells| ==> r[k] == Complete(cells[k])
  {
    seq(|cells|, k requires 0 <= k < |cells| => Complete(cells[k]))
  }

  /** `Pmt::from_table`: the `PMT3D` column (a missing one is a `Table` error), its complete
      rows with their index as time, the sampling frequency from the first two times, and the
      rows packed as the columns of a `300 × n` matrix. */
  function Table(rec: Record): (r: Result<Series>)
    ensures IndexOf(rec, Label).None? ==> r == Err(TableError(Label))
    ensures IndexOf(rec, Label).Some? ==> r == Pack(Filter(Present(rec[IndexOf(rec, Label).value].cells)), Channels)
    ensures r.Ok? ==> r.value.data.nrows == Channels && |r.value.time| == r.value.data.ncols >= 2
  {
    var i := IndexOf(rec, Label);
    if i.None? then Err(TableError(Label))
    else Pack(Filter(Present(rec[i.value].cells)), Channels)
  }

  /** A row of the PMT column is kept exactly when its list is present and free of nulls;
      the times of the kept rows increase. */
  lemma TableRows(cells: seq<Cell>, row: nat)
    requires row < |cells|
    ensures var kept := Filter(Present(cells));
      (exists a :: 0 <= a < |kept| && kept[a].index == row) <==> Complete(cells[row]).Some?
    ensures var kept := Filter(Present(cells));
      forall a, b :: 0 <= a < b < |kept| ==> Times(kept)[a] < Times(kept)[b]
  {
    FilterIff(Present(cells), row);
  }

  /** Two rows of a `300 × n` matrix, the second with a null: only the first is kept, so
      the sampling frequency cannot be computed. */
  lemma TableNeedsTwoRows(x: real)
    ensures var cells := [Some(seq(Channels, k => Some(x))), Some([None])];
      Table([Column(Label, cells)]) == Err(Panic(IndexOutOfRange))
  {
    var cells := [Some(seq(Channels, k => Some(x))), Some([None])];
    var rows := Present(cells);
    assert rows[1] == None;
    assert Filter(rows) == Filter(rows[..1]);
    assert Filter(rows[..1]) == Filter(rows[..1][..0]) + [Sample(0, rows[0].value)];
  }

  class Pmt {
    var samplingFrequency: Option<real>
    var time: Option<seq<real>>
    var data: Matrix

    constructor (s: Series)
      ensures samplingFrequency == Some(s.samplingFrequency) && time == Some(s.time) && data == s.data
    {
      samplingFrequency := Some(s.samplingFrequency);
      time := Some(s.time);
      data := s.data;
    }

    /** `Pmt::from_table`. */
    static method FromTable(rec: Record) returns (r: Result<Pmt>)
      ensures r.Ok? <==> Table(rec).Ok?
      ensures r.Err? ==> r.fault == Table(rec).fault
      ensures r.Ok? ==> fresh(r.value) && r.value.data == Table(rec).value.data
      ensures r.Ok? ==> r.value.time == Some(Table(rec).value.time)
      ensures r.Ok? ==> r.value.samplingFrequency == Some(Table(rec).value.samplingFrequency)
    {
      var s :- Table(rec);
      var p := new Pmt(s);
      r := Ok(p);
    }

    /** `shuffle`: the data becomes the selected rows; a panic leaves it as it was. */
    method Shuffle(idx: seq<nat>) returns (o: Outcome)
      modifies this
      ensures Shuffled(old(data), idx).Ok? ==> o == Pass && data == Shuffled(old(data), idx).value
      ensures Shuffled(old(data), idx).Err? ==> o == Fail(Shuffled(old(data), idx).fault) && data == old(data)
      ensures samplingFrequency == old(samplingFrequency) && time == old(time)
    {
      var s := Shuffled(data, idx);
      if s.Err? {
        return Fail(s.fault);
      }
      data := s.value;
      o := Pass;
    }

    /** `segment_tiptilt`, given the records of the first PMT sensitivity file (14 rows):
        the product with the data scaled by `1e3`, one column of values per sample. */
    function SegmentTipTilt(records: seq<seq<real>>): (r: Result<seq<real>>)
      reads this
      ensures r.Ok? <==> Conformable(records, data)
      ensures r.Ok? ==> |r.value| == |records| * data.ncols
      ensures r.Ok? ==> forall p :: 0 <= p < |r.value| ==> r.value[p] == 1000.0 * ProductData(records, data)[p]
    {
      ScaledProduct(records, data, 1000.0)
    }

    /** `segment_piston`, given the records of the second PMT sensitivity file (7 rows):
        the product with the data scaled by `1e9`, one column of values per sample. */
    function SegmentPiston(records: seq<seq<real>>): (r: Result<seq<real>>)
      reads this
      ensures r.Ok? <==> Conformable(records, data)
      ensures r.Ok? ==> |r.value| == |records| * data.ncols
      ensures r.Ok? ==> forall p :: 0 <= p < |r.value| ==> r.value[p] == 1000000000.0 * ProductData(records, data)[p]
    {
      ScaledProduct(records, data, 1000000000.0)
    }
  }

  /** `idx.into_iter().map(|i| data.row(i)).collect()` then `DMatrix::from_rows`: a row
      index past the end panics first; an empty selection panics in `from_rows`. */
  function Shuffled(m: Matrix, idx: seq<nat>): (r: Result<Matrix>)
    ensures r.Ok? <==> idx != [] && forall k :: 0 <= k < |idx| ==> idx[k] < m.nrows
    ensures (exists k :: 0 <= k < |idx| && idx[k] >= m.nrows) ==> r == Err(Panic(IndexOutOfRange))
    ensures idx == [] ==> r == Err(Panic(EmptyRows))
    ensures r.Ok? ==> r.value.nrows == |idx| && r.value.ncols == m.ncols
  {
    if exists k :: 0 <= k < |idx| && idx[k] >= m.nrows then Err(Panic(IndexOutOfRange))
    else FromRows(seq(|idx|, k requires 0 <= k < |idx| => Row(m, idx[k])), m.ncols)
  }

  /** New row `k` is old row `idx[k]`. */
  lemma ShuffledAt(m: Matrix, idx: seq<nat>, k: nat, j: nat)
    requires Shuffled(m, idx).Ok? && k < |idx| && j < m.ncols
    ensures idx[k] < m.nrows
    ensures At(Shuffled(m, idx).value, k, j) == At(m, idx[k], j)
  {
    var rows := seq(|idx|, k requires 0 <= k < |idx| => Row(m, idx[k]));
    FromRowsAt(rows, m.ncols, k, j);
  }

  /** Selecting every row in order gives the matrix back. */
  lemma ShuffleIdentity(m: Matrix)
    requires m.nrows > 0
    ensures Shuffled(m, seq(m.nrows, i => i)) == Ok(m)
  {
    var idx := seq(m.nrows, i => i);
    var s := Shuffled(m, idx).value;
    forall p | 0 <= p < |m.data|
      ensures s.data[p] == m.data[p]
    {
      DivBound(m.nrows, m.ncols, p);
      Euclid(p, m.nrows);
      ShuffledAt(m, idx, p % m.nrows, p / m.nrows);
    }
    assert s.data == m.data;
  }

  /** The selection `b` applied to the selection `a`. */
  function Compose(a: seq<nat>, b: seq<nat>): (c: seq<nat>)
    requires forall k :: 0 <= k < |b| ==> b[k] < |a|
    ensures |c| == |b| && forall k :: 0 <= k < |b| ==> c[k] == a[b[k]]
  {
    seq(|b|, k requires 0 <= k < |b| => a[b[k]])
  }

  lemma ShuffleComposeAt(m: Matrix, a: seq<nat>, b: seq<nat>, k: nat, j: nat)
    requires Shuffled(m, a).Ok? && Shuffled(Shuffled(m, a).value, b).Ok?
    requires k < |b| && j < m.ncols
    ensures forall k :: 0 <= k < |b| ==> b[k] < |a|
    ensures Shuffled(m, Compose(a, b)).Ok?
    ensures At(Shuffled(Shuffled(m, a).value, b).value, k, j) == At(Shuffled(m, Compose(a, b)).value, k, j)
  {
    ShuffledAt(Shuffled(m, a).value, b, k, j);
    ShuffledAt(m, a, b[k], j);
    ShuffledAt(m, Compose(a, b), k, j);
  }

  /** Two shuffles are one shuffle by the composed selection. */
  lemma ShuffleCompose(m: Matrix, a: seq<nat>, b: seq<nat>)
    requires Shuffled(m, a).Ok? && Shuffled(Shuffled(m, a).value, b).Ok?
    ensures forall k :: 0 <= k < |b| ==> b[k] < |a|
    ensures Shuffled(Shuffled(m, a).value, b) == Shuffled(m, Compose(a, b))
  {
    var s := Shuffled(Shuffled(m, a).value, b).value;
    var t := Shuffled(m, Compose(a, b)).value;
    forall p | 0 <= p < |s.data|
      ensures s.data[p] == t.data[p]
    {
      DivBound(s.nrows, s.ncols, p);
      Euclid(p, s.nrows);
      ShuffleComposeAt(m, a, b, p % s.nrows, p / s.nrows);
    }
    assert s.data == t.data;
  }

  /** The records reshape into a sensitivity whose column count is the number of PMT
      rows: the condition under which the scaled product does not panic. */
  predicate Conformable(records: seq<seq<real>>, data: Matrix)
  {
    records != [] && |Flatten(records)| == |records| * |records[0]| && |records[0]| == data.nrows
  }

  /** `pmt_sens * data`: the sensitivity built from the records times the PMT samples. */
  function Product(records: seq<seq<real>>, data: Matrix): (r: Result<Matrix>)
    ensures r.Ok? <==> Conformable(records, data)
    ensures r.Ok? ==> r.value.nrows == |records| && r.value.ncols == data.ncols
  {
    var sens :- NewPmtSensitivity(records);
    var m :- SensitivityMatrix(sens);
    Mul(m, data)
  }

  /** The storage of the product, empty when the product panics. */
  function ProductData(records: seq<seq<real>>, data: Matrix): (v: seq<real>)
    ensures Conformable(records, data) ==> |v| == |records| * data.ncols
  {
    match Product(records, data)
    case Ok(prod) => prod.data
    case Err(_) => []
  }

  /** `(pmt_sens * data).map(|x| x * factor)`, flattened column-major; an empty sensitivity
      panics on `values[0]` and a shape mismatch panics in the product. */
  function ScaledProduct(records: seq<seq<real>>, data: Matrix, factor: real): (r: Result<seq<real>>)
    ensures r.Ok? <==> Conformable(records, data)
    ensures r.Ok? ==> |r.value| == |records| * data.ncols == |ProductData(records, data)|
    ensures r.Ok? ==> forall p :: 0 <= p < |r.value| ==> r.value[p] == factor * ProductData(records, data)[p]
  {
    var prod :- Product(records, data);
    Ok(ScaleBy(prod.data, factor))
  }

  /** `map(|x| x * factor)`. */
  function ScaleBy(v: seq<real>, factor: real): (r: seq<real>)
    ensures |r| == |v| && forall p :: 0 <= p < |v| ==> r[p] == factor * v[p]
  {
    seq(|v|, p requires 0 <= p < |v| => factor * v[p])
  }

  /** Entry `i` of sample `t` of the product, at `p = t·n + i` of its storage, is row `i` of
      the sensitivity applied to PMT sample `t`; row `i` is record `i` when the records have
      equal length. */
  lemma ProductAt(records: seq<seq<real>>, data: Matrix, i: nat, t: nat, p: nat)
    requires Conformable(records, data) && i < |records| && t < data.ncols
    requires p == t * |records| + i
    ensures SensitivityMatrix(NewPmtSensitivity(records).value).Ok?
    ensures p < |ProductData(records, data)|
    ensures ProductData(records, data)[p]
      == Dot(SensitivityMatrix(NewPmtSensitivity(records).value).value, i, data, t, data.nrows)
  {
    var m := SensitivityMatrix(NewPmtSensitivity(records).value).value;
    ColumnMajorBound(|records|, data.ncols, i, t);
    MulAt(m, data, i, t);
  }
}
