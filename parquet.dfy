/** Conversion of rigid body motions from and to an Arrow record batch with one list
    column of M1 motions and one of M2 motions, one row per time sample. */
module RigidBodyMotionsParquet {
  import opened Errors
  import opened Iter
  import opened DenseMatrix
  import opened Motions
  import opened Arrow

  /** Column labels read when none is given. */
  const DefaultM1Read: string := "OSSM1Lcl"
  const DefaultM2Read: string := "MCM2Lcl6D"

  /** Column labels written when none is given. */
  const DefaultM1Write: string := "M1RigidBodyMotions"
  const DefaultM2Write: string := "M2RigidBodyMotions"

  /** Number of motions per sample: M1's 42 then M2's 42. */
  const PerSample: nat := 2 * M1Rows

  /** `m1.iter().zip(m2.iter())`, each pair kept as the M1 values chained with the M2
      values when both lists are present and free of nulls. */
  function Paired(m1: seq<Cell>, m2: seq<Cell>): (r: seq<Option<seq<real>>>)
    ensures |r| == Min(|m1|, |m2|)
    ensures forall k :: 0 <= k < |r| ==> (r[k].Some? <==> Complete(m1[k]).Some? && Complete(m2[k]).Some?)
    ensures forall k :: 0 <= k < |r| && r[k].Some? ==> r[k].value == Complete(m1[k]).value + Complete(m2[k]).value
  {
    seq(Min(|m1|, |m2|), k requires 0 <= k < Min(|m1|, |m2|) =>
      match (Complete(m1[k]), Complete(m2[k]))
      case (Some(a), Some(b)) => Some(a + b)
      case _ => None)
  }

  /** The kept rows of the two columns found by label. */
  function Kept(rec: Record, i1: nat, i2: nat): seq<Sample>
    requires i1 < |rec| && i2 < |rec|
  {
    Filter(Paired(rec[i1].cells, rec[i2].cells))
  }

  /** `from_record`: the labelled columns (a missing label is a `FromRecord` error), the
      complete rows with their index as time, the sampling frequency from the first two
      times, and the kept rows packed as the columns of an `84 × n` matrix. */
  function FromRecord(rec: Record, m1Label: Option<string>, m2Label: Option<string>): (r: Result<RigidBodyMotions>)
    ensures var l1 := UnwrapOr(m1Label, DefaultM1Read);
      IndexOf(rec, l1).None? ==> r == Err(FromRecordError(l1))
    ensures var l1, l2 := UnwrapOr(m1Label, DefaultM1Read), UnwrapOr(m2Label, DefaultM2Read);
      IndexOf(rec, l1).Some? && IndexOf(rec, l2).None? ==> r == Err(FromRecordError(l2))
    ensures r.Ok? ==> r.value.format == AdHoc && r.value.data.nrows == PerSample && r.value.time.Some?
    ensures r.Ok? ==> |r.value.time.value| == r.value.data.ncols >= 2
    ensures var l1, l2 := UnwrapOr(m1Label, DefaultM1Read), UnwrapOr(m2Label, DefaultM2Read);
      IndexOf(rec, l1).Some? && IndexOf(rec, l2).Some? ==>
        var s := Pack(Kept(rec, IndexOf(rec, l1).value, IndexOf(rec, l2).value), PerSample);
        (s.Err? ==> r == Err(s.fault))
        && (s.Ok? ==> r == Ok(RigidBodyMotions(Some(s.value.samplingFrequency), Some(s.value.time), s.value.data, AdHoc)))
  {
    var l1 := UnwrapOr(m1Label, DefaultM1Read);
    var i1 := IndexOf(rec, l1);
    if i1.None? then Err(FromRecordError(l1))
    else
      var l2 := UnwrapOr(m2Label, DefaultM2Read);
      var i2 := IndexOf(rec, l2);
      if i2.None? then Err(FromRecordError(l2))
      else
        var s := Pack(Kept(rec, i1.value, i2.value), PerSample);
        if s.Err? then Err(s.fault)
        else Ok(RigidBodyMotions(Some(s.value.samplingFrequency), Some(s.value.time), s.value.data, AdHoc))
  }

  /** With both labels found, `from_record` panics on `time[1]` when fewer than two rows
      are kept and in `from_iterator` when the kept rows do not hold 84 values each, and
      succeeds otherwise. */
  lemma FromRecordOutcome(rec: Record, m1Label: Option<string>, m2Label: Option<string>, i1: nat, i2: nat)
    requires IndexOf(rec, UnwrapOr(m1Label, DefaultM1Read)) == Some(i1)
    requires IndexOf(rec, UnwrapOr(m2Label, DefaultM2Read)) == Some(i2)
    ensures var r, kept := FromRecord(rec, m1Label, m2Label), Kept(rec, i1, i2);
      (|kept| < 2 ==> r == Err(Panic(IndexOutOfRange)))
      && (|kept| >= 2 && |Flatten(Values(kept))| != PerSample * |kept| ==> r == Err(Panic(ShapeMismatch)))
      && (r.Ok? <==> |kept| >= 2 && |Flatten(Values(kept))| == PerSample * |kept|)
  {
    var kept := Kept(rec, i1, i2);
    SeriesOutcome(kept, Pack(kept, PerSample));
  }

  /** With both labels found, a successful `from_record` has the kept rows' indices as
      times and `1 / (t1 − t0)` as sampling frequency. */
  lemma FromRecordTiming(rec: Record, m1Label: Option<string>, m2Label: Option<string>, i1: nat, i2: nat)
    requires IndexOf(rec, UnwrapOr(m1Label, DefaultM1Read)) == Some(i1)
    requires IndexOf(rec, UnwrapOr(m2Label, DefaultM2Read)) == Some(i2)
    requires FromRecord(rec, m1Label, m2Label).Ok?
    ensures var r, kept := FromRecord(rec, m1Label, m2Label), Kept(rec, i1, i2);
      |kept| >= 2 && r.value.time == Some(Times(kept)) && r.value.samplingFrequency.Some?
      && Reciprocal(r.value.samplingFrequency.value, Times(kept))
  {
    var kept := Kept(rec, i1, i2);
    var s := Pack(kept, PerSample);
    SeriesOutcome(kept, s);
    var r := FromRecord(rec, m1Label, m2Label);
    assert s.Ok?;
    assert r.value.time == Some(s.value.time);
    assert r.value.samplingFrequency == Some(s.value.samplingFrequency);
  }

  /** `fs` is one over the first time step. */
  predicate Reciprocal(fs: real, time: seq<real>)
  {
    |time| >= 2 && fs * (time[1] - time[0]) == 1.0
  }

  lemma SeriesOutcome(kept: seq<Sample>, s: Result<Series>)
    requires forall a, b :: 0 <= a < b < |kept| ==> kept[a].index < kept[b].index
    requires s == Pack(kept, PerSample)
    ensures |kept| < 2 ==> s == Err(Panic(IndexOutOfRange))
    ensures |kept| >= 2 && |Flatten(Values(kept))| != PerSample * |kept| ==> s == Err(Panic(ShapeMismatch))
    ensures s.Ok? <==> |kept| >= 2 && |Flatten(Values(kept))| == PerSample * |kept|
    ensures s.Ok? ==> s.value.time == Times(kept) && Reciprocal(s.value.samplingFrequency, Times(kept))
  {
  }

  /** The times are the indices of the kept rows: increasing, within the table, and a row
      is kept exactly when both its lists are present and free of nulls. */
  lemma FromRecordTimes(rec: Record, i1: nat, i2: nat, row: nat)
    requires i1 < |rec| && i2 < |rec|
    ensures var kept := Kept(rec, i1, i2);
      forall a, b :: 0 <= a < b < |kept| ==> Times(kept)[a] < Times(kept)[b]
    ensures var kept := Kept(rec, i1, i2);
      forall a :: 0 <= a < |kept| ==> kept[a].index < |rec[i1].cells| && kept[a].index < |rec[i2].cells|
    ensures var kept := Kept(rec, i1, i2);
      row < |rec[i1].cells| && row < |rec[i2].cells| ==>
        ((exists a :: 0 <= a < |kept| && kept[a].index == row)
          <==> Complete(rec[i1].cells[row]).Some? && Complete(rec[i2].cells[row]).Some?)
  {
    var p := Paired(rec[i1].cells, rec[i2].cells);
    if row < |p| {
      FilterIff(p, row);
    }
  }

  /** When every kept row holds 84 motions, column `t` of the motion matrix is kept row
      `t`: the M1 motions then the M2 motions. */
  lemma FromRecordColumns(rec: Record, l1: string, l2: string, i: nat, t: nat)
    requires FromRecord(rec, Some(l1), Some(l2)).Ok?
    requires IndexOf(rec, l1).Some? && IndexOf(rec, l2).Some?
    requires Uniform(Values(Kept(rec, IndexOf(rec, l1).value, IndexOf(rec, l2).value)), PerSample)
    requires i < PerSample && t < FromRecord(rec, Some(l1), Some(l2)).value.data.ncols
    ensures var kept := Kept(rec, IndexOf(rec, l1).value, IndexOf(rec, l2).value);
      t < |kept| && |kept[t].values| == PerSample
      && At(FromRecord(rec, Some(l1), Some(l2)).value.data, i, t) == kept[t].values[i]
  {
    var kept := Kept(rec, IndexOf(rec, l1).value, IndexOf(rec, l2).value);
    PackAt(kept, PerSample, i, t);
  }

  /** The cell of sample `t` holding rows `from..from + 42` of the motion matrix. */
  function Block(m: Matrix, from: nat, t: nat): Cell
    requires from + M1Rows <= m.nrows && t < m.ncols
  {
    Some(seq(M1Rows, i requires 0 <= i < M1Rows => Some(At(m, from + i, t))))
  }

  /** `to_record`: one M1 list and one M2 list per sample; `rows(0, 42)` and
      `rows(42, 42)` panic on a matrix with fewer than 84 rows. */
  function ToRecord(r: RigidBodyMotions, m1Label: Option<string>, m2Label: Option<string>): (res: Result<Record>)
    ensures res.Ok? <==> r.data.nrows >= PerSample
    ensures res.Err? ==> res == Err(Panic(SliceOutOfRange))
    ensures res.Ok? ==> |res.value| == 2
    ensures res.Ok? ==> res.value[0].name == UnwrapOr(m1Label, DefaultM1Write)
    ensures res.Ok? ==> res.value[1].name == UnwrapOr(m2Label, DefaultM2Write)
    ensures res.Ok? ==> |res.value[0].cells| == |res.value[1].cells| == Samples(r)
  {
    var m := r.data;
    if m.nrows < PerSample then Err(Panic(SliceOutOfRange))
    else
      Ok([Column(UnwrapOr(m1Label, DefaultM1Write), seq(m.ncols, t requires 0 <= t < m.ncols => Block(m, 0, t))),
          Column(UnwrapOr(m2Label, DefaultM2Write), seq(m.ncols, t requires 0 <= t < m.ncols => Block(m, M1Rows, t)))])
  }

  /** Sample `t` is written as rows 0 to 41 of column `t` in the M1 list and rows 42 to
      83 in the M2 list, with no null. */
  lemma ToRecordAt(r: RigidBodyMotions, m1Label: Option<string>, m2Label: Option<string>, t: nat)
    requires ToRecord(r, m1Label, m2Label).Ok? && t < Samples(r)
    ensures var rec := ToRecord(r, m1Label, m2Label).value;
      Complete(rec[0].cells[t]) == Some(DenseMatrix.Column(r.data, t)[..M1Rows])
      && Complete(rec[1].cells[t]) == Some(DenseMatrix.Column(r.data, t)[M1Rows..PerSample])
  {
    var rec := ToRecord(r, m1Label, m2Label).value;
    assert Complete(rec[0].cells[t]).value == DenseMatrix.Column(r.data, t)[..M1Rows];
    assert Complete(rec[1].cells[t]).value == DenseMatrix.Column(r.data, t)[M1Rows..PerSample];
  }

  /** The rows of the record written from an `84 × n` matrix are all kept, in order. */
  lemma ToRecordKept(r: RigidBodyMotions, l1: string, l2: string)
    requires r.data.nrows == PerSample
    ensures ToRecord(r, Some(l1), Some(l2)).Ok?
    ensures var rec := ToRecord(r, Some(l1), Some(l2)).value;
      Kept(rec, 0, 1) == seq(Samples(r), t requires 0 <= t < Samples(r) => Sample(t, DenseMatrix.Column(r.data, t)))
  {
    var rec := ToRecord(r, Some(l1), Some(l2)).value;
    var p := Paired(rec[0].cells, rec[1].cells);
    forall t | 0 <= t < |p|
      ensures p[t] == Some(DenseMatrix.Column(r.data, t))
    {
      ToRecordAt(r, Some(l1), Some(l2), t);
      assert DenseMatrix.Column(r.data, t) == DenseMatrix.Column(r.data, t)[..M1Rows] + DenseMatrix.Column(r.data, t)[M1Rows..PerSample];
    }
    FilterAll(p);
  }

  /** Writing with two distinct labels and reading back with the same labels gives the
      motion matrix back, the row indices as times and a 1 Hz sampling frequency, for any
      matrix of 84 rows and at least two samples. */
  lemma RoundTrip(r: RigidBodyMotions, l1: string, l2: string)
    requires r.data.nrows == PerSample && Samples(r) >= 2 && l1 != l2
    ensures ToRecord(r, Some(l1), Some(l2)).Ok?
    ensures FromRecord(ToRecord(r, Some(l1), Some(l2)).value, Some(l1), Some(l2))
      == Ok(RigidBodyMotions(Some(1.0), Some(seq(Samples(r), t requires 0 <= t < Samples(r) => t as real)),
                             r.data, AdHoc))
  {
    var rec := ToRecord(r, Some(l1), Some(l2)).value;
    assert IndexOf(rec, l1) == Some(0);
    assert IndexOf(rec, l2) == Some(1) by {
      assert IndexOf(rec[1..], l2) == Some(0);
    }
    ToRecordKept(r, l1, l2);
    var kept := Kept(rec, 0, 1);
    assert Times(kept) == seq(Samples(r), t requires 0 <= t < Samples(r) => t as real);
    assert SamplingFrequency(kept) == Ok(1.0);
    assert Values(kept) == Columns(r.data);
    ColumnsFlatten(r.data);
  }

  /** The default labels written are not the default labels read: a record written
      without labels cannot be read back without labels. */
  lemma DefaultLabelsDiffer(r: RigidBodyMotions)
    requires r.data.nrows >= PerSample
    ensures ToRecord(r, None, None).Ok?
    ensures FromRecord(ToRecord(r, None, None).value, None, None) == Err(FromRecordError(DefaultM1Read))
  {
    var rec := ToRecord(r, None, None).value;
    assert DefaultM1Read != DefaultM1Write by {
      assert |DefaultM1Read| != |DefaultM1Write|;
    }
    assert DefaultM1Read != DefaultM2Write by {
      assert |DefaultM1Read| != |DefaultM2Write|;
    }
    assert IndexOf(rec, DefaultM1Read) == None;
  }
}
