/** The actor client interface of the linear optical model: the inputs overwrite the
    first motion sample in place (M1 motions in rows 0 to 41, M2 motions from row 42),
    and the outputs emit optical metrics. */
module ActorsInterface {
  import opened Errors
  import opened DenseMatrix
  import opened Motions
  import Iter
  import Lom

  /** The first `n` values of `s`, or all of them: `take(n)`. */
  function Take(s: seq<real>, n: nat): (r: seq<real>)
    ensures |r| == if |s| <= n then |s| else n
    ensures forall k :: 0 <= k < |r| ==> r[k] == s[k]
  {
    if |s| <= n then s else s[..n]
  }

  lemma ColumnZeroInside(m: Matrix)
    requires m.ncols > 0
    ensures m.nrows <= |m.data|
  {
    assert m.nrows * m.ncols == m.nrows * (m.ncols - 1) + m.nrows;
  }

  /** Column 0 of `m`, from row `from` on, zipped with `vals`: each paired entry is
      replaced by its value; the zip stops when the column or `vals` ends. */
  function Overwrite(m: Matrix, from: nat, vals: seq<real>): (r: Matrix)
    requires m.ncols > 0
    ensures r.nrows == m.nrows && r.ncols == m.ncols
  {
    ColumnZeroInside(m);
    Mat(m.nrows, m.ncols, seq(|m.data|, p requires 0 <= p < |m.data| =>
      if from <= p < m.nrows && p - from < |vals| then vals[p - from] else m.data[p]))
  }

  /** Entry `(i, j)` after the overwrite: the paired value in column 0, the old entry
      everywhere else. */
  lemma OverwriteAt(m: Matrix, from: nat, vals: seq<real>, i: nat, j: nat)
    requires m.ncols > 0 && i < m.nrows && j < m.ncols
    ensures At(Overwrite(m, from, vals), i, j)
      == if j == 0 && from <= i && i - from < |vals| then vals[i - from] else At(m, i, j)
  {
    ColumnMajorBound(m.nrows, m.ncols, i, j);
    if j > 0 {
      assert j * m.nrows >= m.nrows by {
        Iter.MulLe(1, j, m.nrows);
      }
    }
  }

  /** `column_mut(0).iter_mut().skip(from).zip(vals).for_each(|(x, v)| *x = *v)`. */
  method ZipColumn(m: Matrix, from: nat, vals: seq<real>) returns (r: Matrix)
    requires m.ncols > 0
    ensures r == Overwrite(m, from, vals)
  {
    ColumnZeroInside(m);
    var d := m.data;
    var k := 0;
    while from + k < m.nrows && k < |vals|
      invariant k <= |vals| && (k == 0 || from + k <= m.nrows)
      invariant |d| == |m.data|
      invariant forall p :: 0 <= p < |d| ==> d[p] == if from <= p < from + k then vals[p - from] else m.data[p]
    {
      d := d[from + k := vals[k]];
      k := k + 1;
    }
    r := Mat(m.nrows, m.ncols, d);
    assert r.data == Overwrite(m, from, vals).data;
  }

  /** `Read<M1RigidBodyMotions>`: the first 42 rows of column 0 take the M1 motions;
      a motion matrix without columns panics. */
  method ReadM1(lom: Lom.LOM, data: seq<real>) returns (o: Outcome)
    modifies lom
    ensures old(lom.rbm.data.ncols) == 0 ==> o == Fail(Panic(IndexOutOfRange)) && lom.rbm == old(lom.rbm)
    ensures old(lom.rbm.data.ncols) > 0 ==>
      o == Pass && lom.rbm == old(lom.rbm).(data := Overwrite(old(lom.rbm.data), 0, Take(data, M1Rows)))
  {
    if lom.rbm.data.ncols == 0 {
      return Fail(Panic(IndexOutOfRange));
    }
    var m := ZipColumn(lom.rbm.data, 0, Take(data, M1Rows));
    lom.rbm := lom.rbm.(data := m);
    o := Pass;
  }

  /** `Read<M2RigidBodyMotions>`: column 0 from row 42 on takes the M2 motions;
      a motion matrix without columns panics. */
  method ReadM2(lom: Lom.LOM, data: seq<real>) returns (o: Outcome)
    modifies lom
    ensures old(lom.rbm.data.ncols) == 0 ==> o == Fail(Panic(IndexOutOfRange)) && lom.rbm == old(lom.rbm)
    ensures old(lom.rbm.data.ncols) > 0 ==>
      o == Pass && lom.rbm == old(lom.rbm).(data := Overwrite(old(lom.rbm.data), M1Rows, data))
  {
    if lom.rbm.data.ncols == 0 {
      return Fail(Panic(IndexOutOfRange));
    }
    var m := ZipColumn(lom.rbm.data, M1Rows, data);
    lom.rbm := lom.rbm.(data := m);
    o := Pass;
  }

  /** After the M1 read, rows `0..min(42, |data|)` of column 0 hold the data in order;
      every other entry, the M2 block included, is unchanged. */
  lemma ReadM1At(m: Matrix, data: seq<real>, i: nat, j: nat)
    requires m.ncols > 0 && i < m.nrows && j < m.ncols
    ensures At(Overwrite(m, 0, Take(data, M1Rows)), i, j)
      == if j == 0 && i < M1Rows && i < |data| then data[i] else At(m, i, j)
  {
    OverwriteAt(m, 0, Take(data, M1Rows), i, j);
  }

  /** After the M2 read, rows from 42 on of column 0 hold the data in order, until the
      column or the data ends; every other entry, the M1 block included, is unchanged. */
  lemma ReadM2At(m: Matrix, data: seq<real>, i: nat, j: nat)
    requires m.ncols > 0 && i < m.nrows && j < m.ncols
    ensures At(Overwrite(m, M1Rows, data), i, j)
      == if j == 0 && M1Rows <= i && i - M1Rows < |data| then data[i - M1Rows] else At(m, i, j)
  {
    OverwriteAt(m, M1Rows, data, i, j);
  }

  /** The two reads touch disjoint rows, so their order does not matter. */
  lemma ReadsCommute(m: Matrix, m1: seq<real>, m2: seq<real>)
    requires m.ncols > 0
    ensures Overwrite(Overwrite(m, 0, Take(m1, M1Rows)), M1Rows, m2)
      == Overwrite(Overwrite(m, M1Rows, m2), 0, Take(m1, M1Rows))
  {
    var a := Overwrite(Overwrite(m, 0, Take(m1, M1Rows)), M1Rows, m2);
    var b := Overwrite(Overwrite(m, M1Rows, m2), 0, Take(m1, M1Rows));
    assert a.data == b.data;
  }

  /** `Write<TipTilt>`: emits the tip-tilt, two values per sample. */
  function WriteTipTilt(lom: Lom.LOM): (r: Result<seq<real>>)
    reads lom
    ensures r == lom.TipTilt()
    ensures r.Ok? ==> |r.value| == 2 * lom.Len()
  {
    lom.TipTilt()
  }

  /** `Write<SegmentTipTilt>`: emits the segment tip-tilt, 14 values per sample. */
  function WriteSegmentTipTilt(lom: Lom.LOM): (r: Result<seq<real>>)
    reads lom
    ensures r == lom.SegmentTipTilt()
    ensures r.Ok? ==> |r.value| == 14 * lom.Len()
  {
    lom.SegmentTipTilt()
  }

  /** `Write<fsm::TTFB>`: the fast steering mirror feedback is the segment tip-tilt. */
  function WriteTipTiltFeedback(lom: Lom.LOM): (r: Result<seq<real>>)
    reads lom
    ensures r == lom.SegmentTipTilt()
    ensures r.Ok? ==> |r.value| == 14 * lom.Len()
  {
    lom.SegmentTipTilt()
  }

  /** `Write<SegmentPiston>` as written: emits the segment tip-tilt. */
  function WriteSegmentPiston(lom: Lom.LOM): (r: Result<seq<real>>)
    reads lom
    ensures r == lom.SegmentTipTilt()
    ensures r.Ok? ==> |r.value| == 14 * lom.Len()
  {
    lom.SegmentTipTilt()
  }

  /** `Write<SegmentPiston>` as evidently intended: emits the segment piston. */
  function WriteSegmentPistonIntended(lom: Lom.LOM): (r: Result<seq<real>>)
    reads lom
    ensures r == lom.SegmentPiston()
    ensures r.Ok? ==> |r.value| == 7 * lom.Len()
  {
    lom.SegmentPiston()
  }

  /** As written, the segment piston output of a model with samples never has the
      7 values per sample of a segment piston: it has twice as many. */
  lemma SegmentPistonWriteMismatch(lom: Lom.LOM)
    requires WriteSegmentPiston(lom).Ok? && lom.Len() > 0
    ensures |WriteSegmentPiston(lom).value| == 2 * (7 * lom.Len())
    ensures |WriteSegmentPiston(lom).value| != 7 * lom.Len()
    ensures WriteSegmentPistonIntended(lom).Ok? ==> |WriteSegmentPistonIntended(lom).value| == 7 * lom.Len()
  {
    assert |WriteSegmentPiston(lom).value| == 14 * lom.Len();
  }
}
