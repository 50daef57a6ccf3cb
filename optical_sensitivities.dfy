/** Optical sensitivities: the linear maps from the 84 rigid body motions of the GMT
    primary and secondary segments (7 segments × 6 motions × 2 mirrors, M1 first) to
    the exit-pupil wavefront, tip-tilt, segment tip-tilt and segment piston, stored
    column-major, together with the segment and pupil masks. */
module OpticalSensitivities {
  import opened Errors
  import opened Iter
  import opened DenseMatrix

  /** Number of rigid body motions: the fixed const generic of the crate. */
  const N: nat := 84

  datatype Sensitivity =
    | Wavefront(values: seq<real>)       // `[n × 84]`, n the number of pupil points
    | TipTilt(values: seq<real>)         // `[2 × 84]`
    | SegmentTipTilt(values: seq<real>)  // `[14 × 84]`
    | SegmentPiston(values: seq<real>)   // `[7 × 84]`
    | SegmentMask(ids: seq<int>)
    | PupilMask(pupil: seq<bool>)

  /** The variant tag, as an independent reference for comparisons. */
  function Tag(s: Sensitivity): nat
  {
    match s
    case Wavefront(_) => 0
    case TipTilt(_) => 1
    case SegmentTipTilt(_) => 2
    case SegmentPiston(_) => 3
    case SegmentMask(_) => 4
    case PupilMask(_) => 5
  }

  predicate IsFloat(s: Sensitivity)
  {
    s.Wavefront? || s.TipTilt? || s.SegmentTipTilt? || s.SegmentPiston?
  }

  /** `PartialEq`: payloads are ignored; there is no arm for `PupilMask`, so a
      `PupilMask` equals nothing, not even another `PupilMask`. */
  function Eq(a: Sensitivity, b: Sensitivity): (r: bool)
    ensures r <==> Tag(a) == Tag(b) && !a.PupilMask?
  {
    match (a, b)
    case (Wavefront(_), Wavefront(_)) => true
    case (TipTilt(_), TipTilt(_)) => true
    case (SegmentTipTilt(_), SegmentTipTilt(_)) => true
    case (SegmentPiston(_), SegmentPiston(_)) => true
    case (SegmentMask(_), SegmentMask(_)) => true
    case _ => false
  }

  /** The comparison evidently intended: equal tags, `PupilMask` included. */
  function EqIntended(a: Sensitivity, b: Sensitivity): (r: bool)
    ensures r <==> Tag(a) == Tag(b)
    ensures r == (Eq(a, b) || (a.PupilMask? && b.PupilMask?))
  {
    Tag(a) == Tag(b)
  }

  /** `iter().find_map(...)`: the position of the first stored element equal to `key`. */
  function FindWith(eq: (Sensitivity, Sensitivity) -> bool, store: seq<Sensitivity>, key: Sensitivity): (r: Option<nat>)
    ensures r.Some? ==> r.value < |store| && eq(key, store[r.value])
    ensures r.Some? ==> forall j :: 0 <= j < r.value ==> !eq(key, store[j])
    ensures r.None? <==> forall j :: 0 <= j < |store| ==> !eq(key, store[j])
  {
    if store == [] then None
    else if eq(key, store[0]) then Some(0)
    else
      match FindWith(eq, store[1..], key)
      case None => None
      case Some(i) => Some(i + 1)
  }

  /** `Index<OpticalSensitivity>`: the first element with the key's tag; `unwrap` panics
      when there is none. */
  function Index(store: seq<Sensitivity>, key: Sensitivity): (r: Result<Sensitivity>)
    ensures r.Ok? <==> exists j :: 0 <= j < |store| && Eq(key, store[j])
    ensures r.Ok? ==> Tag(r.value) == Tag(key) && r.value in store
    ensures r.Err? ==> r == Err(Panic(NoMatch))
  {
    match FindWith(Eq, store, key)
    case Some(j) => Ok(store[j])
    case None => Err(Panic(NoMatch))
  }

  /** The lookup with the intended comparison. */
  function IndexIntended(store: seq<Sensitivity>, key: Sensitivity): (r: Result<Sensitivity>)
    ensures r.Ok? <==> exists j :: 0 <= j < |store| && Tag(store[j]) == Tag(key)
    ensures r.Ok? ==> Tag(r.value) == Tag(key) && r.value in store
  {
    match FindWith(EqIntended, store, key)
    case Some(j) => Ok(store[j])
    case None => Err(Panic(NoMatch))
  }

  /** As written, a `PupilMask` key is never found, whatever the store holds. */
  lemma PupilMaskNeverFound(store: seq<Sensitivity>, p: seq<bool>)
    requires PupilMask([]) in store
    ensures Index(store, PupilMask(p)) == Err(Panic(NoMatch))
    ensures IndexIntended(store, PupilMask(p)).Ok? && IndexIntended(store, PupilMask(p)).value.PupilMask?
  {
    var j :| 0 <= j < |store| && store[j] == PupilMask([]);
    assert Tag(store[j]) == Tag(PupilMask(p));
  }

  /** The first element with a tag is the one `Index` returns, for every tag but `PupilMask`. */
  lemma IndexFirst(store: seq<Sensitivity>, key: Sensitivity, j: nat)
    requires !key.PupilMask? && j < |store| && Tag(store[j]) == Tag(key)
    requires forall k :: 0 <= k < j ==> Tag(store[k]) != Tag(key)
    ensures Index(store, key) == Ok(store[j])
  {
    assert Eq(key, store[j]);
  }

  /** Number of rows of the matrix view of a floating-point sensitivity. */
  function Rows(s: Sensitivity): nat
  {
    match s
    case Wavefront(v) => |v| / N
    case TipTilt(_) => 2
    case SegmentTipTilt(_) => 14
    case SegmentPiston(_) => 7
    case _ => 0
  }

  /** `From<&OpticalSensitivity> for DMatrix`: the payload as a column-major
      `Rows(s) × 84` matrix; the masks panic. */
  function ToMatrix(s: Sensitivity): (r: Result<Matrix>)
    ensures r.Ok? <==> IsFloat(s) && |s.values| == Rows(s) * N
    ensures r.Ok? ==> r.value.nrows == Rows(s) && r.value.ncols == N && r.value.data == s.values
    ensures !IsFloat(s) ==> r == Err(Panic(NoMatch))
  {
    if IsFloat(s) then FromColumnSlice(Rows(s), N, s.values) else Err(Panic(NoMatch))
  }

  /** A `Wavefront` payload is accepted exactly when its length is a multiple of 84. */
  lemma WavefrontToMatrix(v: seq<real>)
    ensures ToMatrix(Wavefront(v)).Ok? <==> |v| % N == 0
  {
  }

  /** `From<&OpticalSensitivity> for &[f64]`: the payload of a floating-point variant. */
  function AsSlice(s: Sensitivity): (r: Result<seq<real>>)
    ensures r.Ok? <==> !s.SegmentMask? && !s.PupilMask?
    ensures r.Ok? ==> r.value == s.values
  {
    if IsFloat(s) then Ok(s.values) else Err(Panic(NoMatch))
  }

  /** `m1_wavefront`, as written: `n = len / 84`, keeps the part after `split_at(42 n)`,
      re-chunks it by `n` and collects an `n × 42` matrix. */
  function M1Wavefront(s: Sensitivity): (r: Result<Matrix>)
    ensures r.Ok? <==> s.Wavefront? && |s.values| / N > 0 && |s.values| % N == 0
    ensures !s.Wavefront? ==> r == Err(SegmentTipTiltError)
    ensures r.Ok? ==> r.value.nrows == |s.values| / N && r.value.ncols == 42
  {
    match s
    case Wavefront(v) =>
      var n := |v| / N;
      var tail := v[n * 42..];
      if n == 0 then Err(Panic(ZeroChunkSize))
      else
        FlattenChunks(tail, n);
        FromColumnSlice(n, 42, Flatten(Chunks(tail, n)))
    case _ => Err(SegmentTipTiltError)
  }

  /** Column `j` of `m1_wavefront` is column `42 + j` of the full sensitivity: the
      secondary-mirror half. */
  lemma M1WavefrontAt(v: seq<real>, i: nat, j: nat, x: nat)
    requires M1Wavefront(Wavefront(v)).Ok? && i < |v| / N && j < 42
    requires x == (42 + j) * (|v| / N) + i
    ensures x < |v| && At(M1Wavefront(Wavefront(v)).value, i, j) == v[x]
  {
    var n := |v| / N;
    assert |v| == n * 84;
    var o := n * 42;
    var tail := v[o..];
    FlattenChunks(tail, n);
    assert M1Wavefront(Wavefront(v)) == FromColumnSlice(n, 42, tail);
    SecondHalfAt(v, n, i, j, o, x);
  }

  lemma SecondHalfAt(v: seq<real>, n: nat, i: nat, j: nat, o: nat, x: nat)
    requires |v| == n * 84 && i < n && j < 42
    requires o == n * 42 && x == (42 + j) * n + i
    ensures o <= |v| && FromColumnSlice(n, 42, v[o..]).Ok?
    ensures x < |v| && At(FromColumnSlice(n, 42, v[o..]).value, i, j) == v[x]
  {
    var tail := v[o..];
    FromColumnSliceAt(n, 42, tail, i, j);
    var p := j * n + i;
    assert o + p == x;
    assert tail[p] == v[x];
  }

  /** The M1 extractor evidently intended: `let (m1_tr, _) = split_at(42 n)`, the first 42
      columns, still re-chunked by `n`, so that fewer than 84 values still panic in
      `chunks(0)`. */
  function M1WavefrontIntended(s: Sensitivity): (r: Result<Matrix>)
    ensures r.Ok? <==> s.Wavefront? && |s.values| / N > 0
    ensures !s.Wavefront? ==> r == Err(SegmentTipTiltError)
    ensures s.Wavefront? && |s.values| / N == 0 ==> r == Err(Panic(ZeroChunkSize))
    ensures r.Ok? ==> r.value.nrows == |s.values| / N && r.value.ncols == 42
  {
    match s
    case Wavefront(v) =>
      var n := |v| / N;
      var head := v[..n * 42];
      if n == 0 then Err(Panic(ZeroChunkSize))
      else
        FlattenChunks(head, n);
        FromColumnSlice(n, 42, Flatten(Chunks(head, n)))
    case _ => Err(SegmentTipTiltError)
  }

  lemma M1WavefrontIntendedAt(v: seq<real>, i: nat, j: nat, x: nat)
    requires i < |v| / N && j < 42 && x == j * (|v| / N) + i
    ensures M1WavefrontIntended(Wavefront(v)).Ok?
    ensures x < |v| && At(M1WavefrontIntended(Wavefront(v)).value, i, j) == v[x]
  {
    var n := |v| / N;
    FlattenChunks(v[..n * 42], n);
    FromColumnSliceAt(n, 42, v[..n * 42], i, j);
  }

  /** Where the two extractors disagree: a 1 × 84 wavefront sensitivity whose columns
      are their own indices. */
  lemma M1WavefrontTakesSecondHalf()
    ensures var v := seq(84, k => k as real);
      M1Wavefront(Wavefront(v)).Ok? && At(M1Wavefront(Wavefront(v)).value, 0, 0) == 42.0 &&
      M1WavefrontIntended(Wavefront(v)).Ok? && At(M1WavefrontIntended(Wavefront(v)).value, 0, 0) == 0.0
  {
    var v := seq(84, k => k as real);
    M1WavefrontAt(v, 0, 0, 42);
    M1WavefrontIntendedAt(v, 0, 0, 0);
  }

  /** The chunks of 42 (three columns of 14) that `m2_rxy` keeps: the 2nd, 4th, ... after
      the M1 half. */
  function M2Picked(v: seq<real>): seq<seq<real>>
    requires |v| >= 14 * 42
  {
    StepBy(Drop(Chunks(v[14 * 42..], 42), 1), 2)
  }

  /** The first `w` entries of every piece (`&x[..w]`). */
  function Heads(pieces: seq<seq<real>>, w: nat): (r: seq<seq<real>>)
    requires forall k :: 0 <= k < |pieces| ==> |pieces[k]| >= w
    ensures |r| == |pieces| && Uniform(r, w)
  {
    seq(|pieces|, k requires 0 <= k < |pieces| => pieces[k][..w])
  }

  /** `m2_rxy`: drops the M1 half, splits the rest into chunks of 42 (three columns),
      skips one, keeps every other one, takes its first 28 entries (two columns) and
      collects a `14 × 14` matrix. Short slices and a wrong count panic. */
  function M2Rxy(s: Sensitivity): (r: Result<Matrix>)
    ensures !s.SegmentTipTilt? ==> r == Err(SegmentTipTiltError)
    ensures s.SegmentTipTilt? && |s.values| < 14 * 42 ==> r == Err(Panic(SliceOutOfRange))
    ensures r.Ok? ==> r.value.nrows == 14 && r.value.ncols == 14
  {
    match s
    case SegmentTipTilt(v) =>
      if |v| < 14 * 42 then Err(Panic(SliceOutOfRange))
      else
        var picked := M2Picked(v);
        if exists k :: 0 <= k < |picked| && |picked[k]| < 28 then Err(Panic(SliceOutOfRange))
        else FromColumnSlice(14, 14, Flatten(Heads(picked, 28)))
    case _ => Err(SegmentTipTiltError)
  }

  /** For a full `14 × 84` segment tip-tilt sensitivity, column `j` of `m2_rxy` is column
      `42 + 6 (j / 2) + 3 + j % 2`: the Rx and Ry motions of M2 segment `j / 2`. */
  lemma M2RxyAt(v: seq<real>, i: nat, j: nat)
    requires |v| == 14 * N && i < 14 && j < 14
    ensures M2Rxy(SegmentTipTilt(v)).Ok?
    ensures (42 + 6 * (j / 2) + 3 + j % 2) * 14 + i < |v|
    ensures At(M2Rxy(SegmentTipTilt(v)).value, i, j) == v[(42 + 6 * (j / 2) + 3 + j % 2) * 14 + i]
  {
    var picked := M2Picked(v);
    M2PickedFull(v);
    var heads := Heads(picked, 28);
    UniformFlattenLength(heads, 28);
    var flat := Flatten(heads);
    assert M2Rxy(SegmentTipTilt(v)) == FromColumnSlice(14, 14, flat);
    var q := j / 2;
    var o := 14 * (j % 2) + i;
    M2HeadAt(v, q, o);
    UniformFlattenAt(heads, 28, q, o);
    assert j * 14 + i == q * 28 + o;
    FromColumnSliceAt(14, 14, flat, i, j);
  }

  lemma M2HeadAt(v: seq<real>, q: nat, o: nat)
    requires |v| == 14 * N && q < 7 && o < 28
    ensures |M2Picked(v)| == 7 && |M2Picked(v)[q]| >= 28
    ensures 14 * 42 + (2 * q + 1) * 42 + o < |v|
    ensures M2Picked(v)[q][o] == v[14 * 42 + (2 * q + 1) * 42 + o]
  {
    M2PickedFull(v);
  }

  /** For a full payload, seven chunks are kept: chunk `2k + 1` of the M2 half. */
  lemma M2PickedFull(v: seq<real>)
    requires |v| == 14 * N
    ensures |M2Picked(v)| == 7
    ensures forall k :: 0 <= k < 7 ==> M2Picked(v)[k] == v[14 * 42 + (2 * k + 1) * 42..14 * 42 + (2 * k + 1) * 42 + 42]
  {
    forall k | 0 <= k < 7
      ensures |M2Picked(v)| == 7
      ensures M2Picked(v)[k] == v[14 * 42 + (2 * k + 1) * 42..14 * 42 + (2 * k + 1) * 42 + 42]
    {
      M2PickedChunk(v, k, 14 * 42 + (2 * k + 1) * 42);
    }
    M2PickedChunk(v, 0, 14 * 42 + 42);
  }

  /** Kept chunk `k` starts at `a = 14·42 + (2k + 1)·42`. */
  lemma M2PickedChunk(v: seq<real>, k: nat, a: nat)
    requires |v| == 14 * N && k < 7 && a == 14 * 42 + (2 * k + 1) * 42
    ensures |M2Picked(v)| == 7 && a + 42 <= |v| && M2Picked(v)[k] == v[a..a + 42]
  {
    var c := 2 * k + 1;
    OddChunk(v[14 * 42..], k, c * 42);
    SuffixSlice(v, 14 * 42, c * 42, c * 42 + 42);
  }

  /** Of fourteen chunks of 42, `skip(1).step_by(2)` keeps seven: chunk `2k + 1` at `b`. */
  lemma OddChunk(tail: seq<real>, k: nat, b: nat)
    requires |tail| == 14 * 42 && k < 7 && b == (2 * k + 1) * 42
    ensures |StepBy(Drop(Chunks(tail, 42), 1), 2)| == 7
    ensures StepBy(Drop(Chunks(tail, 42), 1), 2)[k] == tail[b..b + 42]
  {
    var chunks := Chunks(tail, 42);
    ChunksExactLength(tail, 42, 14);
    var dropped := Drop(chunks, 1);
    StepByLength(dropped, 2, 7);
    StepByAt(dropped, 2, k);
    ChunksExactAt(tail, 42, 14, 2 * k + 1);
    assert dropped[k * 2] == chunks[2 * k + 1];
  }

  /** `Σ_{k < K} sens[k·R + i] · rbm(k, t)`, on the stored column-major payload. */
  function SensDot(v: seq<real>, rows: nat, i: nat, rbm: Matrix, t: nat, k: nat): real
    requires i < rows && |v| == rows * N && t < rbm.ncols && k <= N && k <= rbm.nrows
  {
    if k == 0 then 0.0
    else
      ColumnMajorBound(rows, N, i, k - 1);
      SensDot(v, rows, i, rbm, t, k - 1) + v[(k - 1) * rows + i] * At(rbm, k - 1, t)
  }

  lemma {:induction false} DotSensDot(v: seq<real>, rows: nat, i: nat, rbm: Matrix, t: nat, k: nat)
    requires i < rows && |v| == rows * N && t < rbm.ncols && k <= N && k <= rbm.nrows
    ensures FromColumnSlice(rows, N, v).Ok?
    ensures Dot(FromColumnSlice(rows, N, v).value, i, rbm, t, k) == SensDot(v, rows, i, rbm, t, k)
  {
    if k > 0 {
      DotSensDot(v, rows, i, rbm, t, k - 1);
      FromColumnSliceAt(rows, N, v, i, k - 1);
    }
  }

  /** `sensitivity * rbm` flattened column-major, for a `rows × 84` payload. */
  function Product(rows: nat, v: seq<real>, rbm: Matrix): (r: Result<seq<real>>)
  {
    var sens :- FromColumnSlice(rows, N, v);
    var out :- Mul(sens, rbm);
    Ok(out.data)
  }

  /** `into_optics`: the tip-tilt, segment tip-tilt and segment piston responses to the
      motion time series, one column of `Rows(s)` values per time sample; every other
      variant (including `Wavefront`, whose arm is commented out) is unimplemented. */
  function Optics(s: Sensitivity, rbm: Matrix): (r: Result<seq<real>>)
    ensures r.Ok? <==> (s.TipTilt? || s.SegmentTipTilt? || s.SegmentPiston?) && |s.values| == Rows(s) * N && rbm.nrows == N
    ensures r.Ok? ==> |r.value| == Rows(s) * rbm.ncols
    ensures !(s.TipTilt? || s.SegmentTipTilt? || s.SegmentPiston?) ==> r == Err(Panic(Unimplemented))
  {
    match s
    case TipTilt(v) => Product(2, v, rbm)
    case SegmentTipTilt(v) => Product(14, v, rbm)
    case SegmentPiston(v) => Product(7, v, rbm)
    case _ => Err(Panic(Unimplemented))
  }

  /** Value `i` of time sample `t` is the sensitivity row `i` applied to motion column `t`. */
  lemma OpticsAt(s: Sensitivity, rbm: Matrix, i: nat, t: nat)
    requires Optics(s, rbm).Ok? && i < Rows(s) && t < rbm.ncols
    ensures t * Rows(s) + i < |Optics(s, rbm).value|
    ensures Optics(s, rbm).value[t * Rows(s) + i] == SensDot(s.values, Rows(s), i, rbm, t, N)
  {
    var sens := FromColumnSlice(Rows(s), N, s.values).value;
    MulAt(sens, rbm, i, t);
    ColumnMajorBound(Rows(s), rbm.ncols, i, t);
    DotSensDot(s.values, Rows(s), i, rbm, t, N);
  }

  /** Start of the block of differences against row `k` in the differential buffer. */
  function PairBase(k: nat): nat
    requires k <= 6
  {
    [0, 6, 11, 15, 18, 20, 21][k]
  }

  /** The lower row of the `q`-th pair `(k, j)`, `k < j < 7`, in the order the loop visits them. */
  function PairLo(q: nat): nat
    requires q < 21
    ensures PairLo(q) < 6 && PairBase(PairLo(q)) <= q < PairBase(PairLo(q) + 1)
  {
    if q < 6 then 0 else if q < 11 then 1 else if q < 15 then 2 else if q < 18 then 3 else if q < 20 then 4 else 5
  }

  function PairHi(q: nat): nat
    requires q < 21
  {
    q - PairBase(PairLo(q)) + PairLo(q) + 1
  }

  /** Row `j` minus row `k` of the segment piston time series. */
  function RowDiff(p: Matrix, j: nat, k: nat): (d: seq<real>)
    requires j < p.nrows && k < p.nrows
    ensures |d| == p.ncols
  {
    seq(p.ncols, t requires 0 <= t < p.ncols => At(p, j, t) - At(p, k, t))
  }

  /** The 21 pairwise segment piston differences, in loop order. */
  function Differences(p: Matrix): seq<seq<real>>
    requires p.nrows == 7
  {
    seq(21, q requires 0 <= q < 21 => RowDiff(p, PairHi(q), PairLo(q)))
  }

  /** The differential piston buffer `v` of the `SegmentPiston` arm: for every `k < 6`
      it appends, for each later row `j`, row `j` minus row `k`. */
  method DifferentialPiston(p: Matrix) returns (v: seq<real>)
    requires p.nrows == 7
    ensures v == Flatten(Differences(p))
  {
    ghost var diffs := Differences(p);
    v := [];
    for k := 0 to 6
      invariant v == Flatten(diffs[..PairBase(k)])
    {
      var j := k + 1;
      while j < 7
        invariant k + 1 <= j <= 7
        invariant v == Flatten(diffs[..PairBase(k) + (j - k - 1)])
      {
        var q := PairBase(k) + (j - k - 1);
        PairOf(k, j, q);
        FlattenPrefixStep(diffs, q);
        v := v + RowDiff(p, j, k);
        j := j + 1;
      }
    }
    assert diffs[..21] == diffs;
  }

  /** Each difference lands at its own place: block `PairBase(k) + (j - k - 1)` holds row
      `j` minus row `k`, one value per time sample. */
  lemma DifferencesAt(p: Matrix, k: nat, j: nat, t: nat, x: nat)
    requires p.nrows == 7 && k < j < 7 && t < p.ncols
    requires x == (PairBase(k) + (j - k - 1)) * p.ncols + t
    ensures x < |Flatten(Differences(p))| && Flatten(Differences(p))[x] == At(p, j, t) - At(p, k, t)
  {
    var q := PairBase(k) + (j - k - 1);
    PairOf(k, j, q);
    UniformFlattenAt(Differences(p), p.ncols, q, t);
  }

  /** The pair `(k, j)` is visited at position `q = PairBase(k) + (j − k − 1)`. */
  lemma PairOf(k: nat, j: nat, q: nat)
    requires k < j < 7 && q == PairBase(k) + (j - k - 1)
    ensures q < 21 && PairLo(q) == k && PairHi(q) == j
  {
  }

  /** `into_optics`, step by step: the `SegmentPiston` arm also builds the differential
      piston buffer and then discards it. */
  method IntoOptics(s: Sensitivity, rbm: Matrix) returns (r: Result<seq<real>>)
    ensures r == Optics(s, rbm)
  {
    match s
    case TipTilt(v) =>
      r := Product(2, v, rbm);
    case SegmentTipTilt(v) =>
      r := Product(14, v, rbm);
    case SegmentPiston(v) =>
      var sens :- FromColumnSlice(7, N, v);
      var piston :- Mul(sens, rbm);
      var differential := DifferentialPiston(piston);
      r := Ok(piston.data);
    case _ =>
      r := Err(Panic(Unimplemented));
  }

  /** Converts every sensitivity to its matrix, stopping at the first one that panics. */
  function Matrices(senses: seq<Sensitivity>): (r: Result<seq<Matrix>>)
    ensures r.Ok? <==> forall l :: 0 <= l < |senses| ==> ToMatrix(senses[l]).Ok?
    ensures r.Ok? ==> |r.value| == |senses| && forall l :: 0 <= l < |senses| ==> ToMatrix(senses[l]) == Ok(r.value[l])
  {
    if senses == [] then Ok([])
    else
      var m :- ToMatrix(senses[0]);
      var rest :- Matrices(senses[1..]);
      assert forall l :: 1 <= l < |senses| ==> senses[l] == senses[1..][l - 1];
      Ok([m] + rest)
  }

  function TotalRows(mats: seq<Matrix>): nat
  {
    if mats == [] then 0 else mats[0].nrows + TotalRows(mats[1..])
  }

  /** Rows of the inputs before input `l`. */
  function RowOffset(mats: seq<Matrix>, l: nat): nat
    requires l <= |mats|
  {
    if l == 0 then 0 else RowOffset(mats, l - 1) + mats[l - 1].nrows
  }

  predicate Wide(mats: seq<Matrix>)
  {
    forall l :: 0 <= l < |mats| ==> mats[l].ncols == N
  }

  /** All columns of all inputs, input after input: column `k` of input `l` is at `k + 84 l`. */
  function AllColumns(mats: seq<Matrix>): (cols: seq<seq<real>>)
    requires Wide(mats)
    ensures |cols| == |mats| * N
  {
    var blocks := seq(|mats|, l requires 0 <= l < |mats| => seq(N, k requires 0 <= k < N => Column(mats[l], k)));
    UniformFlattenLength(blocks, N);
    Flatten(blocks)
  }

  /** The storage `from_opticals` assembles: for each column `k`, column `k` of every input in turn. */
  function StackData(mats: seq<Matrix>): seq<real>
    requires Wide(mats)
  {
    Flatten(StackColumns(mats))
  }

  function StackColumns(mats: seq<Matrix>): seq<seq<real>>
    requires Wide(mats)
  {
    seq(N, k requires 0 <= k < N => Flatten(StackedColumn(mats, k)))
  }

  /** `from_opticals`: the matrices of all sensitivities stacked on top of each other. */
  function FromOpticals(senses: seq<Sensitivity>): (r: Result<Matrix>)
    ensures r.Ok? <==> forall l :: 0 <= l < |senses| ==> ToMatrix(senses[l]).Ok?
    ensures r.Ok? ==> r.value.ncols == N
  {
    var mats :- Matrices(senses);
    StackLength(mats);
    FromColumnSlice(TotalRows(mats), N, StackData(mats))
  }

  lemma {:induction false} AllColumnsAt(mats: seq<Matrix>, l: nat, k: nat)
    requires Wide(mats) && l < |mats| && k < N
    ensures k + l * N < |AllColumns(mats)| && AllColumns(mats)[k + l * N] == Column(mats[l], k)
  {
    var blocks := seq(|mats|, l requires 0 <= l < |mats| => seq(N, k requires 0 <= k < N => Column(mats[l], k)));
    UniformFlattenAt(blocks, N, l, k);
  }

  /** Column `k` of every input, one after the other, read from `AllColumns` at `k + 84 l`. */
  function StackedColumn(mats: seq<Matrix>, k: nat): seq<seq<real>>
    requires Wide(mats) && k < N
  {
    var cols := AllColumns(mats);
    seq(|mats|, l requires 0 <= l < |mats| =>
      ColumnMajorBound(N, |mats|, k, l);
      cols[k + l * N])
  }

  lemma {:induction false} StackedColumnOffset(mats: seq<Matrix>, k: nat, l: nat)
    requires Wide(mats) && k < N && l <= |mats|
    ensures Offset(StackedColumn(mats, k), l) == RowOffset(mats, l)
  {
    if l > 0 {
      StackedColumnOffset(mats, k, l - 1);
      AllColumnsAt(mats, l - 1, k);
    }
  }

  lemma {:induction false} RowOffsetTotal(mats: seq<Matrix>)
    ensures RowOffset(mats, |mats|) == TotalRows(mats)
  {
    if mats != [] {
      RowOffsetTotal(mats[1..]);
      RowOffsetShift(mats, |mats| - 1);
    }
  }

  lemma {:induction false} RowOffsetShift(mats: seq<Matrix>, l: nat)
    requires l < |mats|
    ensures RowOffset(mats, l + 1) == mats[0].nrows + RowOffset(mats[1..], l)
  {
    if l > 0 {
      RowOffsetShift(mats, l - 1);
    }
  }

  lemma {:induction false} RowOffsetMonotone(mats: seq<Matrix>, l: nat, m: nat)
    requires l <= m <= |mats|
    ensures RowOffset(mats, l) <= RowOffset(mats, m)
    decreases m - l
  {
    if l < m {
      RowOffsetMonotone(mats, l, m - 1);
    }
  }

  /** The stacked column `k` has one entry per row of the stack, in input order. */
  lemma StackColumnAt(mats: seq<Matrix>, k: nat, l: nat, i: nat)
    requires Wide(mats) && k < N && l < |mats| && i < mats[l].nrows
    ensures |Flatten(StackedColumn(mats, k))| == TotalRows(mats)
    ensures RowOffset(mats, l) + i < TotalRows(mats)
    ensures Flatten(StackedColumn(mats, k))[RowOffset(mats, l) + i] == At(mats[l], i, k)
  {
    var sc := StackedColumn(mats, k);
    FlattenLength(sc);
    StackedColumnOffset(mats, k, |mats|);
    RowOffsetTotal(mats);
    AllColumnsAt(mats, l, k);
    FlattenAt(sc, l, i);
    StackedColumnOffset(mats, k, l);
  }

  /** Every stacked column has `TotalRows` entries. */
  lemma StackColumnsUniform(mats: seq<Matrix>)
    requires Wide(mats)
    ensures Uniform(StackColumns(mats), TotalRows(mats))
  {
    forall k | 0 <= k < N
      ensures |StackColumns(mats)[k]| == TotalRows(mats)
    {
      FlattenLength(StackedColumn(mats, k));
      StackedColumnOffset(mats, k, |mats|);
      RowOffsetTotal(mats);
    }
  }

  lemma StackLength(mats: seq<Matrix>)
    requires Wide(mats)
    ensures |StackData(mats)| == TotalRows(mats) * N
  {
    StackColumnsUniform(mats);
    UniformFlattenLength(StackColumns(mats), TotalRows(mats));
  }

  /** Row `i` of input `l` is row `RowOffset(l) + i` of the stacked matrix. */
  lemma StackAt(mats: seq<Matrix>, l: nat, i: nat, k: nat)
    requires Wide(mats) && l < |mats| && i < mats[l].nrows && k < N
    ensures FromColumnSlice(TotalRows(mats), N, StackData(mats)).Ok?
    ensures RowOffset(mats, l) + i < TotalRows(mats)
    ensures At(FromColumnSlice(TotalRows(mats), N, StackData(mats)).value, RowOffset(mats, l) + i, k) == At(mats[l], i, k)
  {
    var t := TotalRows(mats);
    StackLength(mats);
    StackColumnsUniform(mats);
    StackColumnAt(mats, k, l, i);
    var o := RowOffset(mats, l) + i;
    UniformFlattenAt(StackColumns(mats), t, k, o);
    FromColumnSliceAt(t, N, StackData(mats), o, k);
  }

  /** Row `i` of input `l` is row `RowOffset(l) + i` of the result: a vertical stack. */
  lemma FromOpticalsAt(senses: seq<Sensitivity>, mats: seq<Matrix>, l: nat, i: nat, k: nat)
    requires Matrices(senses) == Ok(mats) && FromOpticals(senses).Ok?
    requires l < |senses| && i < Rows(senses[l]) && k < N
    ensures l < |mats| && FromOpticals(senses).value.nrows == TotalRows(mats)
    ensures RowOffset(mats, l) + i < TotalRows(mats)
    ensures At(FromOpticals(senses).value, RowOffset(mats, l) + i, k) == At(mats[l], i, k)
  {
    FromOpticalsStack(senses);
    MatricesRows(senses, l);
    StackAt(mats, l, i, k);
  }

  /** The stacked matrix has one row per row of the inputs, `Σ Rows(senses[l])`, and 84 columns. */
  lemma FromOpticalsShape(senses: seq<Sensitivity>, mats: seq<Matrix>)
    requires Matrices(senses) == Ok(mats) && FromOpticals(senses).Ok?
    ensures FromOpticals(senses).value.nrows == TotalRows(mats) == SumRows(senses)
    ensures FromOpticals(senses).value.ncols == N
  {
    FromOpticalsStack(senses);
    TotalRowsSum(senses, mats);
  }

  /** Total rows of the matrix views, `Σ Rows(senses[l])`. */
  function SumRows(senses: seq<Sensitivity>): nat
  {
    if senses == [] then 0 else Rows(senses[0]) + SumRows(senses[1..])
  }

  lemma {:induction false} TotalRowsSum(senses: seq<Sensitivity>, mats: seq<Matrix>)
    requires Matrices(senses) == Ok(mats)
    ensures TotalRows(mats) == SumRows(senses)
    decreases |senses|
  {
    if senses != [] {
      assert ToMatrix(senses[0]) == Ok(mats[0]);
      var rest := mats[1..];
      assert Matrices(senses[1..]) == Ok(rest);
      TotalRowsSum(senses[1..], rest);
    }
  }

  /** A successful `from_opticals` is the stack of the converted matrices. */
  lemma FromOpticalsStack(senses: seq<Sensitivity>)
    requires FromOpticals(senses).Ok?
    ensures Matrices(senses).Ok? && Wide(Matrices(senses).value)
    ensures FromOpticals(senses)
         == FromColumnSlice(TotalRows(Matrices(senses).value), N, StackData(Matrices(senses).value))
  {
    var mats := Matrices(senses).value;
    forall h | 0 <= h < |mats|
      ensures mats[h].ncols == N
    {
      assert ToMatrix(senses[h]) == Ok(mats[h]);
    }
  }

  lemma MatricesRows(senses: seq<Sensitivity>, l: nat)
    requires Matrices(senses).Ok? && l < |senses|
    ensures l < |Matrices(senses).value| && Matrices(senses).value[l].nrows == Rows(senses[l])
  {
    assert ToMatrix(senses[l]) == Ok(Matrices(senses).value[l]);
  }
}
