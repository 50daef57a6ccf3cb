/** The wavefront post-processing of the linear optical model: splitting the masked
    exit-pupil wavefront into the seven segments with the segment-id mask, the per
    segment wavefront error RMS, and the re-expansion onto the full pupil grid with the
    boolean pupil mask. Each works on a given masked wavefront vector. */
module Wavefronts {
  import opened Errors
  import opened Iter
  import opened OpticalSensitivities
  import OpticalMetrics

  /** Number of mirror segments; segment ids run from 1 to 7. */
  const Segments: nat := 7

  /** `ws.iter().zip(ms).filter_map(|(w, m)| (*m == sid).then_some(w))` over the first
      `n` pairs: the values whose paired id is `sid`, in order. */
  function SelectN(ws: seq<real>, ms: seq<int>, sid: int, n: nat): seq<real>
    requires n <= |ws| && n <= |ms|
  {
    if n == 0 then []
    else SelectN(ws, ms, sid, n - 1) + (if ms[n - 1] == sid then [ws[n - 1]] else [])
  }

  /** The zip stops at the shorter of the two sequences. */
  function Select(ws: seq<real>, ms: seq<int>, sid: int): seq<real>
  {
    SelectN(ws, ms, sid, Min(|ws|, |ms|))
  }

  /** Where a shared wavefront iterator stands after one zip with the mask, started at
      `c`: `Zip::next` pulls the wavefront first, so when the mask runs out first one
      more wavefront value is pulled and lost. */
  function Next(w: seq<real>, mask: seq<int>, c: nat): (r: nat)
    requires c <= |w|
    ensures c <= r <= |w|
  {
    if |w| - c <= |mask| then |w| else c + |mask| + 1
  }

  /** Segments `sid..7` as the source builds them, the wavefront iterator standing at `c`. */
  function Shared(w: seq<real>, mask: seq<int>, c: nat, sid: nat): (r: seq<seq<real>>)
    requires c <= |w| && 1 <= sid <= Segments + 1
    ensures |r| == Segments + 1 - sid
    decreases Segments + 1 - sid
  {
    if sid == Segments + 1 then []
    else [Select(w[c..], mask, sid)] + Shared(w, mask, Next(w, mask, c), sid + 1)
  }

  /** `segment_wavefront` as written: one wavefront iterator shared (`by_ref`) by the
      seven segments. */
  function SharedSegments(w: seq<real>, mask: seq<int>): seq<seq<real>>
  {
    Shared(w, mask, 0, 1)
  }

  /** The evident intent: each segment selected from the whole wavefront. */
  function SegmentsIntended(w: seq<real>, mask: seq<int>): (r: seq<seq<real>>)
    ensures |r| == Segments
    ensures forall k :: 0 <= k < Segments ==> r[k] == Select(w, mask, k + 1)
  {
    seq(Segments, k requires 0 <= k < Segments => Select(w, mask, k + 1))
  }

  /** One segment of `segment_wavefront`: `wavefront.by_ref().zip(mask)` from cursor
      `c`, keeping the values paired with `sid`; `pos` is where the cursor is left. */
  method ZipSelect(w: seq<real>, mask: seq<int>, c: nat, sid: int) returns (seg: seq<real>, pos: nat)
    requires c <= |w|
    ensures seg == Select(w[c..], mask, sid)
    ensures pos == Next(w, mask, c)
  {
    seg := [];
    pos := c;
    var k := 0;
    var zipping := true;
    while zipping
      invariant c <= pos <= |w| && k <= |mask|
      invariant zipping ==> pos == c + k
      invariant !zipping ==> pos == Next(w, mask, c) && k == Min(|w| - c, |mask|)
      invariant seg == SelectN(w[c..], mask, sid, k)
      decreases |w| - pos + (if zipping then 1 else 0)
    {
      if pos == |w| {
        zipping := false;
      } else {
        var x := w[pos];
        pos := pos + 1;
        if k == |mask| {
          zipping := false;
        } else {
          if mask[k] == sid {
            seg := seg + [x];
          }
          k := k + 1;
        }
      }
    }
  }

  /** The segments built so far, followed by those still to build. */
  lemma SharedStep(w: seq<real>, mask: seq<int>, c: nat, sid: nat, segs: seq<seq<real>>)
    requires c <= |w| && 1 <= sid <= Segments
    ensures segs + Shared(w, mask, c, sid)
      == (segs + [Select(w[c..], mask, sid)]) + Shared(w, mask, Next(w, mask, c), sid + 1)
  {
  }

  /** `segment_wavefront`, step by step: the wavefront cursor is advanced by every zip
      and never rewound. */
  method SplitSegments(w: seq<real>, mask: seq<int>) returns (segs: seq<seq<real>>)
    ensures segs == SharedSegments(w, mask)
    ensures |segs| == Segments
  {
    segs := [];
    var c: nat := 0;
    for sid: nat := 1 to Segments + 1
      invariant c <= |w| && |segs| == sid - 1
      invariant segs + Shared(w, mask, c, sid) == SharedSegments(w, mask)
    {
      var seg, pos := ZipSelect(w, mask, c, sid);
      SharedStep(w, mask, c, sid, segs);
      segs := segs + [seg];
      c := pos;
    }
  }

  /** Once the iterator is exhausted every later segment is empty. */
  lemma {:induction false} SharedExhausted(w: seq<real>, mask: seq<int>, sid: nat, k: nat)
    requires 1 <= sid <= k <= Segments
    ensures Shared(w, mask, |w|, sid)[k - sid] == []
    decreases k - sid
  {
    if sid < k {
      SharedExhausted(w, mask, sid + 1, k);
    }
  }

  /** As written, the first segment is selected correctly, but when the mask is at least
      as long as the wavefront (one id per pupil point) segments 2 to 7 are empty. */
  lemma SharedStarves(w: seq<real>, mask: seq<int>, k: nat)
    requires |w| <= |mask| && 1 <= k < Segments
    ensures SharedSegments(w, mask)[0] == SegmentsIntended(w, mask)[0]
    ensures SharedSegments(w, mask)[k] == []
  {
    assert w[0..] == w;
    assert Next(w, mask, 0) == |w|;
    SharedExhausted(w, mask, 2, k + 1);
  }

  /** Two pupil points, one on segment 1 and one on segment 2: the second value is lost. */
  lemma SharedSegmentsExample()
    ensures SharedSegments([1.0, 2.0], [1, 2])[1] == []
    ensures SegmentsIntended([1.0, 2.0], [1, 2])[1] == [2.0]
  {
    var w, mask := [1.0, 2.0], [1, 2];
    SharedStarves(w, mask, 1);
    assert SelectN(w, mask, 2, 1) == [];
    assert SelectN(w, mask, 2, 2) == [2.0];
  }

  /** Number of the first `n` pairs whose id is one of `1..s`, bucket by bucket. */
  function Bucketed(w: seq<real>, mask: seq<int>, n: nat, s: nat): nat
    requires n <= |w| && n <= |mask|
  {
    if s == 0 then 0 else Bucketed(w, mask, n, s - 1) + |SelectN(w, mask, s, n)|
  }

  lemma {:induction false} BucketedStep(w: seq<real>, mask: seq<int>, n: nat, s: nat)
    requires 0 < n <= |w| && n <= |mask|
    ensures Bucketed(w, mask, n, s)
      == Bucketed(w, mask, n - 1, s) + (if 1 <= mask[n - 1] <= s then 1 else 0)
  {
    if s > 0 {
      BucketedStep(w, mask, n, s - 1);
    }
  }

  lemma {:induction false} BucketedNone(w: seq<real>, mask: seq<int>, s: nat)
    ensures Bucketed(w, mask, 0, s) == 0
  {
    if s > 0 {
      BucketedNone(w, mask, s - 1);
    }
  }

  lemma {:induction false} BucketedAll(w: seq<real>, mask: seq<int>, n: nat)
    requires n <= |w| && n <= |mask|
    requires forall k :: 0 <= k < n ==> 1 <= mask[k] <= Segments
    ensures Bucketed(w, mask, n, Segments) == n
  {
    if n > 0 {
      BucketedAll(w, mask, n - 1);
      BucketedStep(w, mask, n, Segments);
      assert 1 <= mask[n - 1] <= Segments;
    } else {
      BucketedNone(w, mask, Segments);
    }
  }

  function TotalLength(segs: seq<seq<real>>): nat
  {
    if segs == [] then 0 else TotalLength(segs[..|segs| - 1]) + |segs[|segs| - 1]|
  }

  lemma {:induction false} TotalBucketed(w: seq<real>, mask: seq<int>, s: nat)
    requires s <= Segments
    ensures TotalLength(SegmentsIntended(w, mask)[..s]) == Bucketed(w, mask, Min(|w|, |mask|), s)
  {
    if s > 0 {
      TotalBucketed(w, mask, s - 1);
      assert SegmentsIntended(w, mask)[..s][..s - 1] == SegmentsIntended(w, mask)[..s - 1];
    }
  }

  /** Number of occurrences of `v` in `s`. */
  function Occurrences(s: seq<real>, v: real): nat
  {
    if s == [] then 0 else Occurrences(s[..|s| - 1], v) + (if s[|s| - 1] == v then 1 else 0)
  }

  lemma {:induction false} OccurrencesAppend(a: seq<real>, b: seq<real>, v: real)
    ensures Occurrences(a + b, v) == Occurrences(a, v) + Occurrences(b, v)
    decreases |b|
  {
    if b == [] {
      assert a + b == a;
    } else {
      var init := b[..|b| - 1];
      OccurrencesAppend(a, init, v);
      assert (a + b)[..|a + b| - 1] == a + init;
      assert (a + b)[|a + b| - 1] == b[|b| - 1];
    }
  }

  lemma {:induction false} OccurrencesMultiset(s: seq<real>, v: real)
    ensures multiset(s)[v] == Occurrences(s, v)
    decreases |s|
  {
    if s != [] {
      var init := s[..|s| - 1];
      OccurrencesMultiset(init, v);
      assert s == init + [s[|s| - 1]];
    }
  }

  /** Number of the first `n` pairs whose id is `sid` and whose value is `v`. */
  function Matching(w: seq<real>, mask: seq<int>, sid: int, n: nat, v: real): nat
    requires n <= |w| && n <= |mask|
  {
    if n == 0 then 0 else Matching(w, mask, sid, n - 1, v) + (if mask[n - 1] == sid && w[n - 1] == v then 1 else 0)
  }

  /** Occurrences of `v` among the values of the first `n` pairs whose id is one of
      `1..s`, bucket by bucket. */
  function BucketOccurrences(w: seq<real>, mask: seq<int>, n: nat, s: nat, v: real): nat
    requires n <= |w| && n <= |mask|
  {
    if s == 0 then 0 else BucketOccurrences(w, mask, n, s - 1, v) + Matching(w, mask, s, n, v)
  }

  lemma {:induction false} SelectNOccurrences(w: seq<real>, mask: seq<int>, sid: int, n: nat, v: real)
    requires n <= |w| && n <= |mask|
    ensures Occurrences(SelectN(w, mask, sid, n), v) == Matching(w, mask, sid, n, v)
  {
    if n > 0 {
      SelectNOccurrences(w, mask, sid, n - 1, v);
      var last := if mask[n - 1] == sid then [w[n - 1]] else [];
      OccurrencesAppend(SelectN(w, mask, sid, n - 1), last, v);
      assert last != [] ==> last[..0] == [];
    }
  }

  lemma {:induction false} BucketOccurrencesStep(w: seq<real>, mask: seq<int>, n: nat, s: nat, v: real)
    requires 0 < n <= |w| && n <= |mask|
    ensures BucketOccurrences(w, mask, n, s, v)
      == BucketOccurrences(w, mask, n - 1, s, v) + (if 1 <= mask[n - 1] <= s && w[n - 1] == v then 1 else 0)
  {
    if s > 0 {
      BucketOccurrencesStep(w, mask, n, s - 1, v);
    }
  }

  lemma {:induction false} BucketOccurrencesNone(w: seq<real>, mask: seq<int>, s: nat, v: real)
    ensures BucketOccurrences(w, mask, 0, s, v) == 0
  {
    if s > 0 {
      BucketOccurrencesNone(w, mask, s - 1, v);
    }
  }

  lemma {:induction false} BucketOccurrencesAll(w: seq<real>, mask: seq<int>, n: nat, v: real)
    requires n <= |w| && n <= |mask|
    requires forall k :: 0 <= k < n ==> 1 <= mask[k] <= Segments
    ensures BucketOccurrences(w, mask, n, Segments, v) == Occurrences(w[..n], v)
  {
    if n > 0 {
      BucketOccurrencesAll(w, mask, n - 1, v);
      BucketOccurrencesStep(w, mask, n, Segments, v);
      assert 1 <= mask[n - 1] <= Segments;
      assert w[..n][..n - 1] == w[..n - 1];
    } else {
      BucketOccurrencesNone(w, mask, Segments, v);
    }
  }

  lemma {:induction false} FlattenOccurrences(w: seq<real>, mask: seq<int>, s: nat, v: real)
    requires s <= Segments
    ensures Occurrences(Flatten(SegmentsIntended(w, mask)[..s]), v) == BucketOccurrences(w, mask, Min(|w|, |mask|), s, v)
  {
    var segs := SegmentsIntended(w, mask);
    if s > 0 {
      FlattenOccurrences(w, mask, s - 1, v);
      FlattenPrefixStep(segs, s - 1);
      OccurrencesAppend(Flatten(segs[..s - 1]), segs[s - 1], v);
      SelectNOccurrences(w, mask, s, Min(|w|, |mask|), v);
    } else {
      assert segs[..0] == [];
    }
  }

  /** Every value occurs as often in the intended segments as in the wavefront. */
  lemma SegmentsOccurrences(w: seq<real>, mask: seq<int>, v: real)
    requires |w| <= |mask|
    requires forall k :: 0 <= k < |mask| ==> 1 <= mask[k] <= Segments
    ensures multiset(Flatten(SegmentsIntended(w, mask)))[v] == multiset(w)[v]
  {
    var segs := SegmentsIntended(w, mask);
    FlattenOccurrences(w, mask, Segments, v);
    assert segs[..Segments] == segs;
    BucketOccurrencesAll(w, mask, |w|, v);
    assert w[..|w|] == w;
    OccurrencesMultiset(Flatten(segs), v);
    OccurrencesMultiset(w, v);
  }

  /** With an id in `1..7` for every pupil point, the intended segments partition the
      wavefront: together they hold exactly the wavefront's values, each as often. */
  lemma SegmentsPartition(w: seq<real>, mask: seq<int>)
    requires |w| <= |mask|
    requires forall k :: 0 <= k < |mask| ==> 1 <= mask[k] <= Segments
    ensures TotalLength(SegmentsIntended(w, mask)) == |w|
    ensures multiset(Flatten(SegmentsIntended(w, mask))) == multiset(w)
  {
    TotalBucketed(w, mask, Segments);
    assert SegmentsIntended(w, mask)[..Segments] == SegmentsIntended(w, mask);
    BucketedAll(w, mask, |w|);
    forall v: real
      ensures multiset(Flatten(SegmentsIntended(w, mask)))[v] == multiset(w)[v]
    {
      SegmentsOccurrences(w, mask, v);
    }
  }

  /** `segment_wavefront` after the lookups: the wavefront or lookup failure comes first;
      an entry that is not a segment mask panics. */
  method SegmentWavefrontOf(w: Result<seq<real>>, mask: Result<Sensitivity>) returns (r: Result<seq<seq<real>>>)
    ensures w.Err? ==> r == Err(w.fault)
    ensures w.Ok? && mask.Err? ==> r == Err(mask.fault)
    ensures w.Ok? && mask.Ok? && !mask.value.SegmentMask? ==> r == Err(Panic(MissingMask))
    ensures w.Ok? && mask.Ok? && mask.value.SegmentMask? ==> r == Ok(SharedSegments(w.value, mask.value.ids))
  {
    var values :- w;
    var entry :- mask;
    if entry.SegmentMask? {
      var segs := SplitSegments(values, entry.ids);
      r := Ok(segs);
    } else {
      r := Err(Panic(MissingMask));
    }
  }

  /** `enumerate().fold((0, 0.0), |(_, s), (i, w)| (i, s + w * w))`: the last index seen
      and the sum of squares. */
  function Fold(ws: seq<real>): (nat, real)
  {
    if ws == [] then (0, 0.0)
    else
      var (_, s) := Fold(ws[..|ws| - 1]);
      (|ws| - 1, s + ws[|ws| - 1] * ws[|ws| - 1])
  }

  /** The fold counts `max(count, 1) - 1` and sums the squares. */
  lemma {:induction false} FoldCounts(ws: seq<real>)
    ensures Fold(ws).0 + 1 == (if ws == [] then 1 else |ws|)
    ensures Fold(ws).1 == OpticalMetrics.SumSquares(ws)
  {
    if ws != [] {
      var init := ws[..|ws| - 1];
      FoldCounts(init);
      var x := ws[|ws| - 1];
      assert (x - 0.0) * (x - 0.0) == x * x;
    }
  }

  function Pow10(n: nat): (r: real)
    ensures r >= 1.0
  {
    if n == 0 then 1.0 else 10.0 * Pow10(n - 1)
  }

  /** `10f64.powi(-e)`. */
  function Scale(e: int): (r: real)
    ensures r > 0.0
    ensures e <= 0 ==> r == Pow10(-e)
    ensures e > 0 ==> r * Pow10(e) == 1.0
  {
    if e <= 0 then Pow10(-e) else 1.0 / Pow10(e)
  }

  /** The mean square of a segment, over `max(count, 1)` points. */
  function MeanSquare(seg: seq<real>): (r: real)
    ensures r >= 0.0
    ensures seg == [] ==> r == 0.0
  {
    OpticalMetrics.SumSqNonNegative(seg, 0.0);
    Quotient(OpticalMetrics.SumSquares(seg), if seg == [] then 1 else |seg|)
  }

  function Quotient(x: real, n: nat): (r: real)
    requires x >= 0.0 && n > 0
    ensures r >= 0.0 && r * (n as real) == x
  {
    OpticalMetrics.QuotientNonNegative(x, n as real);
    OpticalMetrics.DivMul(x, n as real);
    x / n as real
  }

  /** `segment_wfe_rms::<E>` on a wavefront: for each segment, a fresh zip with the mask,
      the root of the fold's sum over the fold's count, then `10^-E` when `E != 0`. */
  function WfeRms(w: seq<real>, mask: seq<int>, e: int, sqrt: real -> real): (r: seq<real>)
    ensures |r| == Segments
  {
    seq(Segments, k requires 0 <= k < Segments =>
      var (i, s) := Fold(Select(w, mask, k + 1));
      var rms := sqrt(s / (i + 1) as real);
      if e != 0 then rms * Scale(e) else rms)
  }

  /** The RMS of segment `k + 1` is the root of the mean square of the values the mask
      assigns to it, scaled by `10^-E` unless `E` is 0; a segment with no point gives the
      root of 0. */
  lemma WfeRmsAt(w: seq<real>, mask: seq<int>, e: int, sqrt: real -> real, k: nat)
    requires k < Segments
    ensures var ms := MeanSquare(SegmentsIntended(w, mask)[k]);
      WfeRms(w, mask, e, sqrt)[k] == (if e != 0 then sqrt(ms) * Scale(e) else sqrt(ms))
  {
    var seg := Select(w, mask, k + 1);
    FoldCounts(seg);
    var n := if seg == [] then 1 else |seg|;
    OpticalMetrics.DivMul(OpticalMetrics.SumSquares(seg), n as real);
    QuotientUnique(OpticalMetrics.SumSquares(seg), n as real, MeanSquare(seg));
  }

  lemma QuotientUnique(x: real, d: real, q: real)
    requires d > 0.0 && q * d == x
    ensures x / d == q
  {
  }

  /** `segment_wfe_rms` after the lookups. */
  function WfeRmsOf(w: Result<seq<real>>, mask: Result<Sensitivity>, e: int, sqrt: real -> real): (r: Result<seq<real>>)
    ensures w.Err? ==> r == Err(w.fault)
    ensures w.Ok? && mask.Err? ==> r == Err(mask.fault)
    ensures w.Ok? && mask.Ok? && mask.value.SegmentMask? ==> r == Ok(WfeRms(w.value, mask.value.ids, e, sqrt))
    ensures w.Ok? && mask.Ok? && !mask.value.SegmentMask? ==> r == Err(Panic(MissingMask))
  {
    var values :- w;
    var entry :- mask;
    if entry.SegmentMask? then Ok(WfeRms(values, entry.ids, e, sqrt)) else Err(Panic(MissingMask))
  }

  /** The full-pupil wavefront: zero where the pupil is dark, the next masked value where
      it is lit; running out of values is `unwrap` on `None`. */
  function Expand(w: seq<real>, pupil: seq<bool>): (r: Result<seq<real>>)
    ensures r.Ok? ==> |r.value| == |pupil|
    ensures r.Err? ==> r == Err(Panic(NoMatch))
    decreases |pupil|
  {
    if pupil == [] then Ok([])
    else if !pupil[0] then
      var rest :- Expand(w, pupil[1..]);
      Ok([0.0] + rest)
    else if w == [] then Err(Panic(NoMatch))
    else
      var rest :- Expand(w[1..], pupil[1..]);
      Ok([w[0]] + rest)
  }

  /** `Ok(out + rest)` when the rest succeeds. */
  function Prepend(out: seq<real>, rest: Result<seq<real>>): Result<seq<real>>
  {
    match rest
    case Ok(v) => Ok(out + v)
    case Err(f) => Err(f)
  }

  lemma PrependPrepend(out: seq<real>, x: seq<real>, rest: Result<seq<real>>)
    ensures Prepend(out, Prepend(x, rest)) == Prepend(out + x, rest)
  {
    if rest.Ok? {
      assert out + (x + rest.value) == out + x + rest.value;
    }
  }

  lemma PrependEmpty(rest: Result<seq<real>>)
    ensures Prepend([], rest) == rest
  {
    if rest.Ok? {
      assert [] + rest.value == rest.value;
    }
  }

  /** One step of the expansion. */
  lemma ExpandStep(w: seq<real>, pupil: seq<bool>)
    requires pupil != []
    ensures !pupil[0] ==> Expand(w, pupil) == Prepend([0.0], Expand(w, pupil[1..]))
    ensures pupil[0] && w == [] ==> Expand(w, pupil) == Err(Panic(NoMatch))
    ensures pupil[0] && w != [] ==> Expand(w, pupil) == Prepend([w[0]], Expand(w[1..], pupil[1..]))
  {
  }

  /** `wavefront` on a masked wavefront: one pass over the pupil mask, pulling the next
      wavefront value at each lit point. */
  method Reexpand(w: seq<real>, pupil: seq<bool>) returns (r: Result<seq<real>>)
    ensures r == Expand(w, pupil)
  {
    var out := [];
    var pos := 0;
    var k := 0;
    assert w[0..] == w && pupil[0..] == pupil;
    PrependEmpty(Expand(w, pupil));
    while k < |pupil|
      invariant k <= |pupil| && pos <= |w|
      invariant Expand(w, pupil) == Prepend(out, Expand(w[pos..], pupil[k..]))
    {
      ExpandStep(w[pos..], pupil[k..]);
      assert pupil[k..][1..] == pupil[k + 1..];
      if pupil[k] {
        if pos == |w| {
          return Err(Panic(NoMatch));
        }
        assert w[pos..][1..] == w[pos + 1..];
        PrependPrepend(out, [w[pos]], Expand(w[pos + 1..], pupil[k + 1..]));
        out := out + [w[pos]];
        pos := pos + 1;
      } else {
        PrependPrepend(out, [0.0], Expand(w[pos..], pupil[k + 1..]));
        out := out + [0.0];
      }
      k := k + 1;
    }
    assert pupil[k..] == [];
    r := Ok(out);
    assert out + [] == out;
  }

  /** The expansion succeeds exactly when there is a value for every lit point. */
  lemma {:induction false} ExpandOk(w: seq<real>, pupil: seq<bool>)
    ensures Expand(w, pupil).Ok? <==> CountFront(pupil) <= |w|
    decreases |pupil|
  {
    if pupil != [] {
      if !pupil[0] {
        ExpandOk(w, pupil[1..]);
      } else if w != [] {
        ExpandOk(w[1..], pupil[1..]);
      }
    }
  }

  /** The lit points counted from the front, the order the expansion consumes them. */
  function CountFront(pupil: seq<bool>): nat
  {
    if pupil == [] then 0 else (if pupil[0] then 1 else 0) + CountFront(pupil[1..])
  }

  /** The values at the lit points, in order. */
  function Compress(v: seq<real>, pupil: seq<bool>): seq<real>
    requires |v| == |pupil|
  {
    if pupil == [] then [] else (if pupil[0] then [v[0]] else []) + Compress(v[1..], pupil[1..])
  }

  /** Dark points are zero, and reading the lit points back gives the masked wavefront,
      up to the number of lit points. */
  lemma {:induction false} ExpandRoundTrip(w: seq<real>, pupil: seq<bool>)
    requires Expand(w, pupil).Ok?
    ensures CountFront(pupil) <= |w|
    ensures Compress(Expand(w, pupil).value, pupil) == w[..CountFront(pupil)]
    ensures forall i :: 0 <= i < |pupil| && !pupil[i] ==> Expand(w, pupil).value[i] == 0.0
    decreases |pupil|
  {
    if pupil != [] {
      var v := Expand(w, pupil).value;
      if !pupil[0] {
        ExpandRoundTrip(w, pupil[1..]);
        assert v[1..] == Expand(w, pupil[1..]).value;
        forall i | 0 <= i < |pupil| && !pupil[i]
          ensures v[i] == 0.0
        {
          if i > 0 {
            assert pupil[1..][i - 1] == pupil[i];
          }
        }
      } else {
        ExpandRoundTrip(w[1..], pupil[1..]);
        assert v[1..] == Expand(w[1..], pupil[1..]).value;
        assert w[..CountFront(pupil)] == [w[0]] + w[1..][..CountFront(pupil[1..])];
        forall i | 0 <= i < |pupil| && !pupil[i]
          ensures v[i] == 0.0
        {
          assert pupil[1..][i - 1] == pupil[i];
        }
      }
    }
  }

  /** `wavefront` after the lookups. */
  method FullPupilOf(w: Result<seq<real>>, pupil: Result<Sensitivity>) returns (r: Result<seq<real>>)
    ensures w.Err? ==> r == Err(w.fault)
    ensures w.Ok? && pupil.Err? ==> r == Err(pupil.fault)
    ensures w.Ok? && pupil.Ok? && !pupil.value.PupilMask? ==> r == Err(Panic(MissingMask))
    ensures w.Ok? && pupil.Ok? && pupil.value.PupilMask? ==> r == Expand(w.value, pupil.value.pupil)
  {
    var values :- w;
    var entry :- pupil;
    if entry.PupilMask? {
      r := Reexpand(values, entry.pupil);
    } else {
      r := Err(Panic(MissingMask));
    }
  }
}
