/** The optical metric buffers returned by the linear optical model (`TipTilt`,
    `SegmentTipTilt`, `SegmentPiston`) and the statistics over their trailing time
    window. A buffer holds one group of `NItem` values per time sample. */
module OpticalMetrics {
  import opened Errors
  import opened Iter

  datatype Metric =
    | TipTilt(values: seq<real>)         // `[x, y]` per sample
    | SegmentTipTilt(values: seq<real>)  // `[x1..x7, y1..y7]` per sample
    | SegmentPiston(values: seq<real>)   // `[p1..p7]` per sample

  /** An `f64` result of a division: `x / 0` is NaN when `x` is 0 and infinite otherwise. */
  datatype Float = Finite(value: real) | NaN | Infinite(positive: bool)

  /** Number of values per time sample. */
  function NItem(m: Metric): (n: nat)
    ensures n > 0
    ensures n == (if m.TipTilt? then 2 else if m.SegmentTipTilt? then 14 else 7)
  {
    match m
    case TipTilt(_) => 2
    case SegmentTipTilt(_) => 14
    case SegmentPiston(_) => 7
  }

  /** `items()`: the buffer cut into consecutive groups of `NItem` values. */
  function Items(m: Metric): (r: seq<seq<real>>)
    ensures Flatten(r) == m.values
    ensures forall k :: 0 <= k < |r| - 1 ==> |r[k]| == NItem(m)
    ensures |r| > 0 ==> 0 < |r[|r| - 1]| <= NItem(m)
  {
    FlattenChunks(m.values, NItem(m));
    ChunksShape(m.values, NItem(m));
    Chunks(m.values, NItem(m))
  }

  /** Number of complete time samples, `len / n_item`. */
  function NTotal(m: Metric): nat
  {
    |m.values| / NItem(m)
  }

  /** A buffer made of complete samples only. */
  predicate WellFormed(m: Metric)
  {
    |m.values| % NItem(m) == 0
  }

  /** The window length, `n_sample.unwrap_or(n_total)`. */
  function WindowLength(m: Metric, w: Option<nat>): nat
  {
    UnwrapOr(w, NTotal(m))
  }

  /** The last `e` of the `q` samples of channel `i` in a buffer of groups of `n`:
      `iter().skip(i).step_by(n).skip(q - e)`. */
  function Window(s: seq<real>, n: nat, q: nat, e: nat, i: nat): seq<real>
    requires n > 0 && e <= q
  {
    Drop(StepBy(Drop(s, i), n), q - e)
  }

  /** The windows of channels `0..n`, in order. */
  function Windows(s: seq<real>, n: nat, q: nat, e: nat): seq<seq<real>>
    requires n > 0 && e <= q
  {
    seq(n, i requires 0 <= i < n => Window(s, n, q, e, i))
  }

  /** The last `e` samples of channel `i` of a metric buffer. */
  function Trailing(m: Metric, i: nat, e: nat): seq<real>
    requires e <= NTotal(m)
  {
    Window(m.values, NItem(m), NTotal(m), e, i)
  }

  /** `time_wise`: the trailing window, channel after channel; panics with "not enough
      samples" when the window is longer than the buffer. */
  function TimeWise(m: Metric, w: Option<nat>): (r: Result<seq<real>>)
    ensures r.Err? <==> WindowLength(m, w) > NTotal(m)
    ensures r.Err? ==> r == Err(Panic(NotEnoughSamples))
  {
    var e := WindowLength(m, w);
    if e > NTotal(m) then Err(Panic(NotEnoughSamples))
    else Ok(Flatten(Windows(m.values, NItem(m), NTotal(m), e)))
  }

  /** Over complete samples every window holds `e` values. */
  lemma WindowsUniform(s: seq<real>, n: nat, q: nat, e: nat)
    requires n > 0 && e <= q && |s| == q * n
    ensures Uniform(Windows(s, n, q, e), e)
    ensures |Flatten(Windows(s, n, q, e))| == n * e
  {
    forall i | 0 <= i < n
      ensures |Windows(s, n, q, e)[i]| == e
    {
      StrideLength(s, n, q, i);
    }
    UniformFlattenLength(Windows(s, n, q, e), e);
  }

  /** Transposition: value `p = i·e + j` of the windows laid end to end is value
      `x = (q − e + j)·n + i` of the buffer, sample `q − e + j` of channel `i`. */
  lemma WindowsAt(s: seq<real>, n: nat, q: nat, e: nat, i: nat, j: nat, p: nat, x: nat)
    requires n > 0 && e <= q && |s| == q * n && i < n && j < e
    requires p == i * e + j && x == (q - e + j) * n + i
    ensures x < |s| && p < |Flatten(Windows(s, n, q, e))|
    ensures Flatten(Windows(s, n, q, e))[p] == s[x]
  {
    var ws := Windows(s, n, q, e);
    WindowsUniform(s, n, q, e);
    UniformFlattenAt(ws, e, i, j);
    assert ws[i] == Window(s, n, q, e, i);
    StrideWindowAt(s, n, q, i, e, j);
  }

  /** Block `i` of the windows laid end to end is window `i`. */
  lemma WindowsBlock(s: seq<real>, n: nat, q: nat, e: nat, i: nat, a: nat)
    requires n > 0 && e <= q && |s| == q * n && i < n && a == i * e
    ensures var f := Flatten(Windows(s, n, q, e));
      a + e <= |f| && f[a..a + e] == Windows(s, n, q, e)[i]
  {
    WindowsUniform(s, n, q, e);
    UniformFlattenBlock(Windows(s, n, q, e), e, i, a);
  }

  /** A buffer of complete samples holds `n_total · n_item` values. */
  lemma Samples(m: Metric)
    requires WellFormed(m)
    ensures |m.values| == NTotal(m) * NItem(m)
  {
    match m
    case TipTilt(v) =>
    case SegmentTipTilt(v) =>
    case SegmentPiston(v) =>
  }

  /** Every channel window has `e` values. */
  lemma TrailingLength(m: Metric, i: nat, e: nat)
    requires WellFormed(m) && i < NItem(m) && e <= NTotal(m)
    ensures |Trailing(m, i, e)| == e
  {
    Samples(m);
    StrideLength(m.values, NItem(m), NTotal(m), i);
  }

  /** `time_wise(Some(e))` is the transpose of the trailing window: `n·e` values, with
      `out[p] = values[x]` for `p = i·e + j` and `x = (n_total − e + j)·n + i`. */
  lemma TimeWiseAt(m: Metric, w: Option<nat>, i: nat, j: nat, p: nat, x: nat)
    requires WellFormed(m) && TimeWise(m, w).Ok?
    requires i < NItem(m) && j < WindowLength(m, w)
    requires p == i * WindowLength(m, w) + j && x == (NTotal(m) - WindowLength(m, w) + j) * NItem(m) + i
    ensures |TimeWise(m, w).value| == NItem(m) * WindowLength(m, w)
    ensures x < |m.values| && p < |TimeWise(m, w).value|
    ensures TimeWise(m, w).value[p] == m.values[x]
  {
    Samples(m);
    var e := WindowLength(m, w);
    WindowsUniform(m.values, NItem(m), NTotal(m), e);
    WindowsAt(m.values, NItem(m), NTotal(m), e, i, j, p, x);
  }

  /** Without a window, the statistics run over the whole buffer. */
  lemma DefaultWindow(m: Metric)
    ensures TimeWise(m, None) == TimeWise(m, Some(NTotal(m)))
    ensures Mean(m, None) == Mean(m, Some(NTotal(m)))
    ensures Var(m, None) == Var(m, Some(NTotal(m)))
  {
  }

  /** `iter().sum()`, added from the first value to the last. */
  function Sum(s: seq<real>): real
  {
    if s == [] then 0.0 else Sum(s[..|s| - 1]) + s[|s| - 1]
  }

  /** `map(|x| x - mu).fold(0, |a, x| a + x * x)`. */
  function SumSq(s: seq<real>, mu: real): real
  {
    if s == [] then 0.0 else SumSq(s[..|s| - 1], mu) + (s[|s| - 1] - mu) * (s[|s| - 1] - mu)
  }

  /** `x / d as f64`. */
  function Div(x: real, d: nat): (r: Float)
    ensures d > 0 ==> r.Finite? && r.value * (d as real) == x
    ensures d == 0 ==> (r.NaN? <==> x == 0.0)
  {
    if d > 0 then
      DivMul(x, d as real);
      Finite(x / d as real)
    else if x == 0.0 then NaN
    else Infinite(x > 0.0)
  }

  /** A finite quotient of a non-negative value is non-negative. */
  lemma DivNonNegative(x: real, d: nat)
    requires x >= 0.0 && Div(x, d).Finite?
    ensures Div(x, d).value >= 0.0
  {
    QuotientNonNegative(x, d as real);
  }

  lemma QuotientNonNegative(x: real, e: real)
    requires x >= 0.0 && e > 0.0
    ensures x / e >= 0.0
  {
  }

  /** `mean`: the sum of each channel over the window, divided by the window length. */
  function Mean(m: Metric, w: Option<nat>): (r: Result<seq<Float>>)
    ensures r.Err? <==> WindowLength(m, w) > NTotal(m)
    ensures r.Err? ==> r == Err(Panic(NotEnoughSamples))
    ensures r.Ok? ==> |r.value| == NItem(m)
  {
    var e := WindowLength(m, w);
    if e > NTotal(m) then Err(Panic(NotEnoughSamples))
    else Ok(seq(NItem(m), i requires 0 <= i < NItem(m) => Div(Sum(Trailing(m, i, e)), e)))
  }

  /** The fold of squared deviations from a mean that may itself be NaN or infinite:
      NaN propagates, and an infinite mean makes every square infinite. */
  function Deviation(s: seq<real>, mean: Float, e: nat): Float
  {
    match mean
    case Finite(mu) => Div(SumSq(s, mu), e)
    case NaN => NaN
    case Infinite(_) => Infinite(true)
  }

  /** `var`: the two-pass population variance of each channel over the window. */
  function Var(m: Metric, w: Option<nat>): (r: Result<seq<Float>>)
    ensures r.Err? <==> WindowLength(m, w) > NTotal(m)
    ensures r.Ok? ==> |r.value| == NItem(m)
  {
    var e := WindowLength(m, w);
    if e > NTotal(m) then Err(Panic(NotEnoughSamples))
    else
      var means := Mean(m, w).value;
      Ok(seq(NItem(m), i requires 0 <= i < NItem(m) => Deviation(Trailing(m, i, e), means[i], e)))
  }

  /** `f64::sqrt` on each variance: NaN below zero, `+inf` stays `+inf`. */
  function Root(x: Float, sqrt: real -> real): Float
  {
    match x
    case Finite(v) => if v < 0.0 then NaN else Finite(sqrt(v))
    case NaN => NaN
    case Infinite(positive) => if positive then Infinite(true) else NaN
  }

  /** `std`: the element-wise square root of `var`. */
  function Std(m: Metric, w: Option<nat>, sqrt: real -> real): (r: Result<seq<Float>>)
    ensures r.Ok? <==> Var(m, w).Ok?
    ensures r.Ok? ==> |r.value| == |Var(m, w).value|
    ensures r.Ok? ==> forall i :: 0 <= i < |r.value| ==> r.value[i] == Root(Var(m, w).value[i], sqrt)
  {
    var v :- Var(m, w);
    Ok(seq(|v|, i requires 0 <= i < |v| => Root(v[i], sqrt)))
  }

  lemma {:induction false} SumSqNonNegative(s: seq<real>, mu: real)
    ensures SumSq(s, mu) >= 0.0
    decreases |s|
  {
    if s != [] {
      SumSqNonNegative(s[..|s| - 1], mu);
      var d := s[|s| - 1] - mu;
      assert d * d >= 0.0;
    }
  }

  /** The variance is never negative, so its square root is always defined. */
  lemma VarNonNegative(m: Metric, w: Option<nat>, i: nat)
    requires Var(m, w).Ok? && i < NItem(m) && Var(m, w).value[i].Finite?
    ensures Var(m, w).value[i].value >= 0.0
    ensures Std(m, w, x => x).value[i] == Var(m, w).value[i]
  {
    var e := WindowLength(m, w);
    var means := Mean(m, w).value;
    SumSqNonNegative(Trailing(m, i, e), means[i].value);
    DivNonNegative(SumSq(Trailing(m, i, e), means[i].value), e);
  }

  /** Sum of squares about zero. */
  function SumSquares(s: seq<real>): real
  {
    SumSq(s, 0.0)
  }

  /** The two-pass deviation sum equals the one-pass expansion
      `Σx² − 2 μ Σx + |s| μ²`. */
  lemma {:induction false} SumSqExpand(s: seq<real>, mu: real)
    ensures SumSq(s, mu) == SumSquares(s) - 2.0 * mu * Sum(s) + (|s| as real) * mu * mu
    decreases |s|
  {
    if s != [] {
      var init := s[..|s| - 1];
      var x := s[|s| - 1];
      SumSqExpand(init, mu);
      assert SumSquares(s) == SumSquares(init) + x * x;
      assert (x - mu) * (x - mu) == x * x - 2.0 * mu * x + mu * mu;
      assert (|s| as real) * mu * mu == (|init| as real) * mu * mu + mu * mu;
    }
  }

  /** Around the mean `mu` of a window, the sum of squared deviations is the sum of
      squares less `n · mu²`. */
  lemma OnePass(win: seq<real>, mu: real)
    requires mu * (|win| as real) == Sum(win)
    ensures SumSq(win, mu) == SumSquares(win) - (|win| as real) * (mu * mu)
  {
    SumSqExpand(win, mu);
    OnePassAlgebra(SumSquares(win), Sum(win), |win| as real, mu, SumSq(win, mu));
  }

  lemma OnePassAlgebra(sq: real, t: real, e: real, mu: real, ss: real)
    requires mu * e == t
    requires ss == sq - 2.0 * mu * t + e * mu * mu
    ensures ss == sq - e * (mu * mu)
  {
    assert 2.0 * mu * t == 2.0 * (mu * mu) * e;
  }

  lemma DivSub(a: real, b: real, c: real)
    requires c > 0.0
    ensures (a - c * b) / c == a / c - b
  {
  }

  lemma DivMul(t: real, e: real)
    requires e > 0.0
    ensures (t / e) * e == t
  {
  }

  /** Dividing the one-pass identity by `n`. */
  lemma QuotientOnePass(ss: real, sq: real, n: real, mu: real)
    requires n > 0.0 && ss == sq - n * (mu * mu)
    ensures ss / n == sq / n - mu * mu
  {
    DivSub(sq, mu * mu, n);
  }

  /** The one-pass variance of `e` values about `mu`: the mean of the squares less `mu²`. */
  function OnePassVariance(win: seq<real>, e: nat, mu: real): real
    requires e > 0
  {
    SumSquares(win) / (e as real) - mu * mu
  }

  /** The deviation of a window about its own mean, by the one-pass formula. */
  lemma WindowVar(win: seq<real>, e: nat, mu: real)
    requires |win| == e > 0 && mu * (e as real) == Sum(win)
    ensures Div(SumSq(win, mu), e) == Finite(OnePassVariance(win, e, mu))
  {
    OnePass(win, mu);
    QuotientOnePass(SumSq(win, mu), SumSquares(win), e as real, mu);
  }

  /** Channel `i` of `mean` is the window sum divided by the window length. */
  lemma MeanAt(m: Metric, w: Option<nat>, i: nat)
    requires Mean(m, w).Ok? && i < NItem(m)
    ensures Mean(m, w).value[i] == Div(Sum(Trailing(m, i, WindowLength(m, w))), WindowLength(m, w))
  {
    var e := WindowLength(m, w);
    var ms := seq(NItem(m), k requires 0 <= k < NItem(m) => Div(Sum(Trailing(m, k, e)), e));
    assert Mean(m, w).value == ms;
    assert ms[i] == Div(Sum(Trailing(m, i, e)), e);
  }

  /** Channel `i` of `var` is the deviation of its window about channel `i` of `mean`. */
  lemma VarAt(m: Metric, w: Option<nat>, i: nat)
    requires Var(m, w).Ok? && i < NItem(m)
    ensures Mean(m, w).Ok?
    ensures var e := WindowLength(m, w);
      Var(m, w).value[i] == Deviation(Trailing(m, i, e), Mean(m, w).value[i], e)
  {
    var e := WindowLength(m, w);
    var means := Mean(m, w).value;
    var f := k requires 0 <= k < NItem(m) => Deviation(Trailing(m, k, e), means[k], e);
    assert Var(m, w) == Ok(seq(NItem(m), f));
  }

  /** A finite quotient times the divisor gives back the dividend. */
  lemma FiniteScaled(f: Float, x: real, d: nat)
    requires d > 0 && f == Div(x, d)
    ensures f.Finite? && f.value * (d as real) == x
  {
  }

  /** The deviation of a window about its own computed mean, by the one-pass formula. */
  lemma WindowMeanVar(win: seq<real>, e: nat, f: Float)
    requires |win| == e > 0 && f == Div(Sum(win), e)
    ensures f.Finite?
    ensures Deviation(win, f, e) == Finite(OnePassVariance(win, e, f.value))
  {
    FiniteScaled(f, Sum(win), e);
    WindowVar(win, e, f.value);
  }

  /** König–Huygens: over a non-empty window the variance is the mean of the squares
      minus the square of the mean, an independent one-pass definition. */
  lemma VarOnePass(m: Metric, w: Option<nat>, i: nat)
    requires WellFormed(m) && Var(m, w).Ok? && i < NItem(m) && WindowLength(m, w) > 0
    ensures Mean(m, w).Ok? && Mean(m, w).value[i].Finite?
    ensures var e := WindowLength(m, w);
      Var(m, w).value[i] == Finite(OnePassVariance(Trailing(m, i, e), e, Mean(m, w).value[i].value))
  {
    var e := WindowLength(m, w);
    TrailingLength(m, i, e);
    VarAt(m, w, i);
    MeanAt(m, w, i);
    WindowMeanVar(Trailing(m, i, e), e, Mean(m, w).value[i]);
  }

  /** Block `i` of `time_wise` is the trailing window of channel `i`. */
  lemma TimeWiseBlock(m: Metric, w: Option<nat>, i: nat, a: nat)
    requires WellFormed(m) && TimeWise(m, w).Ok? && i < NItem(m)
    requires a == i * WindowLength(m, w)
    ensures var e := WindowLength(m, w);
      a + e <= |TimeWise(m, w).value| && TimeWise(m, w).value[a..a + e] == Trailing(m, i, e)
  {
    Samples(m);
    var e := WindowLength(m, w);
    WindowsBlock(m.values, NItem(m), NTotal(m), e, i, a);
    assert Windows(m.values, NItem(m), NTotal(m), e)[i] == Trailing(m, i, e);
  }

  /** The window sum of channel `i` is the sum of block `i` of `time_wise`, so `mean`
      is the block average of `time_wise`. */
  lemma MeanTimeWise(m: Metric, w: Option<nat>, i: nat, a: nat)
    requires WellFormed(m) && TimeWise(m, w).Ok? && i < NItem(m)
    requires a == i * WindowLength(m, w)
    ensures Mean(m, w).Ok?
    ensures var e := WindowLength(m, w);
      a + e <= |TimeWise(m, w).value| &&
      Mean(m, w).value[i] == Div(Sum(TimeWise(m, w).value[a..a + e]), e)
  {
    TimeWiseBlock(m, w, i, a);
    MeanAt(m, w, i);
  }

  lemma FlattenPair(a: seq<real>, b: seq<real>)
    ensures Flatten([a, b]) == a + b
  {
    assert [a, b][1..] == [b];
    assert [b][1..] == [];
    assert Flatten([b]) == b + Flatten([]);
  }

  /** `time_wise` on two tip-tilt samples `[x1, y1, x2, y2]` gives `[x1, x2, y1, y2]`. */
  lemma TimeWiseExample(x1: real, y1: real, x2: real, y2: real)
    ensures TimeWise(TipTilt([x1, y1, x2, y2]), None) == Ok([x1, x2, y1, y2])
    ensures TimeWise(TipTilt([x1, y1, x2, y2]), Some(1)) == Ok([x2, y2])
    ensures TimeWise(TipTilt([x1, y1, x2, y2]), Some(3)) == Err(Panic(NotEnoughSamples))
  {
    var s := [x1, y1, x2, y2];
    var m := TipTilt(s);
    assert NItem(m) == 2 && NTotal(m) == 2;
    assert s[2..] == [x2, y2] && [x2, y2][2..] == [];
    assert StepBy([x2, y2], 2) == [x2];
    assert StepBy(s, 2) == [x1, x2];
    assert Drop(s, 1) == [y1, x2, y2] && [y1, x2, y2][2..] == [y2];
    assert StepBy([y2], 2) == [y2];
    assert StepBy(Drop(s, 1), 2) == [y1, y2];
    assert Drop(s, 0) == s;
    var all := Windows(s, 2, 2, 2);
    assert all[0] == Window(s, 2, 2, 2, 0) == [x1, x2];
    assert all[1] == Window(s, 2, 2, 2, 1) == [y1, y2];
    assert all == [[x1, x2], [y1, y2]];
    var last := Windows(s, 2, 2, 1);
    assert last[0] == Window(s, 2, 2, 1, 0) == [x2];
    assert last[1] == Window(s, 2, 2, 1, 1) == [y2];
    assert last == [[x2], [y2]];
    FlattenPair([x1, x2], [y1, y2]);
    FlattenPair([x2], [y2]);
    assert WindowLength(m, None) == 2 && WindowLength(m, Some(1)) == 1;
    assert [x1, x2] + [y1, y2] == [x1, x2, y1, y2];
    assert Flatten(all) == [x1, x2, y1, y2];
    assert Flatten(last) == [x2, y2];
    assert TimeWise(m, None) == Ok(Flatten(all));
    assert TimeWise(m, Some(1)) == Ok(Flatten(last));
  }
}
