/** The slice and iterator adaptors of Rust's standard library that the crate's
    pipelines are built from, as functions on sequences, with the index laws the
    rest of the model relies on. */
module Iter {

  /** Concatenation of a sequence of sequences (`flatten`, `flat_map(to_vec)`). */
  function Flatten<T>(ss: seq<seq<T>>): seq<T>
  {
    if ss == [] then [] else ss[0] + Flatten(ss[1..])
  }

  /** Total length of the pieces before piece `l`. */
  function Offset<T>(ss: seq<seq<T>>, l: nat): nat
    requires l <= |ss|
  {
    if l == 0 then 0 else Offset(ss, l - 1) + |ss[l - 1]|
  }

  predicate Uniform<T>(ss: seq<seq<T>>, n: nat)
  {
    forall k :: 0 <= k < |ss| ==> |ss[k]| == n
  }

  lemma {:induction false} FlattenAppend<T>(ss: seq<seq<T>>, s: seq<T>)
    ensures Flatten(ss + [s]) == Flatten(ss) + s
  {
    if ss == [] {
      assert ss + [s] == [s];
    } else {
      assert (ss + [s])[1..] == ss[1..] + [s];
      FlattenAppend(ss[1..], s);
    }
  }

  /** Extending a prefix by one piece appends that piece. */
  lemma FlattenPrefixStep<T>(ss: seq<seq<T>>, q: nat)
    requires q < |ss|
    ensures Flatten(ss[..q + 1]) == Flatten(ss[..q]) + ss[q]
  {
    assert ss[..q + 1] == ss[..q] + [ss[q]];
    FlattenAppend(ss[..q], ss[q]);
  }

  lemma {:induction false} FlattenLength<T>(ss: seq<seq<T>>)
    ensures |Flatten(ss)| == Offset(ss, |ss|)
  {
    if ss != [] {
      var init := ss[..|ss| - 1];
      assert ss == init + [ss[|ss| - 1]];
      FlattenAppend(init, ss[|ss| - 1]);
      FlattenLength(init);
      OffsetPrefix(ss, |ss| - 1, |ss| - 1);
    }
  }

  lemma {:induction false} OffsetPrefix<T>(ss: seq<seq<T>>, m: nat, l: nat)
    requires l <= m <= |ss|
    ensures Offset(ss[..m], l) == Offset(ss, l)
  {
    if l > 0 {
      OffsetPrefix(ss, m, l - 1);
    }
  }

  lemma {:induction false} OffsetMonotone<T>(ss: seq<seq<T>>, l: nat, m: nat)
    requires l <= m <= |ss|
    ensures Offset(ss, l) <= Offset(ss, m)
    decreases m - l
  {
    if l < m {
      OffsetMonotone(ss, l, m - 1);
    }
  }

  /** Element `i` of piece `l` sits at `Offset(ss, l) + i` of the concatenation. */
  lemma {:induction false} FlattenAt<T>(ss: seq<seq<T>>, l: nat, i: nat)
    requires l < |ss| && i < |ss[l]|
    ensures Offset(ss, l) + i < |Flatten(ss)|
    ensures Flatten(ss)[Offset(ss, l) + i] == ss[l][i]
  {
    var init := ss[..l + 1];
    assert ss == init + ss[l + 1..];
    FlattenSplit(init, ss[l + 1..]);
    var pre := ss[..l];
    assert init == pre + [ss[l]];
    FlattenAppend(pre, ss[l]);
    FlattenLength(pre);
    OffsetPrefix(ss, l, l);
    assert |Flatten(pre)| == Offset(ss, l);
  }

  lemma {:induction false} FlattenSplit<T>(a: seq<seq<T>>, b: seq<seq<T>>)
    ensures Flatten(a + b) == Flatten(a) + Flatten(b)
  {
    if a == [] {
      assert a + b == b;
    } else {
      assert (a + b)[1..] == a[1..] + b;
      FlattenSplit(a[1..], b);
    }
  }

  /** For pieces of one length `n`, piece `l` starts at `l * n`. */
  lemma {:induction false} UniformOffset<T>(ss: seq<seq<T>>, n: nat, l: nat)
    requires Uniform(ss, n) && l <= |ss|
    ensures Offset(ss, l) == l * n
  {
    if l > 0 {
      UniformOffset(ss, n, l - 1);
    }
  }

  lemma {:induction false} UniformFlattenLength<T>(ss: seq<seq<T>>, n: nat)
    requires Uniform(ss, n)
    ensures |Flatten(ss)| == |ss| * n
  {
    FlattenLength(ss);
    UniformOffset(ss, n, |ss|);
  }

  /** For pieces of one length `n`, element `i` of piece `l` is at `l·n + i`. */
  lemma {:induction false} UniformFlattenAt<T>(ss: seq<seq<T>>, n: nat, l: nat, i: nat)
    requires Uniform(ss, n) && l < |ss| && i < n
    ensures l * n + i < |Flatten(ss)| && Flatten(ss)[l * n + i] == ss[l][i]
  {
    FlattenAt(ss, l, i);
    UniformOffset(ss, n, l);
  }

  /** For pieces of one length `n`, piece `l` is the slice `[l·n, l·n + n)`. */
  lemma UniformFlattenBlock<T>(ss: seq<seq<T>>, n: nat, l: nat, a: nat)
    requires Uniform(ss, n) && l < |ss| && a == l * n
    ensures a + n <= |Flatten(ss)| && Flatten(ss)[a..a + n] == ss[l]
  {
    UniformFlattenLength(ss, n);
    MulSucc(l, n);
    MulLe(l + 1, |ss|, n);
    forall j | 0 <= j < n
      ensures Flatten(ss)[a + j] == ss[l][j]
    {
      UniformFlattenAt(ss, n, l, j);
    }
  }

  lemma MulSucc(k: nat, n: nat)
    ensures (k + 1) * n == k * n + n
  {
  }

  /** The smaller of two lengths, where a zip stops. */
  function Min(a: nat, b: nat): (r: nat)
    ensures r <= a && r <= b && (r == a || r == b)
  {
    if a <= b then a else b
  }

  /** `skip(k)`: drops up to `k` leading elements. */
  function Drop<T>(s: seq<T>, k: nat): (r: seq<T>)
    ensures |r| == if k <= |s| then |s| - k else 0
  {
    if k <= |s| then s[k..] else []
  }

  /** `step_by(n)`: the first element, then every `n`-th after it. */
  function StepBy<T>(s: seq<T>, n: nat): seq<T>
    requires n > 0
  {
    if s == [] then [] else [s[0]] + StepBy(s[if n <= |s| then n else |s|..], n)
  }

  lemma {:induction false} StepByAt<T>(s: seq<T>, n: nat, k: nat)
    requires n > 0 && k < |StepBy(s, n)|
    ensures k * n < |s| && StepBy(s, n)[k] == s[k * n]
  {
    if k > 0 {
      var m := if n <= |s| then n else |s|;
      var tail := s[m..];
      assert StepBy(s, n)[k] == StepBy(tail, n)[k - 1];
      StepByAt(tail, n, k - 1);
      assert m == n;
      MulSucc(k - 1, n);
      assert tail[(k - 1) * n] == s[(k - 1) * n + n];
    }
  }

  /** `q` elements come out of `step_by(n)` exactly when `(q-1)·n < |s| <= q·n`. */
  lemma {:induction false} StepByLength<T>(s: seq<T>, n: nat, q: nat)
    requires n > 0
    requires (q == 0 && s == []) || (q > 0 && (q - 1) * n < |s| <= q * n)
    ensures |StepBy(s, n)| == q
  {
    if q > 0 {
      var tail := s[if n <= |s| then n else |s|..];
      if |s| <= n {
        assert tail == [];
        StepByLength(tail, n, 0);
        assert q == 1;
      } else {
        assert q >= 2;
        MulSucc(q - 2, n);
        MulSucc(q - 1, n);
        StepByLength(tail, n, q - 1);
      }
    }
  }

  /** `chunks(n)`: consecutive pieces of `n` elements, the last one possibly shorter. */
  function Chunks<T>(s: seq<T>, n: nat): seq<seq<T>>
    requires n > 0
    decreases |s|
  {
    if s == [] then []
    else if |s| <= n then [s]
    else [s[..n]] + Chunks(s[n..], n)
  }

  lemma {:induction false} FlattenChunks<T>(s: seq<T>, n: nat)
    requires n > 0
    ensures Flatten(Chunks(s, n)) == s
    decreases |s|
  {
    if s != [] && |s| > n {
      FlattenChunks(s[n..], n);
      assert s == s[..n] + s[n..];
    }
  }

  /** Every piece but the last has `n` elements; the last is non-empty and at most `n`. */
  lemma {:induction false} ChunksShape<T>(s: seq<T>, n: nat)
    requires n > 0
    ensures forall k :: 0 <= k < |Chunks(s, n)| - 1 ==> |Chunks(s, n)[k]| == n
    ensures |Chunks(s, n)| > 0 ==> 0 < |Chunks(s, n)[|Chunks(s, n)| - 1]| <= n
    decreases |s|
  {
    if s != [] && |s| > n {
      ChunksShape(s[n..], n);
    }
  }

  lemma MulLe(a: nat, b: nat, n: nat)
    requires a <= b
    ensures a * n <= b * n
  {
  }

  lemma SuffixSlice<T>(s: seq<T>, d: nat, a: nat, b: nat)
    requires a <= b && d + b <= |s|
    ensures s[d..][a..b] == s[d + a..d + b]
  {
    assert forall x :: 0 <= x < b - a ==> s[d..][a..b][x] == s[d + a + x];
  }

  /** When `|s| == q·n`, `chunks(n)` gives `q` pieces of `n` elements. */
  lemma {:induction false} ChunksExactLength<T>(s: seq<T>, n: nat, q: nat)
    requires n > 0 && |s| == q * n
    ensures |Chunks(s, n)| == q && Uniform(Chunks(s, n), n)
    decreases q
  {
    if q > 1 {
      MulSucc(q - 1, n);
      MulLe(1, q - 1, n);
      ChunksExactLength(s[n..], n, q - 1);
    }
  }

  /** When `|s| == q·n`, piece `k` of `chunks(n)` is `s[k·n..(k+1)·n]`. */
  lemma {:induction false} ChunksExactAt<T>(s: seq<T>, n: nat, q: nat, k: nat)
    requires n > 0 && |s| == q * n && k < q
    ensures k < |Chunks(s, n)| && k * n + n <= |s| && Chunks(s, n)[k] == s[k * n..k * n + n]
    decreases q
  {
    ChunksExactLength(s, n, q);
    MulSucc(k, n);
    MulLe(k + 1, q, n);
    if k > 0 {
      MulSucc(q - 1, n);
      MulLe(1, q - 1, n);
      ChunksExactAt(s[n..], n, q - 1, k - 1);
      MulSucc(k - 1, n);
      SuffixSlice(s, n, (k - 1) * n, (k - 1) * n + n);
    }
  }

  /** Channel `i` of a buffer of `q` groups of `n`: one value per group. */
  lemma StrideLength<T>(s: seq<T>, n: nat, q: nat, i: nat)
    requires n > 0 && |s| == q * n && i < n
    ensures |StepBy(Drop(s, i), n)| == q
  {
    if q > 0 {
      MulSucc(q - 1, n);
    }
    StepByLength(Drop(s, i), n, q);
  }

  /** Value `j` of the last `e` values of channel `i` is `s[(q − e + j)·n + i]`. */
  lemma StrideWindowAt<T>(s: seq<T>, n: nat, q: nat, i: nat, e: nat, j: nat)
    requires n > 0 && |s| == q * n && i < n && e <= q && j < e
    ensures |Drop(StepBy(Drop(s, i), n), q - e)| == e
    ensures var k := q - e + j; k * n + i < |s| && Drop(StepBy(Drop(s, i), n), q - e)[j] == s[k * n + i]
  {
    StrideLength(s, n, q, i);
    var k := q - e + j;
    var ch := StepBy(Drop(s, i), n);
    assert Drop(ch, q - e)[j] == ch[k];
    StepByAt(Drop(s, i), n, k);
    assert k * n < |s| - i;
    assert ch[k] == s[k * n + i];
  }
}
