/**
  `chunk` of src/utils.ts: cuts a list into consecutive slices of `size`
  elements, the last one possibly shorter. The publish endpoint uses it
  to untag files five at a time.
 */
module Chunking {

  function Min(a: int, b: int): int { if a <= b then a else b }

  /** The elements of the slices, in order. */
  function Concat<T>(chunks: seq<seq<T>>): seq<T>
  {
    if chunks == [] then [] else Concat(chunks[..|chunks| - 1]) + chunks[|chunks| - 1]
  }

  /** Slice `k` of a chunking of `a` by `size`: `a.slice(k * size, (k + 1) * size)`. */
  ghost predicate IsChunking<T>(chunks: seq<seq<T>>, a: seq<T>, size: int)
    requires size > 0
  {
    forall k :: 0 <= k < |chunks| ==>
      k * size <= |a| && chunks[k] == a[k * size .. Min(k * size + size, |a|)]
  }

  /**
    The loop of `chunk`: `for (i = 0; i < a.length; i += size)
    result.push(a.slice(i, i + size))`. A `size` of zero or less would
    loop forever on a non-empty list, so it is excluded.
   */
  method Chunk<T>(a: seq<T>, size: int) returns (chunks: seq<seq<T>>)
    requires size > 0
    ensures Concat(chunks) == a
    ensures |chunks| == (|a| + size - 1) / size
    ensures IsChunking(chunks, a, size)
    ensures forall k :: 0 <= k < |chunks| ==> 1 <= |chunks[k]| <= size
    ensures forall k :: 0 <= k < |chunks| - 1 ==> |chunks[k]| == size
  {
    chunks := [];
    var i := 0;
    while i < |a|
      invariant Progress(chunks, a, size, i)
      decreases |a| - i
    {
      var piece := a[i .. Min(i + size, |a|)];
      ChunkStep(a, size, chunks, i);
      chunks := chunks + [piece];
      i := i + size;
    }
    ChunkDone(a, size, chunks, i);
  }

  /** The invariant of the loop of `chunk`, with `i` the start of the next slice. */
  ghost predicate Progress<T>(chunks: seq<seq<T>>, a: seq<T>, size: int, i: int)
    requires size > 0
  {
    && i == |chunks| * size
    && (0 < |chunks| ==> (|chunks| - 1) * size < |a|)
    && Concat(chunks) == a[..Min(i, |a|)]
    && IsChunking(chunks, a, size)
    && (forall k :: 0 <= k < |chunks| ==> 1 <= |chunks[k]| <= size)
    && (forall k :: 0 <= k < |chunks| - 1 ==> |chunks[k]| == size)
  }

  /** Past the end of the list, the invariant is the contract of `chunk`. */
  lemma ChunkDone<T>(a: seq<T>, size: int, chunks: seq<seq<T>>, i: int)
    requires size > 0 && i >= |a|
    requires Progress(chunks, a, size, i)
    ensures Concat(chunks) == a
    ensures |chunks| == (|a| + size - 1) / size
    ensures IsChunking(chunks, a, size)
    ensures forall k :: 0 <= k < |chunks| ==> 1 <= |chunks[k]| <= size
    ensures forall k :: 0 <= k < |chunks| - 1 ==> |chunks[k]| == size
  {
    assert a[..|a|] == a;
    CountChunks(|a|, size, |chunks|);
  }

  /** One turn of the loop keeps its invariant. */
  lemma ChunkStep<T>(a: seq<T>, size: int, chunks: seq<seq<T>>, i: int)
    requires size > 0 && 0 <= i < |a|
    requires Progress(chunks, a, size, i)
    ensures Progress(chunks + [a[i .. Min(i + size, |a|)]], a, size, i + size)
  {
    var piece := a[i .. Min(i + size, |a|)];
    var grown := chunks + [piece];
    assert Concat(grown) == Concat(chunks) + piece by {
      assert grown[..|chunks|] == chunks;
    }
    assert a[..i] + piece == a[..Min(i + size, |a|)];
    ChunkingGrows(a, size, chunks, i);
    if |chunks| > 0 {
      LastChunkFull(a, size, chunks, i);
    }
    MulSucc(|chunks|, size);
  }

  /** The slice taken at `i` extends the chunking by one. */
  lemma ChunkingGrows<T>(a: seq<T>, size: int, chunks: seq<seq<T>>, i: int)
    requires size > 0 && 0 <= i < |a|
    requires i == |chunks| * size
    requires IsChunking(chunks, a, size)
    ensures IsChunking(chunks + [a[i .. Min(i + size, |a|)]], a, size)
  {
    var grown := chunks + [a[i .. Min(i + size, |a|)]];
    forall k | 0 <= k < |grown|
      ensures k * size <= |a| && grown[k] == a[k * size .. Min(k * size + size, |a|)]
    {
      if k < |chunks| {
        assert grown[k] == chunks[k];
      }
    }
  }

  /** A slice followed by another is a full one. */
  lemma LastChunkFull<T>(a: seq<T>, size: int, chunks: seq<seq<T>>, i: int)
    requires size > 0 && 0 <= i < |a|
    requires i == |chunks| * size
    requires IsChunking(chunks, a, size)
    requires |chunks| > 0
    ensures |chunks[|chunks| - 1]| == size
  {
    var n := |chunks| - 1;
    var start := n * size;
    MulSucc(n, size);
    assert start + size == i;
    assert Min(start + size, |a|) == i;
    assert chunks[n] == a[start .. i];
  }

  lemma MulSucc(n: int, size: int)
    ensures (n + 1) * size == n * size + size
  {
  }

  /** `k` steps of `size` first reach `n` after ceil(n / size) steps. */
  lemma CountChunks(n: nat, size: int, k: nat)
    requires size > 0
    requires k * size >= n
    requires k == 0 || (k - 1) * size < n
    ensures k == (n + size - 1) / size
  {
    if k == 0 {
      assert n == 0;
    } else {
      MulSucc(k - 1, size);
      DivBetween(n + size - 1, size, k);
    }
  }

  /** `a * d <= b * d` for `a <= b` and non-negative `d`. */
  lemma MulMonotone(a: int, b: int, d: int)
    requires a <= b && d >= 0
    ensures a * d <= b * d
  {
    assert b * d - a * d == (b - a) * d;
  }

  lemma DivBetween(m: int, d: int, q: int)
    requires d > 0 && q * d <= m < q * d + d
    ensures m / d == q
  {
    var p := m / d;
    assert m == p * d + m % d;
    if p > q {
      MulMonotone(q + 1, p, d);
      MulSucc(q, d);
    } else if p < q {
      MulMonotone(p + 1, q, d);
      MulSucc(p, d);
    }
  }
}
