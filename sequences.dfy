/** Sequence helpers that the queries are built from: filtering (a WHERE
    clause over a table) and array_chunk with its flattening. */
module Sequences {

  /** The elements of `xs` satisfying `p`, in their original order. */
  function Filter<T(!new)>(xs: seq<T>, p: T -> bool): (r: seq<T>)
    ensures |r| <= |xs|
    ensures forall x :: x in r <==> x in xs && p(x)
  {
    if xs == [] then []
    else
      assert xs == [xs[0]] + xs[1..];
      (if p(xs[0]) then [xs[0]] else []) + Filter(xs[1..], p)
  }

  /** Filtering keeps every element satisfying `p` exactly as often as it
      occurs, and drops the others. */
  lemma {:induction false} FilterCounts<T(!new)>(xs: seq<T>, p: T -> bool, x: T)
    ensures multiset(Filter(xs, p))[x] == if p(x) then multiset(xs)[x] else 0
  {
    if xs != [] {
      assert xs == [xs[0]] + xs[1..];
      FilterCounts(xs[1..], p, x);
    }
  }

  /** PHP's array_chunk: consecutive pieces of length `k`, the last one
      possibly shorter. */
  function Chunk<T>(xs: seq<T>, k: nat): (r: seq<seq<T>>)
    requires k > 0
    ensures r == [] <==> xs == []
    ensures |r| <= |xs|
    decreases |xs|
  {
    if |xs| == 0 then []
    else if |xs| <= k then [xs]
    else [xs[..k]] + Chunk(xs[k..], k)
  }

  /** Every chunk is non-empty and at most `k` long, and all but the last
      are exactly `k` long. */
  lemma {:induction false} ChunkSizes<T>(xs: seq<T>, k: nat)
    requires k > 0
    ensures forall i :: 0 <= i < |Chunk(xs, k)| ==> 0 < |Chunk(xs, k)[i]| <= k
    ensures forall i :: 0 <= i < |Chunk(xs, k)| - 1 ==> |Chunk(xs, k)[i]| == k
    decreases |xs|
  {
    if |xs| > k {
      ChunkSizes(xs[k..], k);
    }
  }

  function Min(a: int, b: int): (m: int)
    ensures m <= a && m <= b && (m == a || m == b)
  {
    if a <= b then a else b
  }

  /** Concatenation of a sequence of sequences. */
  function Flatten<T>(xss: seq<seq<T>>): (r: seq<T>)
  {
    if xss == [] then [] else xss[0] + Flatten(xss[1..])
  }

  /** Concatenation distributes over appending outer sequences. */
  lemma {:induction false} FlattenAppend<T>(a: seq<seq<T>>, b: seq<seq<T>>)
    ensures Flatten(a + b) == Flatten(a) + Flatten(b)
  {
    if a == [] {
      assert a + b == b;
    } else {
      assert (a + b)[1..] == a[1..] + b;
      FlattenAppend(a[1..], b);
    }
  }

  /** Splitting into chunks and concatenating them gives back the input:
      iterating chunk by chunk visits every element once, in order. */
  lemma {:induction false} FlattenChunk<T>(xs: seq<T>, k: nat)
    requires k > 0
    ensures Flatten(Chunk(xs, k)) == xs
    decreases |xs|
  {
    if |xs| == 0 {
    } else if |xs| <= k {
      assert Flatten([xs]) == xs + Flatten([]);
    } else {
      FlattenChunk(xs[k..], k);
      FlattenAppend([xs[..k]], Chunk(xs[k..], k));
      assert Flatten([xs[..k]]) == xs[..k];
      assert xs == xs[..k] + xs[k..];
    }
  }

  /** One more chunk processed: the done part grows by it, the rest shrinks. */
  lemma FlattenStep<T>(xss: seq<seq<T>>, i: nat)
    requires i < |xss|
    ensures Flatten(xss[..i + 1]) == Flatten(xss[..i]) + xss[i]
    ensures Flatten(xss[i..]) == xss[i] + Flatten(xss[i + 1..])
  {
    assert xss[..i + 1] == xss[..i] + [xss[i]];
    FlattenAppend(xss[..i], [xss[i]]);
    assert Flatten([xss[i]]) == xss[i] + Flatten([]);
    assert xss[i..] == [xss[i]] + xss[i + 1..];
    FlattenAppend([xss[i]], xss[i + 1..]);
  }

  /** Cutting the outer sequence anywhere splits the concatenation there. */
  lemma FlattenSplit<T>(xss: seq<seq<T>>, i: nat)
    requires i <= |xss|
    ensures Flatten(xss) == Flatten(xss[..i]) + Flatten(xss[i..])
  {
    assert xss == xss[..i] + xss[i..];
    FlattenAppend(xss[..i], xss[i..]);
  }

  /** Total length of the first `i` pieces: where piece `i` starts in the
      concatenation. */
  function Offset<T>(xss: seq<seq<T>>, i: nat): (o: nat)
    requires i <= |xss|
  {
    if i == 0 then 0 else Offset(xss, i - 1) + |xss[i - 1]|
  }

  /** The offset of piece `i` is the length of the pieces before it. */
  lemma {:induction false} OffsetIsPrefixLength<T>(xss: seq<seq<T>>, i: nat)
    requires i <= |xss|
    ensures Offset(xss, i) == |Flatten(xss[..i])|
  {
    if i > 0 {
      OffsetIsPrefixLength(xss, i - 1);
      FlattenStep(xss, i - 1);
    }
  }

  /** The offset past the last piece is the total length. */
  lemma OffsetOfAll<T>(xss: seq<seq<T>>)
    ensures Offset(xss, |xss|) == |Flatten(xss)|
  {
    OffsetIsPrefixLength(xss, |xss|);
    assert xss[..|xss|] == xss;
  }

  /** Piece `i` is the slice of the concatenation that starts at its offset. */
  lemma ChunkAtOffset<T>(xs: seq<T>, xss: seq<seq<T>>, i: nat)
    requires Flatten(xss) == xs && i < |xss|
    ensures Offset(xss, i) + |xss[i]| == Offset(xss, i + 1) <= |xs|
    ensures xss[i] == xs[Offset(xss, i)..Offset(xss, i) + |xss[i]|]
  {
    OffsetIsPrefixLength(xss, i);
    FlattenStep(xss, i);
    FlattenSplit(xss, i + 1);
    assert xs == Flatten(xss[..i]) + xss[i] + Flatten(xss[i + 1..]);
  }

  /** Chunk `i` is the slice of `xs` that starts at its offset. */
  lemma ChunkPiece<T>(xs: seq<T>, k: nat, i: nat)
    requires k > 0 && i < |Chunk(xs, k)|
    ensures Offset(Chunk(xs, k), i) + |Chunk(xs, k)[i]| == Offset(Chunk(xs, k), i + 1) <= |xs|
    ensures Chunk(xs, k)[i] == xs[Offset(Chunk(xs, k), i)..Offset(Chunk(xs, k), i) + |Chunk(xs, k)[i]|]
  {
    FlattenChunk(xs, k);
    ChunkAtOffset(xs, Chunk(xs, k), i);
  }

  /** The chunks together are as long as `xs`. */
  lemma ChunksEnd<T>(xs: seq<T>, k: nat)
    requires k > 0
    ensures Offset(Chunk(xs, k), |Chunk(xs, k)|) == |xs|
  {
    FlattenChunk(xs, k);
    OffsetOfAll(Chunk(xs, k));
  }
}
