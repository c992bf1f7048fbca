/**
 Cutting a sequence into batches (keeper/src/run.ts, shared/relay-protocol.ts), and putting them together.
 */
module Batches {
  function Chunks<T>(xs: seq<T>, n: nat): seq<seq<T>>
    requires n > 0
    decreases |xs|
  {
    if xs == [] then [] else if |xs| <= n then [xs] else [xs[..n]] + Chunks(xs[n..], n)
  }

  /** `chunk` of keeper/src/run.ts and `chunks` of shared/relay-protocol.ts: the slices from 0, n, 2n, ... */
  method ChunkLoop<T>(xs: seq<T>, n: nat) returns (out: seq<seq<T>>)
    requires n > 0
    ensures out == Chunks(xs, n)
  {
    out := [];
    var i := 0;
    assert xs[0..] == xs;
    while i < |xs|
      invariant 0 <= i && out + ChunksFrom(xs, i, n) == Chunks(xs, n)
    {
      var end := if i + n < |xs| then i + n else |xs|;
      ChunkSplit(xs, i, n);
      assert out + ([xs[i..end]] + ChunksFrom(xs, i + n, n)) == out + [xs[i..end]] + ChunksFrom(xs, i + n, n);
      out := out + [xs[i..end]];
      i := i + n;
    }
  }

  /** The chunks from index `i` on. */
  function ChunksFrom<T>(xs: seq<T>, i: nat, n: nat): seq<seq<T>>
    requires n > 0
  {
    if i <= |xs| then Chunks(xs[i..], n) else []
  }

  lemma ChunkSplit<T>(xs: seq<T>, i: nat, n: nat)
    requires n > 0 && i < |xs|
    ensures ChunksFrom(xs, i, n) == [xs[i..if i + n < |xs| then i + n else |xs|]] + ChunksFrom(xs, i + n, n)
  {
    if i + n <= |xs| {
      assert xs[i..][..n] == xs[i..i + n] && xs[i..][n..] == xs[i + n..];
      if i + n == |xs| { assert xs[i..] == xs[i..i + n] && xs[i + n..] == []; }
    } else {
      assert xs[i..] == xs[i..|xs|];
    }
  }

  function Flatten<T>(parts: seq<seq<T>>): seq<T> { if parts == [] then [] else parts[0] + Flatten(parts[1..]) }

  /** The chunks hold every entry, in order, in batches of `n`, the last of at most `n` and not empty. */
  lemma {:induction false} ChunksPartition<T>(xs: seq<T>, n: nat)
    requires n > 0
    ensures Flatten(Chunks(xs, n)) == xs
    ensures forall k :: 0 <= k < |Chunks(xs, n)| ==> 0 < |Chunks(xs, n)[k]| <= n
    ensures forall k :: 0 <= k < |Chunks(xs, n)| - 1 ==> |Chunks(xs, n)[k]| == n
    decreases |xs|
  {
    if |xs| > n {
      ChunksPartition(xs[n..], n);
      assert Chunks(xs, n)[1..] == Chunks(xs[n..], n);
    } else if xs != [] {
      assert Flatten([xs]) == xs + Flatten([]);
    }
  }

  /** A prefix and the slice after it make the longer prefix. */
  lemma Glue<T>(s: seq<T>, a: nat, b: nat)
    requires a <= b <= |s|
    ensures s[..a] + s[a..b] == s[..b]
  {
  }

  lemma FlattenSnoc<T>(parts: seq<seq<T>>, x: seq<T>)
    ensures Flatten(parts + [x]) == Flatten(parts) + x
  {
    FlattenConcat(parts, [x]);
    assert Flatten([x]) == x + Flatten([]);
  }

  lemma {:induction false} FlattenConcat<T>(a: seq<seq<T>>, b: seq<seq<T>>)
    ensures Flatten(a + b) == Flatten(a) + Flatten(b)
  {
    if a == [] {
      assert a + b == b;
    } else {
      FlattenConcat(a[1..], b);
      assert (a + b)[1..] == a[1..] + b;
      assert a[0] + (Flatten(a[1..]) + Flatten(b)) == (a[0] + Flatten(a[1..])) + Flatten(b);
    }
  }
}
