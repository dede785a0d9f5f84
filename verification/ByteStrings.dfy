/** Byte strings and the few sequence facts that every byte machine below shares. */
module ByteStrings {

  newtype byte = b: int | 0 <= b < 256

  type Bytes = seq<byte>

  const LF: byte := 10
  const CR: byte := 13

  lemma Associate<T>(a: seq<T>, b: seq<T>, c: seq<T>)
    ensures a + (b + c) == a + b + c
  {
  }

  /** What a reader has received once the given chunks have arrived in order. */
  function Flatten(chunks: seq<Bytes>): Bytes {
    if chunks == [] then [] else Flatten(chunks[..|chunks| - 1]) + chunks[|chunks| - 1]
  }

  lemma FlattenSnoc(chunks: seq<Bytes>, chunk: Bytes)
    ensures Flatten(chunks + [chunk]) == Flatten(chunks) + chunk
  {
    assert (chunks + [chunk])[..|chunks|] == chunks;
  }

  lemma {:induction false} FlattenConcat(left: seq<Bytes>, right: seq<Bytes>)
    ensures Flatten(left + right) == Flatten(left) + Flatten(right)
  {
    if right == [] {
      assert left + right == left;
    } else {
      var n := |right| - 1;
      FlattenConcat(left, right[..n]);
      assert (left + right)[..|left + right| - 1] == left + right[..n];
      assert Flatten(left) + Flatten(right[..n]) + right[n] == Flatten(left) + (Flatten(right[..n]) + right[n]);
    }
  }

  lemma FlattenFirst(chunk: Bytes, rest: seq<Bytes>)
    ensures Flatten([chunk] + rest) == chunk + Flatten(rest)
  {
    FlattenConcat([chunk], rest);
    FlattenSnoc([], chunk);
    assert [] + [chunk] == [chunk];
  }

  /** Two neighbouring chunks arriving as one. */
  function Merge(chunks: seq<Bytes>, i: nat): (merged: seq<Bytes>)
    requires i + 1 < |chunks|
    ensures |merged| == |chunks| - 1
  {
    chunks[..i] + [chunks[i] + chunks[i + 1]] + chunks[i + 2..]
  }

  /** Merging loses no byte, and every prefix of the merged list is a prefix of the original one. */
  lemma MergePrefix(chunks: seq<Bytes>, i: nat, k: nat)
    requires i + 1 < |chunks| && k < |chunks|
    ensures Flatten(Merge(chunks, i)[..k]) == Flatten(chunks[..if k <= i then k else k + 1])
  {
    var merged := Merge(chunks, i);
    if k <= i {
      assert merged[..k] == chunks[..k];
    } else {
      var joined := chunks[i] + chunks[i + 1];
      var tail := chunks[i + 2..k + 1];
      assert merged[..k] == (chunks[..i] + [joined]) + tail;
      assert chunks[..k + 1] == (chunks[..i] + [chunks[i]] + [chunks[i + 1]]) + tail;
      FlattenConcat(chunks[..i] + [joined], tail);
      FlattenConcat(chunks[..i] + [chunks[i]] + [chunks[i + 1]], tail);
      FlattenSnoc(chunks[..i], joined);
      FlattenSnoc(chunks[..i], chunks[i]);
      FlattenSnoc(chunks[..i] + [chunks[i]], chunks[i + 1]);
      assert Flatten(chunks[..i]) + joined == Flatten(chunks[..i]) + chunks[i] + chunks[i + 1];
    }
  }

  lemma MergeFlatten(chunks: seq<Bytes>, i: nat)
    requires i + 1 < |chunks|
    ensures Flatten(Merge(chunks, i)) == Flatten(chunks)
  {
    var n := |chunks| - 1;
    MergePrefix(chunks, i, n);
    assert Merge(chunks, i)[..n] == Merge(chunks, i) && chunks[..n + 1] == chunks;
  }

  /** The last n bytes, or everything when there are fewer. */
  function LastBytes(data: Bytes, n: nat): (tail: Bytes)
    ensures |tail| == if |data| <= n then |data| else n
  {
    if |data| <= n then data else data[|data| - n..]
  }
}
