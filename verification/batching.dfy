/** Splitting of the identifier list into the contiguous batches that are
    fetched one request at a time. */
module Batching {

  /** Number of identifiers sent in one fetch request. */
  const ChunkSize: nat := 10000

  function Min(a: int, b: int): int
  {
    if a <= b then a else b
  }

  /** The batches laid end to end. */
  function Concat<T>(chunks: seq<seq<T>>): seq<T>
  {
    if chunks == [] then [] else chunks[0] + Concat(chunks[1..])
  }

  /** The slices `ids[start:start + ChunkSize]` for `start` in
      `range(0, len(ids), ChunkSize)`, in that order. */
  function Chunks<T>(ids: seq<T>): seq<seq<T>>
    decreases |ids|
  {
    if |ids| == 0 then []
    else if |ids| <= ChunkSize then [ids]
    else [ids[..ChunkSize]] + Chunks(ids[ChunkSize..])
  }

  /** There are ceil(|ids| / ChunkSize) batches; laid end to end they give
      back the identifier list; each holds between 1 and ChunkSize
      identifiers, and every batch but the last is full. */
  lemma {:induction false} ChunksShape<T>(ids: seq<T>)
    ensures var r := Chunks(ids);
      && |r| == (|ids| + ChunkSize - 1) / ChunkSize
      && Concat(r) == ids
      && (forall i :: 0 <= i < |r| ==> 0 < |r[i]| <= ChunkSize)
      && (forall i :: 0 <= i < |r| - 1 ==> |r[i]| == ChunkSize)
    decreases |ids|
  {
    if |ids| > ChunkSize {
      ChunksShape(ids[ChunkSize..]);
      assert ids[..ChunkSize] + ids[ChunkSize..] == ids;
    }
  }

  /** Batch `i` is exactly the slice that iteration `i` of the source's
      `range` loop cuts out. */
  lemma {:induction false} ChunksAreSlices<T>(ids: seq<T>, i: nat)
    requires i * ChunkSize < |ids|
    ensures i < |Chunks(ids)|
    ensures Chunks(ids)[i] == ids[i * ChunkSize .. Min((i + 1) * ChunkSize, |ids|)]
    decreases |ids|
  {
    if |ids| > ChunkSize && i > 0 {
      var tail := ids[ChunkSize..];
      ChunksAreSlices(tail, i - 1);
      assert Chunks(ids)[i] == Chunks(tail)[i - 1];
      assert tail[(i - 1) * ChunkSize .. Min(i * ChunkSize, |tail|)]
          == ids[i * ChunkSize .. Min((i + 1) * ChunkSize, |ids|)];
    }
  }
}
