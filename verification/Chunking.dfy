/**
 How an upload is cut into chunks of one mebibyte, and the 32-bit product that limits its size.
 */
module Chunking {
  import opened Types

  const CHUNK_SIZE := 1048576

  /** Beyond this many bytes some chunk starts at an offset that does not fit a 32-bit integer. */
  const MAX_UPLOAD := 0x8000_0000

  function NumChunks(size: nat): nat {
    (size + CHUNK_SIZE - 1) / CHUNK_SIZE
  }

  /** Where chunk `k` starts in an upload of `size` bytes, capped by its end. */
  function Offset(size: nat, k: nat): nat {
    Min(k * CHUNK_SIZE, size)
  }

  /** The bytes before chunk `k`. */
  function Prefix(data: Bytes, k: nat): Bytes {
    data[..Offset(|data|, k)]
  }

  function Slice(data: Bytes, k: nat): Bytes {
    data[Offset(|data|, k)..Offset(|data|, k + 1)]
  }

  function Slices(data: Bytes, k: nat): seq<Bytes> {
    seq(k, i requires 0 <= i < k => Slice(data, i))
  }

  lemma PrefixStep(data: Bytes, k: nat)
    ensures Prefix(data, k) + Slice(data, k) == Prefix(data, k + 1)
  {
  }

  lemma PrefixWhole(data: Bytes)
    ensures Prefix(data, NumChunks(|data|)) == data
  {
  }

  lemma {:induction false} SlicesFlatten(data: Bytes, k: nat)
    ensures Flatten(Slices(data, k)) == Prefix(data, k)
  {
    if k == 0 {
    } else {
      SlicesFlatten(data, k - 1);
      assert Slices(data, k) == Slices(data, k - 1) + [Slice(data, k - 1)];
      FlattenAppend(Slices(data, k - 1), Slice(data, k - 1));
      PrefixStep(data, k - 1);
    }
  }

  /**
   The chunks of an upload: none is empty, none exceeds the chunk size, all but the last have it
   exactly, and put together in order they are the upload again.
   */
  lemma ChunksCover(data: Bytes)
    ensures Flatten(Slices(data, NumChunks(|data|))) == data
    ensures forall k :: 0 <= k < NumChunks(|data|) ==> 0 < |Slice(data, k)| <= 1048576
    ensures forall k :: 0 <= k < NumChunks(|data|) - 1 ==> |Slice(data, k)| == 1048576
  {
    SlicesFlatten(data, NumChunks(|data|));
    PrefixWhole(data);
  }

  /**
   The source computes a chunk's start as a product of two 32-bit integers. Every such product of
   an upload fits exactly when the upload has at most 2^31 bytes.
   */
  lemma StartsFitExactly(size: nat)
    ensures (forall k: nat :: k < NumChunks(size) ==> k * 1048576 < 0x8000_0000) <==> size <= 0x8000_0000
  {
    if size > MAX_UPLOAD {
      var k: nat := 2048;
      assert k < NumChunks(size) && k * CHUNK_SIZE == 0x8000_0000;
    }
  }
}
