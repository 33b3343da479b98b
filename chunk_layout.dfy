/**
 * Chunk layout of an over-the-air firmware transfer: how many chunks the
 * image is requested in, and how many bytes each chunk must carry.
 * These are the pure computations of `OTA_Handler` (the chunk count taken in
 * `Start_Firmware_Update` and the size check of `Received_Valid_Chunk_Size`).
 */
module ChunkLayout {

  /** Monotonicity of multiplication by a natural number. */
  lemma {:induction false} MulMonotone(a: nat, b: nat, c: nat)
    requires a <= b
    ensures a * c <= b * c
  {
    if c > 0 {
      MulMonotone(a, b, c - 1);
      assert a * c == a * (c - 1) + a;
      assert b * c == b * (c - 1) + b;
    }
  }

  /**
   * `m_total_chunks`: the firmware size divided by the chunk size, plus one,
   * so there is always at least one chunk to request.
   */
  function TotalChunks(fwSize: nat, chunkSize: nat): (n: nat)
    requires chunkSize > 0
    ensures n >= 1
  {
    fwSize / chunkSize + 1
  }

  /**
   * The chunk count is the least number of chunk-sized blocks whose total
   * strictly exceeds the firmware size, so a size that is an exact multiple of
   * the chunk size gets one extra (empty) chunk.
   */
  lemma TotalChunksBounds(fwSize: nat, chunkSize: nat)
    requires chunkSize > 0
    ensures (TotalChunks(fwSize, chunkSize) - 1) * chunkSize <= fwSize
    ensures fwSize < TotalChunks(fwSize, chunkSize) * chunkSize
  {
    var q := fwSize / chunkSize;
    assert fwSize == q * chunkSize + fwSize % chunkSize;
    assert (q + 1) * chunkSize == q * chunkSize + chunkSize;
  }

  /**
   * Size the chunk at `index` must have when `totalChunks` chunks are expected:
   * the configured chunk size, except for the last chunk (`index + 1 >= totalChunks`),
   * which carries the remainder of the firmware size.
   */
  function ExpectedChunkSize(fwSize: nat, chunkSize: nat, totalChunks: nat, index: nat): (size: nat)
    requires chunkSize > 0
    ensures size <= chunkSize
    ensures size < chunkSize ==> index + 1 >= totalChunks
  {
    if index + 1 >= totalChunks then fwSize % chunkSize else chunkSize
  }

  /** Expected size of chunk `index` in the layout of a `fwSize`-byte image. */
  function LayoutChunkSize(fwSize: nat, chunkSize: nat, index: nat): nat
    requires chunkSize > 0
  {
    ExpectedChunkSize(fwSize, chunkSize, TotalChunks(fwSize, chunkSize), index)
  }

  /**
   * Every chunk of the layout lies inside the image: chunk `index` starts at
   * `index * chunkSize`, and the last chunk ends exactly at the image's end.
   */
  lemma ChunkWithinImage(fwSize: nat, chunkSize: nat, index: nat)
    requires chunkSize > 0
    requires index < TotalChunks(fwSize, chunkSize)
    ensures index * chunkSize + LayoutChunkSize(fwSize, chunkSize, index) <= fwSize
    ensures index + 1 == TotalChunks(fwSize, chunkSize) ==>
              index * chunkSize + LayoutChunkSize(fwSize, chunkSize, index) == fwSize
    ensures index + 1 < TotalChunks(fwSize, chunkSize) ==>
              (index + 1) * chunkSize <= fwSize
  {
    var q := fwSize / chunkSize;
    assert fwSize == q * chunkSize + fwSize % chunkSize;
    if index + 1 < q + 1 {
      MulMonotone(index + 1, q, chunkSize);
      assert (index + 1) * chunkSize == index * chunkSize + chunkSize;
    }
  }

  /** Number of bytes carried by the first `count` chunks of the layout. */
  function SizeOfFirst(fwSize: nat, chunkSize: nat, count: nat): nat
    requires chunkSize > 0
  {
    if count == 0 then 0
    else SizeOfFirst(fwSize, chunkSize, count - 1) + LayoutChunkSize(fwSize, chunkSize, count - 1)
  }

  /**
   * The chunks tile the image: the first `count` chunks of a partial transfer
   * carry `count` full chunks, and all chunks together carry exactly the
   * firmware size (including a zero-length final chunk for exact multiples).
   */
  lemma {:induction false} SizeOfFirstChunks(fwSize: nat, chunkSize: nat, count: nat)
    requires chunkSize > 0
    requires count <= TotalChunks(fwSize, chunkSize)
    ensures SizeOfFirst(fwSize, chunkSize, count) ==
              if count == TotalChunks(fwSize, chunkSize) then fwSize else count * chunkSize
  {
    if count > 0 {
      SizeOfFirstChunks(fwSize, chunkSize, count - 1);
      ChunkWithinImage(fwSize, chunkSize, count - 1);
      assert count * chunkSize == (count - 1) * chunkSize + chunkSize;
    }
  }

  /** The final chunk is empty exactly when the firmware size is a multiple of the chunk size. */
  lemma FinalChunkEmptyIffExactMultiple(fwSize: nat, chunkSize: nat)
    requires chunkSize > 0
    ensures (LayoutChunkSize(fwSize, chunkSize, TotalChunks(fwSize, chunkSize) - 1) == 0) <==>
            (fwSize % chunkSize == 0)
  {
  }

  /** A 10000-byte image in 4096-byte chunks is requested as chunks of 4096, 4096 and 1808 bytes. */
  lemma TenThousandBytesInFourKibChunks()
    ensures TotalChunks(10000, 4096) == 3
    ensures LayoutChunkSize(10000, 4096, 0) == 4096
    ensures LayoutChunkSize(10000, 4096, 1) == 4096
    ensures LayoutChunkSize(10000, 4096, 2) == 1808
  {
  }

  /** An 8192-byte image in 4096-byte chunks is requested as three chunks, the last one empty. */
  lemma ExactMultipleGetsEmptyExtraChunk()
    ensures TotalChunks(8192, 4096) == 3
    ensures LayoutChunkSize(8192, 4096, 2) == 0
  {
  }
}
