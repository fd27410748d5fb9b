/** `Mailer.add_attachment`'s choice between the inline upload, the chunked
    upload session and refusal, by file size. */
module Routing {
  import opened Builtins
  import opened Chunking

  datatype Route = Inline | Chunked | TooBig

  /** The route for a file of `size` bytes. `add_attachment` divides the size
      by 2^20 as a float and compares the quotient with 3 and 36; on integers
      that is a comparison with 3 MiB and 36 MiB, both ends of the chunked
      range included. The contract states those comparisons on exact reals. */
  function Classify(size: nat): (r: Route)
    ensures r == Inline <==> (size as real) / (MiB as real) < 3.0
    ensures r == Chunked <==> 3.0 <= (size as real) / (MiB as real) <= 36.0
    ensures r == TooBig <==> (size as real) / (MiB as real) > 36.0
  {
    if size < 3 * MiB then Inline
    else if size <= 36 * MiB then Chunked
    else TooBig
  }

  /** The boundaries: just under 3 MiB is inline, exactly 3 MiB and exactly
      36 MiB are chunked, one byte over 36 MiB is refused. */
  lemma ClassifyBoundaries()
    ensures Classify(3 * MiB - 1) == Inline
    ensures Classify(3 * MiB) == Chunked
    ensures Classify(36 * MiB) == Chunked
    ensures Classify(36 * MiB + 1) == TooBig
  {
  }

  /** A file routed to the chunked upload is never empty, so the upload loop
      sends at least one PUT, and it sends between 2 and 18 of them. */
  lemma ChunkedPutCount(size: nat)
    requires Classify(size) == Chunked
    ensures size > 0
    ensures 2 <= CeilDiv(size, BufferSize) <= 18
  {
    CeilDivFloor(size, BufferSize);
    assert 1 <= size / BufferSize <= 18;
    if size / BufferSize == 1 {
      assert size % BufferSize != 0;
    }
    if size / BufferSize == 18 {
      assert size == 36 * MiB;
    }
  }
}
