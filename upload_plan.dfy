/** The PUT requests `Mailer._start_upload_byte_by_byte` sends for a file:
    the chunks of `_read_bytes` zipped with `range(0, file_size, buffer_size)`,
    each turned into a `Content-Length` and a `Content-Range` header. */
module UploadPlan {
  import opened Builtins
  import opened Http
  import opened Chunking

  const OctetStream := "application/octet-stream"

  /** The request the loop body builds for one chunk found at offset `idx`:
      start is the offset, end is the offset plus the chunk length minus one,
      and the total is the file size recorded when the attachment was made. */
  function ChunkPut(url: string, chunk: seq<bv8>, idx: int, fileSize: int): Request
  {
    var startIndex := idx;
    var endIndex := idx + |chunk| - 1;
    Put(url, ChunkHeaders(OctetStream, |chunk|, ByteRange(startIndex, endIndex, fileSize)), chunk)
  }

  /** The (chunk, offset) pairs the loop walks: `zip` of the chunks and the
      offsets, cut to the shorter of the two. */
  function Pairs(data: seq<bv8>, size: nat): seq<(seq<bv8>, int)>
    requires size > 0
  {
    Zip(Chunks(data, size), Range(0, |data|, size))
  }

  /** Every request the loop sends, in order, for a file with contents `data`. */
  function Puts(url: string, data: seq<bv8>, size: nat): seq<Request>
    requires size > 0
  {
    var pairs := Pairs(data, size);
    seq(|pairs|, i requires 0 <= i < |pairs| => ChunkPut(url, pairs[i].0, pairs[i].1, |data|))
  }

  /** Reference definition of the `i`-th range, from the sizes alone: it starts
      at `i` full buffers and ends a buffer later or at the end of the file. */
  function RangeOf(i: nat, fileSize: nat, size: nat): ByteRange
  {
    ByteRange(i * size, Min(i * size + size, fileSize) - 1, fileSize)
  }

  /** Below the number of PUTs, a range starts inside the file, and so it is
      satisfiable and covers the whole file. */
  lemma RangeStartsInFile(i: nat, fileSize: nat, size: nat)
    requires size > 0 && i < CeilDiv(fileSize, size)
    ensures 0 <= i * size < fileSize
    ensures Satisfiable(RangeOf(i, fileSize, size)) && RangeOf(i, fileSize, size).complete == fileSize
    ensures i + 1 < CeilDiv(fileSize, size) ==> i * size + size < fileSize
    ensures i + 1 == CeilDiv(fileSize, size) ==> i * size + size >= fileSize
  {
    var k := CeilDiv(fileSize, size);
    MulLeft(i, 0, size);
    CeilDivBounds(fileSize, size);
    MulLeft(k - 1, i, size);
    if i + 1 < k {
      MulLeft(k - 1, i + 1, size);
    }
  }

  /** The loop issues ceil(file_size / buffer_size) PUTs, one fewer than there
      are chunks exactly when the length is a multiple of the buffer size, and
      the chunk then left out is the empty trailing one. */
  lemma {:induction false} PutCount(url: string, data: seq<bv8>, size: nat)
    requires size > 0
    ensures |Puts(url, data, size)| == CeilDiv(|data|, size)
    ensures |Puts(url, data, size)| == |Chunks(data, size)| - (if |data| % size == 0 then 1 else 0)
    ensures |data| % size == 0 ==> Chunks(data, size)[|Chunks(data, size)| - 1] == []
  {
    ChunksCount(data, size);
    CeilDivFloor(|data|, size);
  }

  /** A non-empty file goes up in at least one PUT. */
  lemma PutsNonEmpty(url: string, data: seq<bv8>, size: nat)
    requires size > 0 && |data| > 0
    ensures |Puts(url, data, size)| == CeilDiv(|data|, size) > 0
  {
    PutCount(url, data, size);
    CeilDivBounds(|data|, size);
  }

  /** The `i`-th PUT, spelled out: it carries the file's bytes from the first
      to the last position of `RangeOf(i)`, its `Content-Range` is that range
      over the file size, which is satisfiable in the sense of RFC 9110, and
      its `Content-Length` is the number of bytes in the range. */
  lemma {:induction false} PutAt(url: string, data: seq<bv8>, size: nat, i: nat)
    requires size > 0 && i < |Puts(url, data, size)|
    ensures Satisfiable(RangeOf(i, |data|, size)) && RangeOf(i, |data|, size).complete == |data|
    ensures Puts(url, data, size)[i] ==
      Put(url,
          ChunkHeaders(OctetStream, RangeLength(RangeOf(i, |data|, size)), RangeOf(i, |data|, size)),
          data[RangeOf(i, |data|, size).first..RangeOf(i, |data|, size).last + 1])
  {
    var pairs := Pairs(data, size);
    PutCount(url, data, size);
    assert Puts(url, data, size)[i] == ChunkPut(url, pairs[i].0, pairs[i].1, |data|);
    RangeStartsInFile(i, |data|, size);
    PairAt(data, size, i);
  }

  /** The headers of the `i`-th PUT carry `RangeOf(i)` and its length. */
  lemma PutHeaders(url: string, data: seq<bv8>, size: nat, i: nat)
    requires size > 0 && i < |Puts(url, data, size)|
    ensures Puts(url, data, size)[i].Put?
    ensures Puts(url, data, size)[i].headers
            == ChunkHeaders(OctetStream, RangeLength(RangeOf(i, |data|, size)), RangeOf(i, |data|, size))
  {
    PutAt(url, data, size, i);
  }

  /** The `i`-th pair the loop walks: the file slice from `i` buffers in and
      its offset. */
  lemma PairAt(data: seq<bv8>, size: nat, i: nat)
    requires size > 0 && i < |Pairs(data, size)|
    ensures i * size <= |data|
    ensures Pairs(data, size)[i] == (data[i * size..Min(i * size + size, |data|)], i * size)
  {
    ChunkAt(data, size, i);
  }

  /** Successive ranges touch: each starts one past where the previous ended. */
  lemma RangesContiguous(fileSize: nat, size: nat, i: nat)
    requires size > 0 && i + 1 < CeilDiv(fileSize, size)
    ensures RangeOf(i + 1, fileSize, size).first == RangeOf(i, fileSize, size).last + 1
    ensures RangeLength(RangeOf(i, fileSize, size)) == size
  {
    RangeStartsInFile(i, fileSize, size);
  }

  /** The ranges start at 0 and the last one ends at the last byte of the file. */
  lemma RangesCoverFile(fileSize: nat, size: nat)
    requires size > 0 && fileSize > 0
    ensures CeilDiv(fileSize, size) > 0
    ensures RangeOf(0, fileSize, size).first == 0
    ensures RangeOf(CeilDiv(fileSize, size) - 1, fileSize, size).last == fileSize - 1
  {
    CeilDivBounds(fileSize, size);
    RangeStartsInFile(CeilDiv(fileSize, size) - 1, fileSize, size);
  }

  /** What the receiver reads from the header fields of the `i`-th PUT: an
      octet stream, the range `RangeOf(i)`, and a `Content-Length` equal both
      to the payload length and to end - start + 1. */
  lemma HeadersReadBack(url: string, data: seq<bv8>, size: nat, i: nat)
    requires size > 0 && i < |Puts(url, data, size)|
    ensures Puts(url, data, size)[i].Put?
    ensures HeaderFields(Puts(url, data, size)[i].headers)["Content-Type"] == "application/octet-stream"
    ensures ParseContentRange(HeaderFields(Puts(url, data, size)[i].headers)["Content-Range"])
            == Some(RangeOf(i, |data|, size))
    ensures AllDigits(HeaderFields(Puts(url, data, size)[i].headers)["Content-Length"])
    ensures ParseDecimal(HeaderFields(Puts(url, data, size)[i].headers)["Content-Length"])
            == |Puts(url, data, size)[i].payload|
            == RangeLength(RangeOf(i, |data|, size))
  {
    PutAt(url, data, size, i);
    var r := RangeOf(i, |data|, size);
    ContentRangeRoundTrip(r);
    StrNonNegative(RangeLength(r));
  }

  lemma {:induction false} RawBodiesOfParts(reqs: seq<Request>, parts: seq<seq<bv8>>)
    requires |reqs| == |parts|
    requires forall i :: 0 <= i < |reqs| ==> RawBody(reqs[i]) == parts[i]
    ensures RawBodies(reqs) == Concat(parts)
  {
    if reqs != [] {
      RawBodiesOfParts(reqs[1..], parts[1..]);
    }
  }

  /** The payloads of the PUTs, in order, are exactly the file: the chunk the
      `zip` leaves out is always empty. */
  lemma PutsCarryFile(url: string, data: seq<bv8>, size: nat)
    requires size > 0
    ensures RawBodies(Puts(url, data, size)) == data
  {
    var puts, chunks := Puts(url, data, size), Chunks(data, size);
    PutCount(url, data, size);
    RawBodiesOfParts(puts, chunks[..|puts|]);
    ChunksConcat(data, size);
    if |puts| < |chunks| {
      DropEmptyLast(chunks);
    } else {
      assert chunks[..|puts|] == chunks;
    }
  }

  /** A 5 MiB file read with the 2 MiB buffer goes up in three PUTs, with
      `Content-Range` values 0-2097151, 2097152-4194303 and 4194304-5242879,
      each over 5242880, and a last `Content-Length` of 1 MiB. */
  lemma FiveMiBFile(url: string, data: seq<bv8>)
    requires |data| == 5 * MiB
    ensures |Puts(url, data, BufferSize)| == 3
    ensures Puts(url, data, BufferSize)[0].headers.contentRange == ByteRange(0, 2097151, 5242880)
    ensures Puts(url, data, BufferSize)[1].headers.contentRange == ByteRange(2097152, 4194303, 5242880)
    ensures Puts(url, data, BufferSize)[2].headers.contentRange == ByteRange(4194304, 5242879, 5242880)
    ensures Puts(url, data, BufferSize)[2].headers.contentLength == 1048576
  {
    PutCount(url, data, BufferSize);
    assert CeilDiv(5 * MiB, BufferSize) == 3;
    PutHeaders(url, data, BufferSize, 0);
    PutHeaders(url, data, BufferSize, 1);
    PutHeaders(url, data, BufferSize, 2);
    assert RangeOf(1, 5 * MiB, BufferSize) == ByteRange(2097152, 4194303, 5242880);
    assert RangeOf(2, 5 * MiB, BufferSize) == ByteRange(4194304, 5242879, 5242880);
  }

  /** The decimal text of each number in the 5 MiB example, built one digit
      at a time. */
  lemma Numeral2097151()
    ensures Str(2097151) == "2097151"
  {
    DecimalAppend(2, 0);
    DecimalAppend(20, 9);
    DecimalAppend(209, 7);
    DecimalAppend(2097, 1);
    DecimalAppend(20971, 5);
    DecimalAppend(209715, 1);
  }

  lemma Numeral2097152()
    ensures Str(2097152) == "2097152"
  {
    DecimalAppend(2, 0);
    DecimalAppend(20, 9);
    DecimalAppend(209, 7);
    DecimalAppend(2097, 1);
    DecimalAppend(20971, 5);
    DecimalAppend(209715, 2);
  }

  lemma Numeral4194303()
    ensures Str(4194303) == "4194303"
  {
    DecimalAppend(4, 1);
    DecimalAppend(41, 9);
    DecimalAppend(419, 4);
    DecimalAppend(4194, 3);
    DecimalAppend(41943, 0);
    DecimalAppend(419430, 3);
  }

  lemma Numeral4194304()
    ensures Str(4194304) == "4194304"
  {
    DecimalAppend(4, 1);
    DecimalAppend(41, 9);
    DecimalAppend(419, 4);
    DecimalAppend(4194, 3);
    DecimalAppend(41943, 0);
    DecimalAppend(419430, 4);
  }

  lemma Numeral5242879()
    ensures Str(5242879) == "5242879"
  {
    DecimalAppend(5, 2);
    DecimalAppend(52, 4);
    DecimalAppend(524, 2);
    DecimalAppend(5242, 8);
    DecimalAppend(52428, 7);
    DecimalAppend(524287, 9);
  }

  lemma Numeral5242880()
    ensures Str(5242880) == "5242880"
  {
    DecimalAppend(5, 2);
    DecimalAppend(52, 4);
    DecimalAppend(524, 2);
    DecimalAppend(5242, 8);
    DecimalAppend(52428, 8);
    DecimalAppend(524288, 0);
  }

  lemma FirstRangeText()
    ensures ContentRange(ByteRange(0, 2097151, 5242880)) == "bytes 0-2097151/5242880"
  {
    Numeral2097151();
    Numeral5242880();
    var r := ByteRange(0, 2097151, 5242880);
    assert "bytes " + Str(r.first) + "-" == "bytes 0-";
    assert "bytes " + Str(r.first) + "-" + Str(r.last) + "/" == "bytes 0-2097151/";
  }

  lemma SecondRangeText()
    ensures ContentRange(ByteRange(2097152, 4194303, 5242880)) == "bytes 2097152-4194303/5242880"
  {
    Numeral2097152();
    Numeral4194303();
    Numeral5242880();
    var r := ByteRange(2097152, 4194303, 5242880);
    assert "bytes " + Str(r.first) + "-" == "bytes 2097152-";
    assert "bytes " + Str(r.first) + "-" + Str(r.last) + "/" == "bytes 2097152-4194303/";
  }

  lemma ThirdRangeText()
    ensures ContentRange(ByteRange(4194304, 5242879, 5242880)) == "bytes 4194304-5242879/5242880"
  {
    Numeral4194304();
    Numeral5242879();
    Numeral5242880();
    var r := ByteRange(4194304, 5242879, 5242880);
    assert "bytes " + Str(r.first) + "-" == "bytes 4194304-";
    assert "bytes " + Str(r.first) + "-" + Str(r.last) + "/" == "bytes 4194304-5242879/";
  }

  /** The `Content-Range` text of the three PUTs of a 5 MiB file, as a
      receiver sees it. */
  lemma FiveMiBHeaderText(url: string, data: seq<bv8>)
    requires |data| == 5 * MiB
    ensures |Puts(url, data, BufferSize)| == 3
    ensures ContentRange(Puts(url, data, BufferSize)[0].headers.contentRange) == "bytes 0-2097151/5242880"
    ensures ContentRange(Puts(url, data, BufferSize)[1].headers.contentRange) == "bytes 2097152-4194303/5242880"
    ensures ContentRange(Puts(url, data, BufferSize)[2].headers.contentRange) == "bytes 4194304-5242879/5242880"
  {
    FiveMiBFile(url, data);
    FirstRangeText();
    SecondRangeText();
    ThirdRangeText();
  }
}
