/** What `BigFile._read_bytes` yields for a file, as a function of the file's
    bytes and the buffer size, and the shape of that sequence of chunks. */
module Chunking {
  import opened Builtins

  /** One mebibyte, the unit the size thresholds are written in. */
  const MiB: nat := 1024 * 1024
  /** `BigFile.buffer_size`: the number of bytes every read asks for. */
  const BufferSize: nat := 2 * MiB

  /** The chunks a read loop yields when every read asks for `size` bytes and
      the loop stops after the first read that returns fewer. A file whose
      length is a multiple of `size` (the empty file included) therefore ends
      with an empty chunk: the read that found nothing left. */
  function Chunks(data: seq<bv8>, size: nat): seq<seq<bv8>>
    requires size > 0
    decreases |data|
  {
    if |data| < size then [data] else [data[..size]] + Chunks(data[size..], size)
  }

  /** The concatenation of a list of byte strings. */
  function Concat(parts: seq<seq<bv8>>): seq<bv8>
  {
    if parts == [] then [] else parts[0] + Concat(parts[1..])
  }

  /** No chunk is longer than the buffer, and every chunk but the last is a
      full buffer. */
  lemma {:induction false} ChunksShape(data: seq<bv8>, size: nat)
    requires size > 0
    ensures forall i :: 0 <= i < |Chunks(data, size)| ==> |Chunks(data, size)[i]| <= size
    ensures forall i :: 0 <= i < |Chunks(data, size)| - 1 ==> |Chunks(data, size)[i]| == size
  {
    if |data| >= size {
      ChunksShape(data[size..], size);
    }
  }

  /** The chunks, put back together, are the file. */
  lemma {:induction false} ChunksConcat(data: seq<bv8>, size: nat)
    requires size > 0
    ensures Concat(Chunks(data, size)) == data
  {
    if |data| >= size {
      ChunksConcat(data[size..], size);
      assert data[..size] + data[size..] == data;
    }
  }

  /** There is always one chunk more than there are full buffers in the file,
      and the last chunk holds what is left over; so it is empty exactly when
      the length is a multiple of the buffer size, 0 included. */
  lemma {:induction false} ChunksCount(data: seq<bv8>, size: nat)
    requires size > 0
    ensures |Chunks(data, size)| == |data| / size + 1
    ensures |Chunks(data, size)[|Chunks(data, size)| - 1]| == |data| % size
  {
    if |data| >= size {
      ChunksCount(data[size..], size);
      DivPlusDivisor(|data| - size, size);
    }
  }

  /** The empty trailing chunk: it appears exactly for lengths that are
      multiples of the buffer size. */
  lemma LastChunkEmpty(data: seq<bv8>, size: nat)
    requires size > 0
    ensures Chunks(data, size)[|Chunks(data, size)| - 1] == [] <==> |data| % size == 0
  {
    ChunksCount(data, size);
  }

  /** Chunk `i` is the slice of the file from `i * size`, a full buffer long or
      cut short by the end of the file. */
  lemma {:induction false} ChunkAt(data: seq<bv8>, size: nat, i: nat)
    requires size > 0 && i < |Chunks(data, size)|
    ensures i * size <= |data|
    ensures Chunks(data, size)[i] == data[i * size..Min(i * size + size, |data|)]
  {
    if i > 0 {
      var rest := data[size..];
      assert Chunks(data, size)[i] == Chunks(rest, size)[i - 1];
      ChunkAt(rest, size, i - 1);
      var j := (i - 1) * size;
      assert j + size == i * size;
      assert rest[j..Min(j + size, |rest|)] == data[i * size..Min(i * size + size, |data|)];
    }
  }

  lemma {:induction false} ConcatAppend(parts: seq<seq<bv8>>, last: seq<bv8>)
    ensures Concat(parts + [last]) == Concat(parts) + last
  {
    if parts != [] {
      assert (parts + [last])[1..] == parts[1..] + [last];
      ConcatAppend(parts[1..], last);
    }
  }

  /** Dropping a trailing empty part does not change the concatenation. */
  lemma DropEmptyLast(parts: seq<seq<bv8>>)
    requires parts != [] && parts[|parts| - 1] == []
    ensures Concat(parts[..|parts| - 1]) == Concat(parts)
  {
    ConcatAppend(parts[..|parts| - 1], []);
    assert parts[..|parts| - 1] + [[]] == parts;
  }
}
