/** The HTTP vocabulary of the mail client: the status codes it compares
    against, the `Content-Range` field of section 14.4 of RFC 9110 (written
    and read back), and the requests it sends to the mail service. */
module Http {
  import opened Builtins

  /** 201 Created: a draft, an attachment or an upload session was created,
      or the final chunk of an upload session was accepted. */
  const Created := 201
  /** 202 Accepted: a draft was queued for sending. */
  const Accepted := 202

  /** The three numbers of a `Content-Range: bytes first-last/complete`
      field: inclusive first and last byte positions and the complete length. */
  datatype ByteRange = ByteRange(first: int, last: int, complete: int)

  /** Section 14.4 of RFC 9110: a range-resp is valid only when 0 <= first-pos
      <= last-pos < complete-length. */
  predicate Satisfiable(r: ByteRange)
  {
    0 <= r.first <= r.last < r.complete
  }

  /** The number of bytes a range covers, which `Content-Length` must state. */
  function RangeLength(r: ByteRange): int
  {
    r.last - r.first + 1
  }

  /** The field value the client writes: `f'bytes {start}-{end}/{total}'`. */
  function ContentRange(r: ByteRange): string
  {
    "bytes " + Str(r.first) + "-" + Str(r.last) + "/" + Str(r.complete)
  }

  /** The first position of `c` in `s`, if any. */
  function IndexOf(s: string, c: char): (r: Option<nat>)
    ensures r.Some? ==> r.value < |s| && s[r.value] == c
    ensures r.Some? ==> forall k :: 0 <= k < r.value ==> s[k] != c
    ensures r.None? ==> forall k :: 0 <= k < |s| ==> s[k] != c
  {
    if s == [] then None
    else if s[0] == c then Some(0)
    else match IndexOf(s[1..], c)
      case None => None
      case Some(i) => Some(i + 1)
  }

  /** How a receiver reads a `Content-Range` field value of the form
      `bytes first-last/complete` with three non-empty digit strings;
      anything else is rejected. */
  function ParseContentRange(h: string): Option<ByteRange>
  {
    if |h| < 6 || h[..6] != "bytes " then None
    else
      var spec := h[6..];
      match IndexOf(spec, '-')
      case None => None
      case Some(i) =>
        var first, afterDash := spec[..i], spec[i + 1..];
        match IndexOf(afterDash, '/')
        case None => None
        case Some(j) =>
          var last, complete := afterDash[..j], afterDash[j + 1..];
          if first != [] && last != [] && complete != []
             && AllDigits(first) && AllDigits(last) && AllDigits(complete)
          then Some(ByteRange(ParseDecimal(first), ParseDecimal(last), ParseDecimal(complete)))
          else None
  }

  /** In a string that starts with digits and then `c`, a non-digit, the first
      `c` is the one right after the digits. */
  lemma IndexAfterDigits(digits: string, c: char, rest: string)
    requires AllDigits(digits) && !IsDigit(c)
    ensures IndexOf(digits + [c] + rest, c) == Some(|digits|)
  {
    var s := digits + [c] + rest;
    assert s[|digits|] == c;
    assert forall k :: 0 <= k < |digits| ==> s[k] == digits[k];
  }

  /** Every field value the client writes for a range with non-negative
      numbers reads back as exactly that range. */
  lemma ContentRangeRoundTrip(r: ByteRange)
    requires r.first >= 0 && r.last >= 0 && r.complete >= 0
    ensures ParseContentRange(ContentRange(r)) == Some(r)
  {
    var a, b, c := Str(r.first), Str(r.last), Str(r.complete);
    StrNonNegative(r.first);
    StrNonNegative(r.last);
    StrNonNegative(r.complete);
    var h := ContentRange(r);
    assert h[..6] == "bytes ";
    var spec := h[6..];
    assert spec == a + ['-'] + (b + "/" + c);
    IndexAfterDigits(a, '-', b + "/" + c);
    assert spec[..|a|] == a;
    var afterDash := spec[|a| + 1..];
    assert afterDash == b + ['/'] + c;
    IndexAfterDigits(b, '/', c);
    assert afterDash[..|b|] == b;
    assert afterDash[|b| + 1..] == c;
  }

  /** The header fields of one chunk PUT, holding the numbers the client
      writes into them. */
  datatype ChunkHeaders = ChunkHeaders(contentType: string, contentLength: int, contentRange: ByteRange)

  /** The header fields as they go on the wire. */
  function HeaderFields(h: ChunkHeaders): map<string, string>
  {
    map["Content-Type" := h.contentType,
        "Content-Length" := Str(h.contentLength),
        "Content-Range" := ContentRange(h.contentRange)]
  }

  /** The requests the client sends to the mail service, with the parts of
      their URL and body that identify what they do. `mailId` is the draft's
      identifier as the client knows it at the time (`None` before a draft
      was created). */
  datatype Request =
    | PostDraft(sender: string, receiver: string, subject: string, body: string)
    | PostSend(sender: string, mailId: Option<string>)
    | PostAttachment(sender: string, mailId: Option<string>, name: string, content: seq<bv8>)
    | PostSession(sender: string, mailId: Option<string>, name: string, size: nat)
    | Put(url: string, headers: ChunkHeaders, payload: seq<bv8>)

  /** The bytes a request carries as a raw body (only chunk PUTs do). */
  function RawBody(req: Request): seq<bv8>
  {
    if req.Put? then req.payload else []
  }

  /** All the raw bytes a sequence of requests puts on the wire, in order. */
  function RawBodies(reqs: seq<Request>): seq<bv8>
  {
    if reqs == [] then [] else RawBody(reqs[0]) + RawBodies(reqs[1..])
  }
}
