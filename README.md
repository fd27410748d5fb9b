# Outlook mail sending: chunked attachment upload

A Dafny model of `mail_sending.py`, a small client for the Microsoft Graph mail
API. The client creates a draft, adds attachments and sends the draft. An
attachment is handled by size:

- under 3 MiB it is posted inline;
- from 3 MiB to 36 MiB, both ends included, it is sent through an upload
  session: the file is read in 2 MiB chunks, and each chunk is PUT to the
  session URL with a `Content-Length` and a `Content-Range` header;
- anything larger is refused.

Modules:

- `Builtins`: the Python built-ins the upload code relies on, written out with
  Python's semantics. `zip` cuts to the shorter list, `range` has a positive
  step and `str` prints an integer in decimal. A decimal parser inverts `str`.
- `Http`: the status codes 201 and 202, and the `Content-Range` field of
  section 14.4 of RFC 9110, written and parsed back. Also the header fields of
  a chunk PUT and the requests the client sends.
- `Chunking`: `Chunks`, the sequence `_read_bytes` yields. The loop stops at
  the first short read, so a file whose length is a multiple of the buffer
  (0 included) ends with an empty chunk.
- `UploadPlan`: `Puts`, the PUTs the upload loop sends. The chunks are zipped
  with `range(0, file_size, buffer_size)`, and this `zip` drops the empty
  trailing chunk. `RangeOf` is a reference definition of each byte range from
  the sizes alone. The lemmas prove the count, the ranges and the headers
  against it.
- `Routing`: the size classification of `add_attachment`.
- `MailSending`: the classes.
  - `ByteStream` is the opened file.
  - `BigFile` holds the read loop and the upload URL that is set in place.
  - `Mailer` holds the draft identifier that is set in place, and the methods
    that talk to the service.

Every remote call is given the status code the service answers with, plus the
identifier or URL in its reply. The PUT replies are a function from the PUT's
position to its status. Each method that talks to the service returns the
requests it sent. A call that can raise returns an `Outcome`: either the
boolean it returns or `Raised`. Raising covers two cases:

- a PUT to an upload URL that was never set (the session was not created);
- a final status test with no PUT response at all (an empty file).

In both cases no PUT is sent. The filesystem is a map from file names to
contents. The sender address and the access token are constructor
parameters.

## Model

| member | source | states |
|---|---|---|
| `Builtins.Zip` | mail_sending.py:202 | `zip` pairs elements at equal positions and is as long as the shorter input |
| `Builtins.Range` | mail_sending.py:202 | `range(start, stop, step)` has ceil((stop - start) / step) elements (none when start >= stop), and the i-th is start + i * step |
| `Builtins.Decimal` | mail_sending.py:208-209 | the decimal digits `str` writes for a natural number, most significant first; defined by its last digit and the digits of n / 10 |
| `Builtins.Str` | mail_sending.py:208-209 | `str` of an integer, and the f-string field of one: a minus sign before the digits of a negative number |
| `Builtins.DecimalAppend` | mail_sending.py:208-209 | appending a digit to a positive number appends its character to the decimal text |
| `Builtins.DecimalRoundTrip` | mail_sending.py:208 | the decimal text of a natural number is all digits and parses back to that number |
| `Builtins.StrNonNegative` | mail_sending.py:208-209 | `str` of a non-negative integer is a non-empty digit string that reads back as the integer |
| `Http.ContentRange` | mail_sending.py:209 | the `Content-Range` value `bytes start-end/total`, written from the three numbers |
| `Http.HeaderFields` | mail_sending.py:206-210 | the three header fields of a chunk PUT as text: `Content-Type`, `Content-Length` written as `str` of the length, `Content-Range` as `ContentRange` of the range |
| `Http.ContentRangeRoundTrip` | mail_sending.py:209 | the `bytes start-end/total` value written for non-negative numbers parses back to exactly those three numbers |
| `Chunking.Chunks` | mail_sending.py:28-34 | what the read loop yields: a full buffer while one is left, then the shorter rest (possibly empty) and stop |
| `Chunking.ChunksShape` | mail_sending.py:28-34 | no chunk is longer than the buffer, and every chunk except the last is exactly one buffer long |
| `Chunking.ChunksConcat` | mail_sending.py:28-34 | the chunks concatenated are the file's bytes |
| `Chunking.ChunksCount` | mail_sending.py:29-33 | there are length / buffer + 1 chunks, and the last one holds length mod buffer bytes |
| `Chunking.LastChunkEmpty` | mail_sending.py:29-33 | the last chunk is empty exactly when the length is a multiple of the buffer size, 0 included |
| `Chunking.ChunkAt` | mail_sending.py:28-34 | chunk i is the slice of the file from i * buffer, one buffer long or cut short by the end of the file |
| `UploadPlan.ChunkPut` | mail_sending.py:203-212 | the PUT for one chunk found at offset idx: start idx, end idx + len(chunk) - 1, total the file size, the chunk's length, octet stream, the chunk as body |
| `UploadPlan.Pairs` | mail_sending.py:202 | the (chunk, offset) pairs the loop walks: `zip` of the chunks with `range(0, file_size, buffer_size)` |
| `UploadPlan.Puts` | mail_sending.py:202-212 | every PUT the loop sends to the upload URL, one `ChunkPut` per pair, in order |
| `UploadPlan.PutCount` | mail_sending.py:202 | the loop sends ceil(file_size / buffer_size) PUTs. That is one fewer than the number of chunks exactly when the size is a multiple of the buffer, and the chunk left out is then empty |
| `UploadPlan.PutsNonEmpty` | mail_sending.py:202 | a non-empty file is sent in at least one PUT |
| `UploadPlan.RangeStartsInFile` | mail_sending.py:202-204 | every PUT's range starts inside the file and is satisfiable over the file size. Only the last range reaches the end of the file |
| `UploadPlan.PutAt` | mail_sending.py:202-212 | PUT i goes to the session URL, carries the file bytes of `RangeOf(i)`, has that range as its `Content-Range` and the range's length as its `Content-Length` |
| `UploadPlan.PutHeaders` | mail_sending.py:203-210 | PUT i's header fields are an octet stream, length end - start + 1, and range `RangeOf(i)` |
| `UploadPlan.RangesContiguous` | mail_sending.py:202-204 | each range starts one byte past the end of the previous one, and every range before the last is a full buffer |
| `UploadPlan.RangesCoverFile` | mail_sending.py:202-204 | the first range starts at byte 0 and the last one ends at byte file_size - 1 |
| `UploadPlan.HeadersReadBack` | mail_sending.py:204-210 | a receiver reads from PUT i's header text the type octet stream, the range `RangeOf(i)`, and a `Content-Length` equal both to the payload length and to end - start + 1 |
| `UploadPlan.PutsCarryFile` | mail_sending.py:202-212 | the PUT payloads in order are exactly the file's bytes |
| `UploadPlan.FiveMiBFile` | mail_sending.py:202-209 | a 5 MiB file goes up in three PUTs with ranges 0-2097151, 2097152-4194303 and 4194304-5242879, each over 5242880. The last PUT carries 1 MiB |
| `UploadPlan.FiveMiBHeaderText` | mail_sending.py:209 | the three `Content-Range` values of a 5 MiB file are the texts `bytes 0-2097151/5242880`, `bytes 2097152-4194303/5242880` and `bytes 4194304-5242879/5242880` |
| `Routing.Classify` | mail_sending.py:110-118 | inline when size / 2^20 < 3, chunked when 3 <= size / 2^20 <= 36, refused when size / 2^20 > 36, with the division taken on exact reals |
| `Routing.ClassifyBoundaries` | mail_sending.py:112-116 | 3 MiB - 1 is inline; exactly 3 MiB and exactly 36 MiB are chunked; 36 MiB + 1 is refused |
| `Routing.ChunkedPutCount` | mail_sending.py:114-115 | a file sent through a session is never empty, and it goes up in 2 to 18 PUTs of 2 MiB |
| `MailSending.ByteStream.constructor` | mail_sending.py:23 | a newly opened file has every byte still to read |
| `MailSending.ByteStream.Read` | mail_sending.py:30 | `read(n)` returns the next n bytes, or every byte left if fewer, and advances past them |
| `MailSending.BigFile.constructor` | mail_sending.py:15-19 | the attachment records the name, the size on disk and a 2 MiB buffer, and has no upload URL yet |
| `MailSending.BigFile.ReadBytes` | mail_sending.py:28-34 | the read loop yields exactly `Chunks` of what was left in the file, and leaves the file fully read |
| `MailSending.BigFile.ToBytes` | mail_sending.py:21-26 | the list of chunks is `Chunks` of the file's contents |
| `MailSending.Mailer.constructor` | mail_sending.py:42-53 | no draft yet; the bearer and JSON headers are set only when there is a token, and there are no headers otherwise |
| `MailSending.Mailer.NewMessage` | mail_sending.py:55-87 | posts the draft from sender to receiver. It succeeds exactly on 201, and only then stores the returned draft identifier |
| `MailSending.Mailer.SendMail` | mail_sending.py:89-103 | posts a send for the current draft and succeeds exactly on 202 |
| `MailSending.Mailer.AddAttachment` | mail_sending.py:105-118 | a missing file and a file over 36 MiB return false with no request. A file under 3 MiB is one inline post and returns true exactly on 201. Otherwise a session request goes out. If the session got 201, all of `Puts` for the session URL follow, and the result is true exactly when the last PUT got 201. If it did not, nothing follows and the call raises |
| `MailSending.Mailer.UploadSmallAttachment` | mail_sending.py:120-143 | posts the whole file under its name to the current draft and succeeds exactly on 201 |
| `MailSending.Mailer.UploadBigAttachment` | mail_sending.py:145-165 | sends the session request and then, when the session got 201, every PUT of `Puts`. It raises when the session failed or the file is empty, and otherwise returns true exactly when the last PUT got 201 |
| `MailSending.Mailer.CreateUploadSession` | mail_sending.py:167-185 | posts the attachment's name and size. It succeeds exactly on 201, and only then stores the upload URL on the attachment |
| `MailSending.Mailer.StartUploadByteByByte` | mail_sending.py:195-215 | with no upload URL it sends nothing and raises. Otherwise it sends exactly `Puts` of the file, ceil(size / buffer) requests. With none sent it raises; otherwise it returns true exactly when the last PUT got 201, whatever the earlier ones got |

## Left out

- HTTP and JSON: `requests.post` and `requests.put` are replaced by the status code (and identifier or upload URL) the service answers with. URLs are left out; the request records the sender, the draft identifier and the fields that identify the call. The JSON bodies are reduced to those fields too. The `Authorization` and `Content-type` headers that every POST carries (mail_sending.py:78, 96, 136, 179) are not part of `Request`. `Mailer.headers` is set by the constructor but no contract reads it.
- Base64 in `upload_small_attachment` (mail_sending.py:127): the inline request carries the raw bytes, not their base64 text.
- Filesystem and environment: `os.path.exists`, `os.path.getsize`, `open` and `os.environ['SENDER_EMAIL']` become a map from names to contents and a constructor parameter. The file is assumed not to change between the size check and the read.
- Float division in `add_attachment` (mail_sending.py:110): the model compares whole bytes with 3 MiB and 36 MiB. That is exact, because sizes below 2^53 bytes divide by 2^20 without rounding.
- `Mailer._load_auth_token` (mail_sending.py:187-193): it refers to an undefined `TOKEN` and is not valid Python as indented, so the token is a constructor parameter.
- The exception a PUT to no URL or an unbound `response` raises is modelled as `Raised`, without its type or message.
- The generators: `_read_bytes` is modelled by the full list of what it yields, which is how `to_bytes` consumes it.
- `app_logger.py` and every logging call: output only, with no effect on results.
- Timeouts, exceptions raised by the network, and concurrency: the client is sequential, and none of its methods catches an exception.
