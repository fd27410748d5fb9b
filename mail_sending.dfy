/** The attachment side of the mail client: `BigFile`, which reads a file in
    buffer-sized chunks and holds the upload session's URL, and `Mailer`,
    which creates the draft, routes each attachment by size, creates upload
    sessions, drives the chunked upload and sends the draft.

    Every remote call is given the status code the mail service answers
    with (and the identifier or URL in its reply); every method that talks to
    the service returns the requests it sent. The filesystem is a map from
    file names to contents. */
module MailSending {
  import opened Builtins
  import opened Http
  import opened Chunking
  import opened UploadPlan
  import opened Routing

  /** A file opened with `open(name, 'rb')`: its bytes and the read position. */
  class ByteStream {
    const data: seq<bv8>
    var pos: nat

    predicate Valid()
      reads this
    {
      pos <= |data|
    }

    /** The bytes not read yet. */
    function Remaining(): seq<bv8>
      reads this
      requires Valid()
    {
      data[pos..]
    }

    constructor (data: seq<bv8>)
      ensures Valid() && this.data == data && Remaining() == data
    {
      this.data := data;
      pos := 0;
    }

    /** `file.read(n)`: the next `n` bytes, or all that is left if fewer. */
    method Read(n: nat) returns (binary: seq<bv8>)
      requires Valid()
      modifies this
      ensures Valid()
      ensures binary == old(Remaining())[..Min(n, |old(Remaining())|)]
      ensures Remaining() == old(Remaining())[|binary|..]
    {
      var k := Min(n, |data| - pos);
      binary := data[pos..pos + k];
      pos := pos + k;
    }
  }

  /** An attachment sent through an upload session. The size and the buffer
      size are fixed when it is made; `uploadUrl` is set once a session is
      created. `content` is what the file holds on disk, read again by
      `ToBytes`. */
  class BigFile {
    const fileName: string
    const fileSize: nat
    const bufferSize: nat
    const content: seq<bv8>
    var uploadUrl: Option<string>

    predicate Valid()
    {
      fileSize == |content| && bufferSize == BufferSize
    }

    /** `BigFile(file_name)`: the size is taken from the filesystem, which
        raises for a missing file, and the buffer is 2 MiB. */
    constructor (fileName: string, fs: map<string, seq<bv8>>)
      requires fileName in fs
      ensures Valid()
      ensures this.fileName == fileName && content == fs[fileName] && fileSize == |fs[fileName]|
      ensures uploadUrl == None
    {
      this.fileName := fileName;
      content := fs[fileName];
      fileSize := |fs[fileName]|;
      bufferSize := BufferSize;
      uploadUrl := None;
    }

    /** `_read_bytes(file)`: reads `bufferSize` bytes at a time and yields
        each read, stopping after the first read that came back short. The
        generator is modelled by the list of everything it yields. */
    method ReadBytes(file: ByteStream) returns (yielded: seq<seq<bv8>>)
      requires Valid() && file.Valid()
      modifies file
      ensures file.Valid() && file.Remaining() == []
      ensures yielded == Chunks(old(file.Remaining()), bufferSize)
    {
      yielded := [];
      while true
        invariant file.Valid()
        invariant yielded + Chunks(file.Remaining(), bufferSize) == Chunks(old(file.Remaining()), bufferSize)
        decreases |file.Remaining()|
      {
        ghost var rest := file.Remaining();
        var binary := file.Read(bufferSize);
        if bufferSize > |binary| {
          assert binary == rest && Chunks(rest, bufferSize) == [binary];
          yielded := yielded + [binary];
          break;
        }
        assert Chunks(rest, bufferSize) == [binary] + Chunks(file.Remaining(), bufferSize);
        yielded := yielded + [binary];
      }
    }

    /** `to_bytes()`: opens the file and collects every chunk `_read_bytes`
        yields into a list. */
    method ToBytes() returns (streamedBytes: seq<seq<bv8>>)
      requires Valid()
      ensures streamedBytes == Chunks(content, bufferSize)
    {
      streamedBytes := [];
      var f := new ByteStream(content);
      var chunks := ReadBytes(f);
      for k := 0 to |chunks|
        invariant streamedBytes == chunks[..k]
      {
        streamedBytes := streamedBytes + [chunks[k]];
      }
    }
  }

  /** What the mail service answers to the attachment calls: the status of an
      inline attachment post, the status and upload URL of a session
      creation, and the status of the `i`-th chunk PUT of the session. */
  datatype Replies = Replies(attachmentStatus: int, sessionStatus: int, sessionUrl: string, putStatus: nat -> int)

  /** How a call that can raise ends: it returns a boolean, or an exception
      propagates out of it. */
  datatype Outcome = Returned(success: bool) | Raised

  class Mailer {
    const senderEmail: string
    const receiverEmail: string
    const authToken: Option<string>
    const headers: map<string, string>
    var mailId: Option<string>

    /** `Mailer(receiver_email)`: the sender comes from the environment and
        the token from the authentication provider, both given here; the
        authorization headers are set only when there is a token. */
    constructor (receiverEmail: string, senderEmail: string, authToken: Option<string>)
      ensures this.receiverEmail == receiverEmail && this.senderEmail == senderEmail
      ensures this.authToken == authToken && mailId == None
      ensures headers == if authToken.Some?
                         then map["Authorization" := "Bearer " + authToken.value, "Content-type" := "application/json"]
                         else map[]
    {
      this.receiverEmail := receiverEmail;
      this.senderEmail := senderEmail;
      this.authToken := authToken;
      mailId := None;
      headers := if authToken.Some?
                 then map["Authorization" := "Bearer " + authToken.value, "Content-type" := "application/json"]
                 else map[];
    }

    /** `new_message`: posts the draft; the draft's identifier is kept only
        when the service answers 201. */
    method NewMessage(mailSubject: string, mailBody: string, status: int, id: string) returns (ok: bool, sent: Request)
      modifies this`mailId
      ensures sent == PostDraft(senderEmail, receiverEmail, mailSubject, mailBody)
      ensures ok <==> status == Created
      ensures mailId == if ok then Some(id) else old(mailId)
    {
      sent := PostDraft(senderEmail, receiverEmail, mailSubject, mailBody);
      if status == Created {
        mailId := Some(id);
        ok := true;
      } else {
        ok := false;
      }
    }

    /** `send_mail`: asks the service to send the draft; 202 is success. */
    method SendMail(status: int) returns (ok: bool, sent: Request)
      ensures sent == PostSend(senderEmail, mailId)
      ensures ok <==> status == Accepted
    {
      sent := PostSend(senderEmail, mailId);
      ok := status == Accepted;
    }

    /** `add_attachment`: a missing file and a file over 36 MiB are refused
        without a request; a file under 3 MiB is posted inline; anything from
        3 MiB to 36 MiB goes through an upload session, and raises when the
        session was not created (the upload then has no URL to PUT to). */
    method AddAttachment(fileName: string, fs: map<string, seq<bv8>>, replies: Replies)
      returns (outcome: Outcome, sent: seq<Request>)
      ensures fileName !in fs ==> outcome == Returned(false) && sent == []
      ensures fileName in fs && Classify(|fs[fileName]|) == TooBig ==> outcome == Returned(false) && sent == []
      ensures fileName in fs && Classify(|fs[fileName]|) == Inline ==>
        sent == [PostAttachment(senderEmail, mailId, fileName, fs[fileName])]
        && outcome == Returned(replies.attachmentStatus == Created)
      ensures fileName in fs && Classify(|fs[fileName]|) == Chunked && replies.sessionStatus == Created ==>
        sent == [PostSession(senderEmail, mailId, fileName, |fs[fileName]|)]
                + Puts(replies.sessionUrl, fs[fileName], BufferSize)
        && outcome == Returned(replies.putStatus(CeilDiv(|fs[fileName]|, BufferSize) - 1) == Created)
      ensures fileName in fs && Classify(|fs[fileName]|) == Chunked && replies.sessionStatus != Created ==>
        sent == [PostSession(senderEmail, mailId, fileName, |fs[fileName]|)] && outcome == Raised
    {
      if fileName !in fs {
        return Returned(false), [];
      }
      var fileSize := |fs[fileName]|;
      var route := Classify(fileSize);
      if route == Inline {
        var ok, req := UploadSmallAttachment(fileName, fs, replies.attachmentStatus);
        outcome, sent := Returned(ok), [req];
      } else if route == Chunked {
        ChunkedPutCount(fileSize);
        outcome, sent := UploadBigAttachment(fileName, fs, replies);
        PutCount(replies.sessionUrl, fs[fileName], BufferSize);
      } else {
        outcome, sent := Returned(false), [];
      }
    }

    /** `upload_small_attachment`: posts the whole file in one request; 201
        is success. */
    method UploadSmallAttachment(fileName: string, fs: map<string, seq<bv8>>, status: int)
      returns (ok: bool, sent: Request)
      requires fileName in fs
      ensures sent == PostAttachment(senderEmail, mailId, fileName, fs[fileName])
      ensures ok <==> status == Created
    {
      sent := PostAttachment(senderEmail, mailId, fileName, fs[fileName]);
      ok := status == Created;
    }

    /** `upload_big_attachment`: asks for an upload session, then runs the
        chunked upload whatever the session's outcome, and succeeds only if
        both did. Without a session the upload raises at its first PUT, and
        so does this call; an empty file raises too, as the upload then reads
        a response it never received. */
    method UploadBigAttachment(fileName: string, fs: map<string, seq<bv8>>, replies: Replies)
      returns (outcome: Outcome, sent: seq<Request>)
      requires fileName in fs
      ensures sent == [PostSession(senderEmail, mailId, fileName, |fs[fileName]|)]
                      + (if replies.sessionStatus == Created
                         then Puts(replies.sessionUrl, fs[fileName], BufferSize) else [])
      ensures outcome == if replies.sessionStatus != Created || |fs[fileName]| == 0 then Raised
                         else Returned(replies.putStatus(|sent| - 2) == Created)
    {
      var attachment := new BigFile(fileName, fs);
      var isSessionCreated, sessionRequest := CreateUploadSession(attachment, replies.sessionStatus, replies.sessionUrl);
      var uploaded, puts := StartUploadByteByByte(attachment, replies.putStatus);
      sent := [sessionRequest] + puts;
      if uploaded.Raised? {
        return Raised, sent;
      }
      PutsNonEmpty(replies.sessionUrl, fs[fileName], BufferSize);
      outcome := Returned(isSessionCreated && uploaded.success);
    }

    /** `_create_upload_session`: posts the attachment's name and size; on 201
        the upload URL from the reply is stored on the attachment. */
    method CreateUploadSession(attachment: BigFile, status: int, url: string) returns (ok: bool, sent: Request)
      modifies attachment`uploadUrl
      ensures sent == PostSession(senderEmail, mailId, attachment.fileName, attachment.fileSize)
      ensures ok <==> status == Created
      ensures attachment.uploadUrl == if ok then Some(url) else old(attachment.uploadUrl)
    {
      sent := PostSession(senderEmail, mailId, attachment.fileName, attachment.fileSize);
      if status == Created {
        attachment.uploadUrl := Some(url);
        return true, sent;
      }
      return false, sent;
    }

    /** `_start_upload_byte_by_byte`: reads the chunks, pairs them with the
        offsets `range(0, file_size, buffer_size)` and PUTs each pair to the
        upload URL in order. Only the last response decides the outcome; the
        statuses of the earlier PUTs are not looked at. A PUT to no URL
        raises before anything is sent, and with no PUT at all the final
        status test reads an unbound `response`, which raises as well. */
    static method StartUploadByteByByte(attachment: BigFile, putStatus: nat -> int) returns (outcome: Outcome, sent: seq<Request>)
      requires attachment.Valid()
      ensures sent == if attachment.uploadUrl.None? then []
                      else Puts(attachment.uploadUrl.value, attachment.content, attachment.bufferSize)
      ensures attachment.uploadUrl.Some? ==> |sent| == CeilDiv(attachment.fileSize, attachment.bufferSize)
      ensures outcome == if sent == [] then Raised else Returned(putStatus(|sent| - 1) == Created)
    {
      var uploadUrl := attachment.uploadUrl;
      var fileSize := attachment.fileSize;
      var bufferSize := attachment.bufferSize;
      var streamedBytes := attachment.ToBytes();

      var pairs := Zip(streamedBytes, Range(0, fileSize, bufferSize));
      assert pairs == Pairs(attachment.content, bufferSize);
      if uploadUrl.None? {
        // The first `requests.put` to no URL raises; with no chunk at all,
        // the unbound `response` raises instead. Either way nothing is sent.
        return Raised, [];
      }
      var url := uploadUrl.value;
      ghost var planned := Puts(url, attachment.content, bufferSize);
      var response: Option<int> := None;
      sent := [];
      for k := 0 to |pairs|
        invariant sent == planned[..k]
        invariant response == if k == 0 then None else Some(putStatus(k - 1))
      {
        var (chunk, idx) := pairs[k];
        var request := ChunkPut(url, chunk, idx, fileSize);
        assert request == planned[k];
        assert planned[..k + 1] == planned[..k] + [request];
        sent := sent + [request];
        response := Some(putStatus(k));
      }
      assert sent == planned;
      PutCount(url, attachment.content, bufferSize);
      if response.None? {
        return Raised, sent;
      }
      outcome := Returned(response.value == Created);
    }
  }
}
