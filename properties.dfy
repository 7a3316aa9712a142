/**
 * What the protocol promises, stated over the engine's functions: the sidecar
 * records read back as the offsets they stored, a DATA message appends its
 * chunk, a request is accepted, resumed or rejected as the design says, the
 * sender's loop emits the whole rest of the file followed by COMPLETE and the
 * digest, and a receiver fed that stream ends up with the file.
 */
module Properties {
  import opened Wrappers
  import opened Bytes
  import Json
  import opened Frame
  import opened Engine

  // ---------------------------------------------------------------------------
  // The `.progress` and `.resume` sidecars

  /** `_load_progress` after `_save_progress` reads back the transferred size; after `_clean_progress` it reads 0. */
  lemma ProgressLifecycle(s: State)
    ensures LoadProgress(SaveProgress(s)) == Json.Int(s.session.transferred)
    ensures LoadProgress(CleanProgress(SaveProgress(s))) == Json.Int(0)
  {
    var doc := ProgressRecord(s.session.fileSize, s.session.transferred);
    assert Json.Encode(doc) + [] == Json.Encode(doc);
    Json.RoundTrip(doc, []);
  }

  /** Reading back a `.resume` record gives the record, and its offset is the transferred size it holds. */
  lemma ResumeRecordReads(p: string, size: int, t: int)
    ensures Json.Decode(Json.Encode(ResumeRecord(p, size, t))) == Some(ResumeRecord(p, size, t))
    ensures OffsetOf(ResumeRecord(p, size, t)) == Some(t)
  {
    var doc := ResumeRecord(p, size, t);
    assert Json.Encode(doc) + [] == Json.Encode(doc);
    Json.RoundTrip(doc, []);
  }

  /**
   * `pause_transfer` succeeds exactly on a live transfer; it sets the pause
   * flag, keeps the socket and the rest of the transfer, and leaves a
   * `.resume` record holding the offset reached.
   */
  lemma PauseRecordsOffset(env: Env, s: State)
    ensures PauseStep(env, s).0 <==> s.session.active
    ensures !s.session.active ==> PauseStep(env, s).1 == s
    ensures s.session.active ==>
      var r := PauseStep(env, s).1;
      r.session == s.session.(paused := true) && r.socket == s.socket && r.connected == s.connected &&
      r.events == (if env.hasCallback then s.events + [OnPaused] else s.events)
    ensures s.session.active && s.session.path.Some? && s.session.path.value != "" ==>
      var p := s.session.path.value;
      var r := PauseStep(env, s).1;
      ResumePath(p) in r.files &&
      Json.Decode(r.files[ResumePath(p)]) == Some(ResumeRecord(p, s.session.fileSize, s.session.transferred))
  {
    if s.session.active && s.session.path.Some? && s.session.path.value != "" {
      ResumeRecordReads(s.session.path.value, s.session.fileSize, s.session.transferred);
    }
  }

  /** After a pause, `resume_transfer` clears the flag again and restarts the sender only on the sending side. */
  lemma PauseThenResume(env: Env, s: State)
    requires s.session.active && !s.session.paused
    ensures var (ok, restart, r) := ResumeTransferStep(env, PauseStep(env, s).1);
      ok && r.session.active && !r.session.paused &&
      (restart <==> s.session.file.Some? && s.session.file.value.Reader?) &&
      r.session == s.session && r.socket == s.socket
  {
  }

  /**
   * A `.resume` record left for `p` makes the receiver answer RESUME with the
   * offset it holds, keep what the file already has and append from there.
   * When `p` names a directory the append `open` raises, and so does the
   * `'wb'` one after the ACCEPT of the fallback: the file stays closed.
   */
  lemma SidecarResumes(s: State, p: string, name: string, size: int, q: string, qsize: int, t: int)
    requires ResumePath(p) in s.files && s.files[ResumePath(p)] == Json.Encode(ResumeRecord(q, qsize, t))
    requires Writable(s)
    ensures var (fileOpen, r) := ResumeOrRestart(s, p, name, size);
      var dir := NamesDirectory(p);
      (fileOpen <==> !dir) &&
      r.socket == s.socket.(outgoing := s.socket.outgoing + CommandFrame(Resume) + HeaderFrame(ResumeDoc(name, t)) +
                                        (if dir then CommandFrame(Accept) else [])) &&
      r.session == s.session.(resumeInfo := Some(ResumeRecord(q, qsize, t)), fileSize := size, transferred := t,
                              file := if dir then s.session.file else Some(Writer(p))) &&
      r.files == (if dir then s.files else s.files[p := FileAt(s.files, p)]) && r.connected == s.connected
  {
    ResumeRecordReads(q, qsize, t);
  }

  /**
   * A `.resume` file that does not decode is ignored: the receiver starts the
   * file afresh, as `RestartOpens` describes.
   */
  lemma UnreadableSidecarRestarts(s: State, p: string, name: string, size: int)
    requires ResumePath(p) in s.files && Json.Decode(s.files[ResumePath(p)]) == None
    ensures ResumeOrRestart(s, p, name, size) == Restart(s, p, size)
  {
  }

  /**
   * Starting afresh answers ACCEPT and opens `p` empty, for writing at the
   * announced size, unless `p` names a directory.
   */
  lemma RestartOpens(s: State, p: string, size: int)
    ensures var (fileOpen, r) := Restart(s, p, size);
      (fileOpen <==> !NamesDirectory(p)) &&
      (fileOpen ==> r.session.file == Some(Writer(p)) && r.session.fileSize == size &&
                    r.files == s.files[p := []] && r.session.transferred == 0) &&
      (!fileOpen ==> r.session == s.session && r.files == s.files) &&
      r.socket.outgoing == (if Writable(s) then s.socket.outgoing + CommandFrame(Accept) else s.socket.outgoing) &&
      r.session.path == s.session.path && r.session.active == s.session.active &&
      r.events == s.events && r.socket.incoming == s.socket.incoming
  {
  }

  // ---------------------------------------------------------------------------
  // DATA messages on the receiving side

  /** The eight bytes of a length prefix followed by a chunk and more split back apart. */
  lemma DataMessageSplits(chunk: seq<byte>, rest: seq<byte>)
    requires |chunk| <= CHUNK_SIZE
    ensures var m := LengthPrefix(|chunk|) + chunk + rest;
      Take(m, LENGTH_SIZE) == LengthPrefix(|chunk|) && Drop(m, LENGTH_SIZE) == chunk + rest
    ensures FromBigEndian(LengthPrefix(|chunk|)) == |chunk|
  {
    var m := LengthPrefix(|chunk|) + chunk + rest;
    assert m[..LENGTH_SIZE] == LengthPrefix(|chunk|);
    assert m[LENGTH_SIZE..] == chunk + rest;
    LengthPrefixReads(|chunk|);
  }

  /**
   * `_handle_data` on a live, unpaused transfer writing `p`: the chunk is
   * appended to the file, the transferred size grows by its length, the
   * `.resume` record is refreshed, exactly the message is consumed and
   * nothing is sent back.
   */
  lemma DataAppends(env: Env, s: State, p: string, chunk: seq<byte>, rest: seq<byte>)
    requires s.session.active && !s.session.paused
    requires s.session.file == Some(Writer(p)) && s.session.path == Some(p)
    requires |chunk| <= CHUNK_SIZE
    requires s.socket.incoming == LengthPrefix(|chunk|) + chunk + rest
    ensures var r := DataStep(env, s);
      var t := s.session.transferred + |chunk|;
      p in r.files && r.files[p] == FileAt(s.files, p) + chunk &&
      r.session == s.session.(transferred := t) &&
      r.socket == s.socket.(incoming := rest) && r.connected == s.connected &&
      r.events == (if env.hasCallback then s.events + [OnProgress(t)] else s.events) &&
      (p != "" ==> r.files == s.files[p := FileAt(s.files, p) + chunk][ResumePath(p) := Json.Encode(ResumeRecord(p, s.session.fileSize, t))])
  {
    DataStepStores(env, s, chunk, rest);
    StoreFacts(env, s.(socket := s.socket.(incoming := rest)), p, chunk);
  }

  /** `_handle_data` reads the length and exactly that many bytes, and hands them to `Store`. */
  lemma DataStepStores(env: Env, s: State, chunk: seq<byte>, rest: seq<byte>)
    requires s.session.active && !s.session.paused
    requires |chunk| <= CHUNK_SIZE
    requires s.socket.incoming == LengthPrefix(|chunk|) + chunk + rest
    ensures DataStep(env, s) == Store(env, s.(socket := s.socket.(incoming := rest)), chunk)
  {
    DataMessageSplits(chunk, rest);
    var data := chunk + rest;
    assert data[..|chunk|] == chunk && data[|chunk|..] == rest;
  }

  /**
   * `_handle_data` when the stream ends before the announced length: the
   * transfer stops with "连接已关闭", the partial chunk is dropped and a
   * bare ERROR is sent back when the socket can still be written.
   */
  lemma DataTruncated(env: Env, s: State, n: nat, partial: seq<byte>)
    requires s.session.active && !s.session.paused
    requires n <= CHUNK_SIZE && |partial| < n
    requires s.socket.incoming == LengthPrefix(n) + partial
    ensures var r := DataStep(env, s);
      r.session == s.session.(error := Json.Str(CLOSED_MESSAGE), active := false) &&
      r.files == s.files && r.events == s.events && r.socket.incoming == [] &&
      r.socket.outgoing == (if Writable(s) then s.socket.outgoing + CommandFrame(Error) else s.socket.outgoing) &&
      r.connected == (s.connected && Writable(s))
  {
    var m := LengthPrefix(n) + partial;
    assert m[..LENGTH_SIZE] == LengthPrefix(n);
    assert m[LENGTH_SIZE..] == partial;
    LengthPrefixReads(n);
  }

  // ---------------------------------------------------------------------------
  // Dispatch of the receive loop

  /** A command frame at the head of the stream is consumed whole and dispatched to its handler. */
  lemma Dispatch(env: Env, s: State, c: Command, rest: seq<byte>)
    requires s.socket.incoming == CommandFrame(c) + rest
    ensures var s1 := s.(socket := s.socket.(incoming := rest));
      ReceiveOne(env, s) ==
        match c
        case Request => RequestStep(env, s1)
        case Data => DataStep(env, s1)
        case Resume => ResumeStep(env, s1, NoInterrupt)
        case Complete => CompleteStep(env, s1)
        case Error => ErrorStep(env, s1)
        case _ => s1
  {
    CommandRoundTrip(c, rest);
  }

  /** The receive loop ends when the stream is exhausted, which stands for the peer closing. */
  lemma EndOfStream(env: Env, s: State)
    requires s.connected && s.socket.incoming == []
    ensures ReceiveAll(env, s) == s.(connected := false)
  {
    assert ReceiveOne(env, s) == s.(connected := false);
  }

  // ---------------------------------------------------------------------------
  // REQUEST on the receiving side

  /** A well-formed request header is read whole; its name and size are the ones the sender wrote. */
  lemma RequestReads(env: Env, s: State, name: string, size: int, hash: string, rest: seq<byte>)
    requires |Json.Encode(RequestDoc(name, size, hash))| <= HEADER_SIZE
    requires s.socket.incoming == HeaderFrame(RequestDoc(name, size, hash)) + rest
    ensures var s2 := Emit(env, s.(socket := s.socket.(incoming := rest)), OnRequest);
      RequestStep(env, s) ==
        if env.hasCallback && !env.approve then SendCommand(s2, Reject)
        else
          var (fileOpen, s3) := StartReceiving(s2, JoinPath(env.downloadDir, name), name, size);
          if fileOpen then s3 else SendCommand(s3, Error)
  {
    var doc := RequestDoc(name, size, hash);
    HeaderRoundTrip(doc, rest);
    RequestFields(name, size, hash);
    var (frame, s1) := Recv(s, HEADER_SIZE);
    assert frame == HeaderFrame(doc) && s1 == s.(socket := s.socket.(incoming := rest));
  }

  /** The receiver finds in a request header the name and size the sender put there. */
  lemma RequestFields(name: string, size: int, hash: string)
    ensures SizeOf(RequestDoc(name, size, hash)) == Some(size)
    ensures Json.Get(RequestDoc(name, size, hash), "file_name") == Some(Json.Str(name))
  {
    var doc := RequestDoc(name, size, hash);
    assert doc[..2][..1] == [doc[0]];
    assert Json.Get(doc[..2], "file_size") == Some(Json.Int(size));
    assert Json.Get(doc[..1], "file_name") == Some(Json.Str(name));
  }

  /** `_handle_request` when the callback declines: REJECT is sent and only the callback's log changes. */
  lemma RequestDeclined(env: Env, s: State, name: string, size: int, hash: string, rest: seq<byte>)
    requires |Json.Encode(RequestDoc(name, size, hash))| <= HEADER_SIZE
    requires s.socket.incoming == HeaderFrame(RequestDoc(name, size, hash)) + rest
    requires env.hasCallback && !env.approve
    ensures var r := RequestStep(env, s);
      r.session == s.session && r.files == s.files && r.events == s.events + [OnRequest] &&
      r.socket == s.socket.(incoming := rest,
                            outgoing := if Writable(s) then s.socket.outgoing + CommandFrame(Reject) else s.socket.outgoing)
  {
    RequestReads(env, s, name, size, hash, rest);
  }

  /**
   * `_handle_request` when the request is approved (or nobody is asked): the
   * file under the download directory becomes the current transfer, live and
   * unpaused; with no `.resume` record it is started empty after ACCEPT. A
   * name that makes the path a directory gets ACCEPT, then the bare ERROR of
   * the failed `open`, and no transfer starts.
   */
  lemma RequestAccepted(env: Env, s: State, name: string, size: int, hash: string, rest: seq<byte>)
    requires |Json.Encode(RequestDoc(name, size, hash))| <= HEADER_SIZE
    requires s.socket.incoming == HeaderFrame(RequestDoc(name, size, hash)) + rest
    requires !env.hasCallback || env.approve
    ensures var r := RequestStep(env, s);
      var p := JoinPath(env.downloadDir, name);
      r.session.path == Some(p) && r.socket.incoming == rest &&
      r.events == (if env.hasCallback then s.events + [OnRequest] else s.events) &&
      (!NamesDirectory(p) ==>
        r.session.active && !r.session.paused && !r.session.completed && r.session.error == Json.Null &&
        r.session.fileSize == size && r.session.file == Some(Writer(p))) &&
      (NamesDirectory(p) ==>
        r.session.active == s.session.active && r.session.file == s.session.file && r.files == s.files) &&
      (ResumePath(p) !in s.files ==>
        r.socket.outgoing == (if Writable(s) then s.socket.outgoing + CommandFrame(Accept) +
                                                  (if NamesDirectory(p) then CommandFrame(Error) else [])
                              else s.socket.outgoing) &&
        (!NamesDirectory(p) ==> r.files == s.files[p := []] && r.session.transferred == 0) &&
        (NamesDirectory(p) ==> r.session == s.session.(path := Some(p))))
  {
    RequestReads(env, s, name, size, hash, rest);
    var s2 := Emit(env, s.(socket := s.socket.(incoming := rest)), OnRequest);
    StartReceivingFacts(s2, JoinPath(env.downloadDir, name), name, size);
  }

  /**
   * The accepted branch makes `p` the live transfer, open for writing, unless
   * `p` names a directory: then the `open` raises and the transfer and the
   * files are left as they were.
   */
  lemma StartReceivingFacts(s: State, p: string, name: string, size: int)
    ensures var (fileOpen, r) := StartReceiving(s, p, name, size);
      (fileOpen <==> !NamesDirectory(p)) &&
      r.session.path == Some(p) && r.socket.incoming == s.socket.incoming && r.events == s.events &&
      (fileOpen ==>
        r.session.active && !r.session.paused && !r.session.completed && r.session.error == Json.Null &&
        r.session.fileSize == size && r.session.file == Some(Writer(p))) &&
      (!fileOpen ==> r.session.active == s.session.active && r.session.file == s.session.file && r.files == s.files) &&
      (ResumePath(p) !in s.files ==>
        r.socket.outgoing == (if Writable(s) then s.socket.outgoing + CommandFrame(Accept) else s.socket.outgoing) &&
        (fileOpen ==> r.files == s.files[p := []] && r.session.transferred == 0) &&
        (!fileOpen ==> r.session == s.session.(path := Some(p))))
  {
    var s1 := s.(session := s.session.(path := Some(p)));
    var (fileOpen, s2) := if ResumePath(p) in s1.files then ResumeOrRestart(s1, p, name, size) else Restart(s1, p, size);
    if ResumePath(p) in s1.files {
      ResumeOrRestartOpens(s1, p, name, size);
    } else {
      RestartOpens(s1, p, size);
    }
    LiveAfterOpen(s, s1, p, fileOpen, s2, StartReceiving(s, p, name, size).1);
  }

  /**
   * Marking the opened file live changes only those four flags; a failed
   * `open` changes nothing more. Apart from `StartReceivingFacts` only to keep
   * its proof small.
   */
  lemma LiveAfterOpen(s: State, s1: State, p: string, fileOpen: bool, s2: State, r: State)
    requires s1 == s.(session := s.session.(path := Some(p)))
    requires r == if !fileOpen then s2 else s2.(session := s2.session.(active := true, paused := false, completed := false, error := Json.Null))
    ensures fileOpen ==> r.session == s2.session.(active := true, paused := false, completed := false, error := Json.Null)
    ensures !fileOpen ==> r == s2
    ensures r.socket == s2.socket && r.files == s2.files && r.events == s2.events
  {
  }

  /**
   * Whether it resumes or restarts, the receiver ends up writing `p` for a
   * file of the announced size, unless `p` names a directory; then no file is
   * opened and none is changed.
   */
  lemma ResumeOrRestartOpens(s: State, p: string, name: string, size: int)
    requires ResumePath(p) in s.files
    ensures var (fileOpen, r) := ResumeOrRestart(s, p, name, size);
      (fileOpen <==> !NamesDirectory(p)) &&
      (fileOpen ==> r.session.file == Some(Writer(p)) && r.session.fileSize == size) &&
      (!fileOpen ==> r.session.file == s.session.file && r.files == s.files) &&
      r.session.path == s.session.path && r.session.active == s.session.active &&
      r.events == s.events && r.socket.incoming == s.socket.incoming
  {
    match Json.Decode(s.files[ResumePath(p)])
    case None =>
      RestartOpens(s, p, size);
    case Some(info) =>
      var s1 := s.(session := s.session.(resumeInfo := Some(info)));
      match OffsetOf(info)
      case None =>
        RestartOpens(s1, p, size);
      case Some(t) =>
        var s2 := SendCommand(s1, Resume);
        if !Writable(s2) {
          RestartOpens(s2, p, size);
        } else {
          var s3 := Write(s2, HeaderFrame(ResumeDoc(name, t)));
          var s4 := s3.(session := s3.session.(fileSize := size, transferred := t));
          RestartOpens(s4, p, size);
        }
  }

  /** A name that is empty, `.` or `..` makes the joined path a directory, whatever the download directory. */
  lemma DirectoryNames(dir: string)
    ensures NamesDirectory(JoinPath(dir, ""))
    ensures NamesDirectory(JoinPath(dir, "."))
    ensures NamesDirectory(JoinPath(dir, ".."))
  {
    assert NamesDirectory(JoinPath(dir, ".")) by { JoinedBaseName(dir, "."); }
    assert NamesDirectory(JoinPath(dir, "..")) by { JoinedBaseName(dir, ".."); }
    assert NamesDirectory(JoinPath(dir, "")) by {
      var pre := if dir == [] || dir[|dir| - 1] == '/' then dir else dir + "/";
      assert JoinPath(dir, "") == pre + "";
      BaseNameAfter(pre, "");
    }
  }

  /** A non-empty name without `/` is the last component of the joined path. */
  lemma JoinedBaseName(dir: string, name: string)
    requires name != "" && forall i :: 0 <= i < |name| ==> name[i] != '/'
    ensures BaseName(JoinPath(dir, name)) == name
    ensures NamesDirectory(JoinPath(dir, name)) <==> name == "." || name == ".."
  {
    var pre := if dir == [] || dir[|dir| - 1] == '/' then dir else dir + "/";
    assert JoinPath(dir, name) == pre + name;
    BaseNameAfter(pre, name);
  }

  /**
   * What follows a path ending in `/` (or nothing) is its last component, if
   * it has no `/`: any longer suffix would hold that `/`, and any shorter one
   * would have to follow a `/` inside the name.
   */
  lemma BaseNameAfter(pre: string, name: string)
    requires pre == [] || pre[|pre| - 1] == '/'
    requires forall i :: 0 <= i < |name| ==> name[i] != '/'
    ensures BaseName(pre + name) == name
  {
    var whole := pre + name;
    assert whole[|pre|..] == name;
  }


  /** A request header that does not decode gets a bare ERROR and changes nothing else. */
  lemma RequestMalformed(env: Env, s: State)
    requires Json.Decode(Take(s.socket.incoming, HEADER_SIZE)) == None
    ensures var r := RequestStep(env, s);
      r.session == s.session && r.files == s.files && r.events == s.events &&
      r.socket.incoming == Drop(s.socket.incoming, HEADER_SIZE) &&
      r.socket.outgoing == (if Writable(s) then s.socket.outgoing + CommandFrame(Error) else s.socket.outgoing)
  {
  }

  // ---------------------------------------------------------------------------
  // COMPLETE and ERROR on the receiving side

  /**
   * `_handle_complete`: the transfer is complete exactly when the announced
   * digest is the digest of the file; then the `.resume` record is removed,
   * otherwise the error is the mismatch message. Either way the transfer
   * stops and the file is closed.
   */
  lemma CompleteVerifies(env: Env, s: State, p: string, hash: string, rest: seq<byte>)
    requires |Json.Encode(HashDoc(hash))| <= HEADER_SIZE
    requires s.session.path == Some(p) && !s.session.completed
    requires s.socket.incoming == HeaderFrame(HashDoc(hash)) + rest
    ensures var r := CompleteStep(env, s);
      var ok := hash == FileHash(env, s.files, p);
      (r.session.completed <==> ok) &&
      (ok ==> r.files == s.files - {ResumePath(p)} && r.session.error == s.session.error) &&
      (!ok ==> r.files == s.files && r.session.error == Json.Str(MISMATCH_MESSAGE)) &&
      !r.session.active && r.session.file == None &&
      r.socket == s.socket.(incoming := rest) && r.connected == s.connected &&
      r.events == (if env.hasCallback then s.events + [OnComplete(ok)] else s.events)
  {
    HeaderRoundTrip(HashDoc(hash), rest);
    assert Json.Get(HashDoc(hash), "file_hash") == Some(Json.Str(hash));
  }

  /** `_handle_error` with a header: the peer's message becomes the error and the transfer stops. */
  lemma ErrorReported(env: Env, s: State, message: string, rest: seq<byte>)
    requires |Json.Encode(ErrorDoc(message))| <= HEADER_SIZE
    requires s.socket.incoming == HeaderFrame(ErrorDoc(message)) + rest
    ensures var r := ErrorStep(env, s);
      r.session == s.session.(error := Json.Str(message), active := false, file := None) &&
      r.socket == s.socket.(incoming := rest) && r.files == s.files && r.connected == s.connected &&
      r.events == (if env.hasCallback then s.events + [OnError] else s.events)
  {
    HeaderRoundTrip(ErrorDoc(message), rest);
    assert Json.Get(ErrorDoc(message), "error") == Some(Json.Str(message));
  }

  /** A bare ERROR at the end of the stream (the failure answer of `_handle_data`) leaves the transfer as it was. */
  lemma BareErrorIgnored(env: Env, s: State)
    requires s.socket.incoming == []
    ensures ErrorStep(env, s) == s
  {
    assert Take([], HEADER_SIZE) == [];
    assert Json.Decode([]) == None;
  }

  /**
   * `cancel_transfer` on a live transfer over a writable socket sends ERROR
   * and an error header, and the peer's receive loop records the cancel
   * message and stops its own transfer.
   */
  lemma CancelReachesPeer(env: Env, s: State, penv: Env, peer: State, rest: seq<byte>)
    requires s.session.active && Writable(s)
    requires peer.socket.incoming == CancelStep(env, s).1.socket.outgoing[|s.socket.outgoing|..] + rest
    ensures CancelStep(env, s).0 == Returned(true)
    ensures CancelStep(env, s).1.socket.outgoing ==
      s.socket.outgoing + CommandFrame(Error) + HeaderFrame(ErrorDoc(CANCEL_MESSAGE))
    ensures var r := ReceiveOne(penv, peer);
      r.session == peer.session.(error := Json.Str(CANCEL_MESSAGE), active := false, file := None) &&
      r.socket.incoming == rest && r.files == peer.files
  {
    CancelSends(env, s);
    var out := CancelStep(env, s).1.socket.outgoing;
    assert out[|s.socket.outgoing|..] == CommandFrame(Error) + HeaderFrame(ErrorDoc(CANCEL_MESSAGE));
    CancelHeard(penv, peer, rest);
  }

  /** `cancel_transfer` on a live transfer over a writable socket returns true after writing ERROR and the error header. */
  lemma CancelSends(env: Env, s: State)
    requires s.session.active && Writable(s)
    ensures CancelStep(env, s).0 == Returned(true)
    ensures CancelStep(env, s).1.socket.outgoing ==
      s.socket.outgoing + CommandFrame(Error) + HeaderFrame(ErrorDoc(CANCEL_MESSAGE))
  {
  }

  /** The peer's receive loop reading ERROR and the cancel header records the message and stops its transfer. */
  lemma CancelHeard(penv: Env, peer: State, rest: seq<byte>)
    requires peer.socket.incoming == CommandFrame(Error) + HeaderFrame(ErrorDoc(CANCEL_MESSAGE)) + rest
    ensures var r := ReceiveOne(penv, peer);
      r.session == peer.session.(error := Json.Str(CANCEL_MESSAGE), active := false, file := None) &&
      r.socket.incoming == rest && r.files == peer.files
  {
    var header := HeaderFrame(ErrorDoc(CANCEL_MESSAGE));
    assert peer.socket.incoming == CommandFrame(Error) + (header + rest);
    Dispatch(penv, peer, Error, header + rest);
    CancelDocFits();
    ErrorReported(penv, peer.(socket := peer.socket.(incoming := header + rest)), CANCEL_MESSAGE, rest);
  }

  /** The cancel message's error header fits in one header frame. */
  lemma CancelDocFits()
    ensures |Json.Encode(ErrorDoc(CANCEL_MESSAGE))| <= HEADER_SIZE
  {
  }

  // ---------------------------------------------------------------------------
  // Guards

  /** `_handle_data` on a transfer that is not live, or is paused, reads nothing and changes nothing. */
  lemma DataIgnoredUnlessLive(env: Env, s: State)
    requires !s.session.active || s.session.paused
    ensures DataStep(env, s) == s
  {
  }

  /** `send_file` without a connection or without the file returns false and writes nothing. */
  lemma SendFileGuard(env: Env, s: State, filePath: string)
    requires !s.connected || filePath !in s.files
    ensures SendFileStep(env, s, filePath) == (false, s)
  {
  }

  /** `resume_transfer` succeeds exactly on a live, paused transfer; it then clears the pause flag only, and otherwise changes nothing. */
  lemma ResumeTransferGuard(env: Env, s: State)
    ensures ResumeTransferStep(env, s).0 <==> s.session.active && s.session.paused
    ensures !(s.session.active && s.session.paused) ==> ResumeTransferStep(env, s) == (false, false, s)
    ensures s.session.active && s.session.paused ==>
      var r := ResumeTransferStep(env, s).2;
      r.session == s.session.(paused := false) && r.socket == s.socket && r.files == s.files &&
      r.events == (if env.hasCallback then s.events + [OnResumed] else s.events)
  {
  }

  /**
   * `cancel_transfer` returns false and changes nothing unless the transfer is
   * live; on a live one it stops it, records the cancel message and closes the
   * file, and it returns true exactly when the socket could be written.
   */
  lemma CancelGuard(env: Env, s: State)
    ensures !s.session.active ==> CancelStep(env, s) == (Returned(false), s)
    ensures s.session.active ==>
      var r := CancelStep(env, s).1;
      r.session == s.session.(active := false, error := Json.Str(CANCEL_MESSAGE), file := None) && r.files == s.files
    ensures CancelStep(env, s).0 == Returned(true) <==> s.session.active && Writable(s)
  {
  }

  /** The sender loop on a transfer that is not live, or is paused, stops at once: no DATA, no COMPLETE. */
  lemma LoopHaltsWhenStopped(env: Env, s: State, sent: nat)
    requires !s.session.active || s.session.paused
    ensures SendLoop(env, s, NoInterrupt, sent) == (false, s)
  {
  }

  /** COMPLETE and the digest go out only for a live, unpaused transfer that holds no error. */
  lemma FinishGuard(env: Env, s: State)
    ensures Finish(env, s).1.socket.outgoing != s.socket.outgoing ==>
      s.session.active && !s.session.paused && !Truthy(s.session.error)
  {
  }

  // ---------------------------------------------------------------------------
  // The sender loop

  /** What the callback hears of `evs`: everything when one is installed, nothing otherwise. */
  function Heard(env: Env, evs: seq<Event>): seq<Event> {
    if env.hasCallback then evs else []
  }

  /**
   * The sender is streaming `p` from `pos`: live, unpaused, no error, over a
   * writable socket, with the transferred size at the cursor (as `send_file`
   * and `_handle_resume` leave it).
   */
  predicate Streaming(s: State, p: string, pos: nat) {
    Writable(s) && s.session.active && !s.session.paused && !Truthy(s.session.error) &&
    s.session.path == Some(p) && p in s.files && s.session.file == Some(Reader(p, pos)) && pos <= |s.files[p]| &&
    s.session.transferred == pos
  }

  /** At the end of the file the loop sends COMPLETE and the digest and marks the transfer complete. */
  lemma SendLoopEnds(env: Env, s: State, p: string, pos: nat, sent: nat)
    requires Streaming(s, p, pos) && pos == |s.files[p]|
    ensures SendLoop(env, s, NoInterrupt, sent) ==
      (false, s.(socket := s.socket.(outgoing := s.socket.outgoing + CommandFrame(Complete) + HeaderFrame(HashDoc(env.digest(s.files[p])))),
                 session := s.session.(completed := true, active := false, file := None),
                 events := s.events + Heard(env, [OnComplete(true)])))
  {
    assert ReadAt(s.files[p], pos, CHUNK_SIZE) == [];
    var s1 := SendCommand(s, Complete);
    assert s1 == Write(s, CommandFrame(Complete)) && Writable(s1);
    assert FileHash(env, s1.files, p) == env.digest(s.files[p]);
    var s2 := Write(s1, HeaderFrame(HashDoc(env.digest(s.files[p]))));
    var s3 := s2.(session := s2.session.(completed := true, active := false, file := None));
    assert Finish(env, s) == (false, Emit(env, s3, OnComplete(true)));
    assert s.events + Heard(env, [OnComplete(true)]) == Emit(env, s3, OnComplete(true)).events;
  }

  /** The state after one DATA message: the chunk written, the cursor and transferred size moved on, progress heard. */
  function Advance(env: Env, s: State, p: string, pos: nat, chunk: seq<byte>): State
    requires |chunk| <= CHUNK_SIZE
  {
    var t := s.session.transferred + |chunk|;
    s.(socket := s.socket.(outgoing := s.socket.outgoing + DataFrame(chunk)),
       session := s.session.(transferred := t, file := Some(Reader(p, pos + |chunk|))),
       events := s.events + Heard(env, [OnProgress(t)]))
  }

  /** The length, the chunk and the progress report after DATA are one step of `Advance`. */
  lemma SendChunkAdvances(env: Env, s: State, p: string, pos: nat, chunk: seq<byte>)
    requires |chunk| <= CHUNK_SIZE
    ensures SendChunk(env, Write(s, CommandFrame(Data)), p, pos, chunk) == Advance(env, s, p, pos, chunk)
  {
    assert s.socket.outgoing + CommandFrame(Data) + (LengthPrefix(|chunk|) + chunk) == s.socket.outgoing + DataFrame(chunk);
  }

  /** One pass of the loop before the end of the file, with no interrupt due: DATA, the length and the chunk go out and the cursor moves on. */
  lemma SendLoopStep(env: Env, s: State, intr: Interrupt, p: string, pos: nat, sent: nat, next: State)
    requires Streaming(s, p, pos) && pos < |s.files[p]|
    requires ApplyInterrupt(env, s, intr, sent) == s
    requires next == Advance(env, s, p, pos, ReadAt(s.files[p], pos, CHUNK_SIZE))
    ensures SendLoop(env, s, intr, sent) == SendLoop(env, next, intr, sent + 1)
  {
    var chunk := ReadAt(s.files[p], pos, CHUNK_SIZE);
    assert chunk != [];
    var s2 := SendCommand(s, Data);
    assert s2 == Write(s, CommandFrame(Data)) && Writable(s2);
    SendChunkAdvances(env, s, p, pos, chunk);
  }

  /** The state after one DATA message is still streaming `p`, at the offset after the chunk. */
  lemma AdvanceStreams(env: Env, s: State, p: string, pos: nat, chunk: seq<byte>, next: State, t: nat)
    requires Streaming(s, p, pos) && pos < |s.files[p]|
    requires chunk == ReadAt(s.files[p], pos, CHUNK_SIZE) && next == Advance(env, s, p, pos, chunk)
    requires t == pos + |chunk|
    ensures Streaming(next, p, t)
  {
  }

  /** The DATA messages for the file from `pos` on, one per chunk of at most `CHUNK_SIZE` bytes. */
  function Stream(content: seq<byte>, pos: nat): seq<byte>
    decreases |content| - pos
  {
    if pos >= |content| then []
    else
      var chunk := ReadAt(content, pos, CHUNK_SIZE);
      DataFrame(chunk) + Stream(content, pos + |chunk|)
  }

  /**
   * The stream from `pos` is the next chunk's DATA message followed by the
   * stream from `t`, where that chunk ends; so are the progress reports. `t`
   * is passed in, rather than written out, to keep the proofs that use it cheap.
   */
  lemma StreamAdvance(content: seq<byte>, pos: nat, chunk: seq<byte>, t: nat)
    requires pos < |content| && chunk == ReadAt(content, pos, CHUNK_SIZE) && t == pos + |chunk|
    ensures Stream(content, pos) == DataFrame(chunk) + Stream(content, t)
    ensures Reports(content, pos) == [OnProgress(t)] + Reports(content, t)
  {
  }

  /** The stream is the DATA messages of the chunks `ChunksFrom` reads, in order. */
  lemma {:induction false} StreamFrames(content: seq<byte>, pos: nat)
    requires pos <= |content|
    ensures ChunksFit(ChunksFrom(content, pos)) && Stream(content, pos) == DataFrames(ChunksFrom(content, pos))
    decreases |content| - pos
  {
    ChunksCover(content, pos);
    if pos < |content| {
      var chunk := ReadAt(content, pos, CHUNK_SIZE);
      var chunks := ChunksFrom(content, pos);
      StreamFrames(content, pos + |chunk|);
      assert chunks == [chunk] + ChunksFrom(content, pos + |chunk|);
      assert chunks[1..] == ChunksFrom(content, pos + |chunk|);
    }
  }

  /** The progress reports for the file from `pos` on: the offset reached after each chunk. */
  function Reports(content: seq<byte>, pos: nat): (r: seq<Event>)
    decreases |content| - pos
  {
    if pos >= |content| then []
    else
      var chunk := ReadAt(content, pos, CHUNK_SIZE);
      [OnProgress(pos + |chunk|)] + Reports(content, pos + |chunk|)
  }

  /**
   * What `_send_file_data` left alone from offset `pos` leaves behind: the
   * remaining chunks written as DATA messages, in order, then COMPLETE and the
   * digest of the whole file; the transferred size at the end of the file, the
   * transfer complete and closed; every chunk's offset heard, then completion.
   */
  function Sent(env: Env, s: State, p: string, pos: nat): State {
    var content := FileAt(s.files, p);
    s.(socket := s.socket.(outgoing := s.socket.outgoing + Stream(content, pos) + CommandFrame(Complete) + HeaderFrame(HashDoc(env.digest(content)))),
       session := s.session.(transferred := |content|, completed := true, active := false, file := None),
       events := s.events + Heard(env, Reports(content, pos) + [OnComplete(true)]))
  }

  /** At the end of the file, `Sent` is the closing step alone. */
  lemma SentAtEnd(env: Env, s: State, p: string, pos: nat)
    requires p in s.files && pos == |s.files[p]|
    ensures Sent(env, s, p, pos) ==
      s.(socket := s.socket.(outgoing := s.socket.outgoing + CommandFrame(Complete) + HeaderFrame(HashDoc(env.digest(s.files[p])))),
         session := s.session.(completed := true, active := false, file := None, transferred := pos),
         events := s.events + Heard(env, [OnComplete(true)]))
  {
    assert Stream(s.files[p], pos) == [] && Reports(s.files[p], pos) == [];
    assert s.socket.outgoing + [] == s.socket.outgoing;
  }

  /** At the end of the file the loop ends in `Sent`. */
  lemma LoopEndsSent(env: Env, s: State, p: string, pos: nat, sent: nat)
    requires Streaming(s, p, pos) && pos == |s.files[p]|
    ensures SendLoop(env, s, NoInterrupt, sent) == (false, Sent(env, s, p, pos))
  {
    SentAtEnd(env, s, p, pos);
    SendLoopEnds(env, s, p, pos, sent);
  }

  /** What is left to send after one DATA message ends where what was left before it ends. */
  lemma SentAdvance(env: Env, s: State, p: string, pos: nat, chunk: seq<byte>, next: State, t: nat)
    requires p in s.files && pos < |s.files[p]|
    requires chunk == ReadAt(s.files[p], pos, CHUNK_SIZE) && next == Advance(env, s, p, pos, chunk)
    requires s.session.transferred == pos && t == pos + |chunk|
    ensures Sent(env, next, p, t) == Sent(env, s, p, pos)
  {
    var content := s.files[p];
    assert next.files == s.files && next.connected == s.connected;
    assert next.socket == s.socket.(outgoing := s.socket.outgoing + DataFrame(chunk));
    assert next.session == s.session.(transferred := t, file := Some(Reader(p, t)));
    assert next.events == s.events + Heard(env, [OnProgress(t)]);
    StreamAdvance(content, pos, chunk, t);
    Regroup(s.socket.outgoing, DataFrame(chunk), Stream(content, t));
    Regroup([OnProgress(t)], Reports(content, t), [OnComplete(true)]);
    HeardRegroups(env, s.events, next.events, OnProgress(t), Reports(content, t) + [OnComplete(true)],
                  Reports(content, pos) + [OnComplete(true)]);
    var n := Sent(env, next, p, t);
    var o := Sent(env, s, p, pos);
    assert FileAt(next.files, p) == FileAt(s.files, p) == content;
    assert n.socket == o.socket;
    assert n.session == o.session;
    assert n.events == o.events;
    assert n.connected == o.connected && n.files == o.files;
  }

  /** With nothing interrupting it, the loop ends in `Sent` and raises nothing. */
  lemma {:induction false} LoopIsSent(env: Env, s: State, p: string, pos: nat, sent: nat)
    requires Streaming(s, p, pos)
    ensures SendLoop(env, s, NoInterrupt, sent) == (false, Sent(env, s, p, pos))
    decreases |s.files[p]| - pos, 1
  {
    if pos < |s.files[p]| {
      LoopStepSent(env, s, p, pos, sent);
    } else {
      LoopEndsSent(env, s, p, pos, sent);
    }
  }

  /** Before the end of the file: one DATA message, then the loop from the offset after it. */
  lemma {:induction false} LoopStepSent(env: Env, s: State, p: string, pos: nat, sent: nat)
    requires Streaming(s, p, pos) && pos < |s.files[p]|
    ensures SendLoop(env, s, NoInterrupt, sent) == (false, Sent(env, s, p, pos))
    decreases |s.files[p]| - pos, 0
  {
    var chunk := ReadAt(s.files[p], pos, CHUNK_SIZE);
    var next := Advance(env, s, p, pos, chunk);
    var t := pos + |chunk|;
    OnePass(env, s, p, pos, sent, chunk, next, t);
    LoopIsSent(env, next, p, t, sent + 1);
  }

  /**
   * One pass of the undisturbed loop: the state after it streams from `t` and
   * leaves the same to send. Apart from `LoopStepSent` only to keep its proof
   * small.
   */
  lemma OnePass(env: Env, s: State, p: string, pos: nat, sent: nat, chunk: seq<byte>, next: State, t: nat)
    requires Streaming(s, p, pos) && pos < |s.files[p]|
    requires chunk == ReadAt(s.files[p], pos, CHUNK_SIZE) && next == Advance(env, s, p, pos, chunk) && t == pos + |chunk|
    ensures Streaming(next, p, t)
    ensures Sent(env, next, p, t) == Sent(env, s, p, pos)
    ensures SendLoop(env, s, NoInterrupt, sent) == SendLoop(env, next, NoInterrupt, sent + 1)
  {
    AdvanceStreams(env, s, p, pos, chunk, next, t);
    SentAdvance(env, s, p, pos, chunk, next, t);
    SendLoopStep(env, s, NoInterrupt, p, pos, sent, next);
  }

  /**
   * `_send_file_data` left alone from offset `pos`: every remaining chunk
   * goes out as a DATA message, in order, then COMPLETE and the digest of
   * the whole file; the transferred size reaches the end of the file, each
   * chunk is reported, and the transfer is complete and no longer active.
   */
  lemma SendLoopDelivers(env: Env, s: State, p: string, pos: nat, sent: nat)
    requires Streaming(s, p, pos)
    ensures var (raised, r) := SendLoop(env, s, NoInterrupt, sent);
      var content := s.files[p];
      !raised &&
      r.socket == s.socket.(outgoing := s.socket.outgoing + Stream(content, pos) + CommandFrame(Complete) + HeaderFrame(HashDoc(env.digest(content)))) &&
      r.session == s.session.(transferred := |content|, completed := true, active := false, file := None) &&
      r.files == s.files && r.connected == s.connected &&
      r.events == s.events + Heard(env, Reports(content, pos) + [OnComplete(true)])
  {
    LoopIsSent(env, s, p, pos, sent);
  }

  // ---------------------------------------------------------------------------
  // A pause or cancel in the middle of the stream

  /** The offset after the next `n` chunks from `pos`, or the end of the file if it comes first. */
  function OffsetAfter(content: seq<byte>, pos: nat, n: nat): (r: nat)
    ensures pos <= |content| ==> pos <= r <= |content|
    decreases n
  {
    if n == 0 || pos >= |content| then pos
    else OffsetAfter(content, pos + |ReadAt(content, pos, CHUNK_SIZE)|, n - 1)
  }

  /** The DATA messages of the next `n` chunks from `pos`. */
  function StreamN(content: seq<byte>, pos: nat, n: nat): seq<byte>
    decreases n
  {
    if n == 0 || pos >= |content| then []
    else
      var chunk := ReadAt(content, pos, CHUNK_SIZE);
      DataFrame(chunk) + StreamN(content, pos + |chunk|, n - 1)
  }

  /** The progress reports of the next `n` chunks from `pos`. */
  function ReportsN(content: seq<byte>, pos: nat, n: nat): seq<Event>
    decreases n
  {
    if n == 0 || pos >= |content| then []
    else
      var chunk := ReadAt(content, pos, CHUNK_SIZE);
      [OnProgress(pos + |chunk|)] + ReportsN(content, pos + |chunk|, n - 1)
  }

  /** The sender streaming `p` from `pos` after `n` more DATA messages. */
  function SentN(env: Env, s: State, p: string, pos: nat, n: nat): State {
    var content := FileAt(s.files, p);
    var t := OffsetAfter(content, pos, n);
    s.(socket := s.socket.(outgoing := s.socket.outgoing + StreamN(content, pos, n)),
       session := s.session.(transferred := t, file := Some(Reader(p, t))),
       events := s.events + Heard(env, ReportsN(content, pos, n)))
  }

  /** The first `n` DATA messages are a prefix of the stream: the stream from the offset they reach follows them. */
  lemma StreamNPrefix(content: seq<byte>, pos: nat, n: nat)
    requires pos <= |content|
    ensures StreamN(content, pos, n) + Stream(content, OffsetAfter(content, pos, n)) == Stream(content, pos)
  {
    var prefix, tail, whole := PrefixParts(content, pos, n);
  }

  /**
   * `StreamNPrefix` by induction on `n`, returning the three sequences it
   * relates. It is apart from `StreamNPrefix` only to keep the solver's work
   * small: the induction reasons about the returned sequences, not about the
   * unfolded streams.
   */
  lemma {:induction false} PrefixParts(content: seq<byte>, pos: nat, n: nat) returns (prefix: seq<byte>, tail: seq<byte>, whole: seq<byte>)
    requires pos <= |content|
    ensures prefix == StreamN(content, pos, n)
    ensures tail == Stream(content, OffsetAfter(content, pos, n))
    ensures whole == Stream(content, pos)
    ensures prefix + tail == whole
    decreases n
  {
    prefix, tail, whole := StreamN(content, pos, n), Stream(content, OffsetAfter(content, pos, n)), Stream(content, pos);
    if n > 0 && pos < |content| {
      var chunk := ReadAt(content, pos, CHUNK_SIZE);
      var t, m := pos + |chunk|, n - 1;
      var others, rest, later := PrefixParts(content, t, m);
      PeelFirst(content, pos, n, chunk, t, m, prefix, tail, whole, others, rest, later);
    } else {
      assert prefix == [] && tail == whole;
      assert [] + whole == whole;
    }
  }

  /**
   * Before the end of the file, the prefix relation from the offset after the
   * first chunk gives it from `pos`. The inductive step of `PrefixParts`, apart
   * from it only to keep the solver's work small.
   */
  lemma PeelFirst(content: seq<byte>, pos: nat, n: nat, chunk: seq<byte>, t: nat, m: nat,
                  prefix: seq<byte>, tail: seq<byte>, whole: seq<byte>,
                  others: seq<byte>, rest: seq<byte>, later: seq<byte>)
    requires pos < |content| && n > 0 && chunk == ReadAt(content, pos, CHUNK_SIZE)
    requires t == pos + |chunk| && m + 1 == n
    requires prefix == StreamN(content, pos, n)
    requires tail == Stream(content, OffsetAfter(content, pos, n))
    requires whole == Stream(content, pos)
    requires others == StreamN(content, t, m)
    requires rest == Stream(content, OffsetAfter(content, t, m))
    requires later == Stream(content, t)
    requires others + rest == later
    ensures prefix + tail == whole
  {
    StreamNStep(content, pos, n, chunk, t, m);
    StreamAdvance(content, pos, chunk, t);
    assert rest == tail;
    Regroup(DataFrame(chunk), others, tail);
  }

  /**
   * One step of `StreamN`, `ReportsN` and `OffsetAfter` before the end of the
   * file. The offset `t` where the chunk ends and the count `m` left are
   * passed in, rather than written out, to keep the proofs that use it cheap.
   */
  lemma StreamNStep(content: seq<byte>, pos: nat, n: nat, chunk: seq<byte>, t: nat, m: nat)
    requires pos < |content| && n > 0 && chunk == ReadAt(content, pos, CHUNK_SIZE)
    requires t == pos + |chunk| && m + 1 == n
    ensures StreamN(content, pos, n) == DataFrame(chunk) + StreamN(content, t, m)
    ensures ReportsN(content, pos, n) == [OnProgress(t)] + ReportsN(content, t, m)
    ensures OffsetAfter(content, pos, n) == OffsetAfter(content, t, m)
  {
  }

  /** Before the end of the file there is one chunk more from `pos` than from the offset after it. */
  lemma ChunksStep(content: seq<byte>, pos: nat, t: nat)
    requires |ChunksFrom(content, pos)| > 0 && t == pos + |ReadAt(content, pos, CHUNK_SIZE)|
    ensures pos < |content|
    ensures |ChunksFrom(content, t)| == |ChunksFrom(content, pos)| - 1
  {
  }

  /** Sending no more messages leaves a streaming sender as it is. */
  lemma SentNZero(env: Env, s: State, p: string, pos: nat)
    requires Streaming(s, p, pos)
    ensures SentN(env, s, p, pos, 0) == s
  {
    assert s.socket.outgoing + [] == s.socket.outgoing && s.events + [] == s.events;
  }

  /** `n` messages from `pos` are one DATA message, then `n - 1` from the offset after it. */
  lemma SentNAdvance(env: Env, s: State, p: string, pos: nat, chunk: seq<byte>, next: State, t: nat, n: nat, m: nat)
    requires p in s.files && pos < |s.files[p]| && n > 0
    requires chunk == ReadAt(s.files[p], pos, CHUNK_SIZE) && next == Advance(env, s, p, pos, chunk)
    requires s.session.transferred == pos && t == pos + |chunk| && m + 1 == n
    ensures SentN(env, next, p, t, m) == SentN(env, s, p, pos, n)
  {
    var content := s.files[p];
    assert FileAt(next.files, p) == FileAt(s.files, p) == content;
    StreamNStep(content, pos, n, chunk, t, m);
    var a := SentN(env, next, p, t, m);
    var b := SentN(env, s, p, pos, n);
    Regroup(s.socket.outgoing, DataFrame(chunk), StreamN(content, t, m));
    assert a.socket == b.socket;
    assert a.session == b.session;
    HeardRegroups(env, s.events, next.events, OnProgress(t), ReportsN(content, t, m), ReportsN(content, pos, n));
  }

  /**
   * A progress report heard, then the reports after it, are the reports heard
   * at once. Apart from its callers only to keep the solver's work small.
   */
  lemma HeardRegroups(env: Env, evs: seq<Event>, evs2: seq<Event>, e: Event, later: seq<Event>, whole: seq<Event>)
    requires evs2 == evs + Heard(env, [e]) && whole == [e] + later
    ensures evs2 + Heard(env, later) == evs + Heard(env, whole)
  {
    if env.hasCallback {
      Regroup(evs, [e], later);
    }
  }

  /**
   * Until the interrupt is due, the loop sends one DATA message per pass: an
   * interrupt after `k` messages first lets the next `k - sent` go out.
   */
  lemma {:induction false} LoopUntilInterrupt(env: Env, s: State, p: string, pos: nat, intr: Interrupt, sent: nat, k: nat, mid: State)
    requires Streaming(s, p, pos)
    requires intr == PauseAfter(k) || intr == CancelAfter(k)
    requires sent <= k && k - sent <= |ChunksFrom(s.files[p], pos)|
    requires mid == SentN(env, s, p, pos, k - sent)
    ensures SendLoop(env, s, intr, sent) == SendLoop(env, mid, intr, k)
    decreases k - sent, 1
  {
    if sent < k {
      LoopBeforeInterrupt(env, s, p, pos, intr, sent, k, mid);
    } else {
      SentNZero(env, s, p, pos);
    }
  }

  /** The interrupt not yet due: one DATA message, then the loop from the offset after it. */
  lemma {:induction false} LoopBeforeInterrupt(env: Env, s: State, p: string, pos: nat, intr: Interrupt, sent: nat, k: nat, mid: State)
    requires Streaming(s, p, pos)
    requires intr == PauseAfter(k) || intr == CancelAfter(k)
    requires sent < k && k - sent <= |ChunksFrom(s.files[p], pos)|
    requires mid == SentN(env, s, p, pos, k - sent)
    ensures SendLoop(env, s, intr, sent) == SendLoop(env, mid, intr, k)
    decreases k - sent, 0
  {
    var chunk := ReadAt(s.files[p], pos, CHUNK_SIZE);
    var t := pos + |chunk|;
    ChunksStep(s.files[p], pos, t);
    var next := Advance(env, s, p, pos, chunk);
    AdvanceStreams(env, s, p, pos, chunk, next, t);
    SentNAdvance(env, s, p, pos, chunk, next, t, k - sent, k - (sent + 1));
    LoopUntilInterrupt(env, next, p, t, intr, sent + 1, k, mid);
    NotDueStep(env, s, p, pos, intr, sent, k, next);
    assert SendLoop(env, s, intr, sent) == SendLoop(env, next, intr, sent + 1) == SendLoop(env, mid, intr, k);
  }

  /** Before the interrupt is due, one pass of the loop sends the next chunk and nothing else. */
  lemma NotDueStep(env: Env, s: State, p: string, pos: nat, intr: Interrupt, sent: nat, k: nat, next: State)
    requires Streaming(s, p, pos) && pos < |s.files[p]|
    requires intr == PauseAfter(k) || intr == CancelAfter(k)
    requires sent < k && next == Advance(env, s, p, pos, ReadAt(s.files[p], pos, CHUNK_SIZE))
    ensures SendLoop(env, s, intr, sent) == SendLoop(env, next, intr, sent + 1)
  {
    SendLoopStep(env, s, intr, p, pos, sent, next);
  }

  /** The pause falls due: the loop stops with the transfer paused and its offset saved, and sends nothing more. */
  lemma PauseFires(env: Env, s: State, p: string, pos: nat, k: nat)
    requires Streaming(s, p, pos)
    ensures SendLoop(env, s, PauseAfter(k), k) == (false, Emit(env, SaveResume(s.(session := s.session.(paused := true))), OnPaused))
  {
  }

  /** The cancel falls due: the loop stops after the cancel message, and sends no COMPLETE. */
  lemma CancelFires(env: Env, s: State, p: string, pos: nat, k: nat)
    requires Streaming(s, p, pos)
    ensures SendLoop(env, s, CancelAfter(k), k) == (false, CancelStep(env, s).1)
  {
    CancelSends(env, s);
  }

  /**
   * `pause_transfer` called while `_send_file_data` streams `p` from `pos`,
   * after `k` more chunks: exactly those `k` DATA messages go out (a prefix of
   * the stream, see `StreamNPrefix`) and no COMPLETE; the transfer stays live
   * but paused at the offset they reach, and the `.resume` record holds that
   * offset.
   */
  lemma PauseMidStream(env: Env, s: State, p: string, pos: nat, k: nat)
    requires Streaming(s, p, pos) && k <= |ChunksFrom(s.files[p], pos)|
    ensures var content := s.files[p];
      var t := OffsetAfter(content, pos, k);
      var (raised, r) := SendLoop(env, s, PauseAfter(k), 0);
      !raised &&
      r.socket == s.socket.(outgoing := s.socket.outgoing + StreamN(content, pos, k)) &&
      r.session == s.session.(paused := true, transferred := t, file := Some(Reader(p, t))) &&
      r.files == (if p == "" then s.files
                  else s.files[ResumePath(p) := Json.Encode(ResumeRecord(p, s.session.fileSize, t))]) &&
      r.connected == s.connected &&
      r.events == s.events + Heard(env, ReportsN(content, pos, k) + [OnPaused])
  {
    var t := OffsetAfter(s.files[p], pos, k);
    var mid := SentN(env, s, p, pos, k);
    LoopUntilInterrupt(env, s, p, pos, PauseAfter(k), 0, k, mid);
    assert Streaming(mid, p, t);
    PauseFires(env, mid, p, t, k);
    PausedAfter(env, s, p, pos, k, mid);
  }

  /** The state the pause leaves after `k` DATA messages from `pos`. */
  lemma PausedAfter(env: Env, s: State, p: string, pos: nat, k: nat, mid: State)
    requires p in s.files && s.session.path == Some(p) && mid == SentN(env, s, p, pos, k)
    ensures var content := s.files[p];
      var t := OffsetAfter(content, pos, k);
      var r := Emit(env, SaveResume(mid.(session := mid.session.(paused := true))), OnPaused);
      r.socket == s.socket.(outgoing := s.socket.outgoing + StreamN(content, pos, k)) &&
      r.session == s.session.(paused := true, transferred := t, file := Some(Reader(p, t))) &&
      r.files == (if p == "" then s.files
                  else s.files[ResumePath(p) := Json.Encode(ResumeRecord(p, s.session.fileSize, t))]) &&
      r.connected == s.connected &&
      r.events == s.events + Heard(env, ReportsN(content, pos, k) + [OnPaused])
  {
    var content := s.files[p];
    var t := OffsetAfter(content, pos, k);
    var paused := mid.(session := mid.session.(paused := true));
    SaveResumeAt(paused, p, s.session.fileSize, t);
    EmitHeard(env, SaveResume(paused), s.events, ReportsN(content, pos, k), OnPaused);
  }

  /**
   * `_save_resume_info` for the transfer of `p` writes the record of its size
   * and offset next to it, unless `p` is empty. Apart from `PausedAfter` only
   * to keep its proof small.
   */
  lemma SaveResumeAt(x: State, p: string, size: int, t: int)
    requires x.session.path == Some(p) && x.session.fileSize == size && x.session.transferred == t
    ensures SaveResume(x) == x.(files := if p == "" then x.files
                                         else x.files[ResumePath(p) := Json.Encode(ResumeRecord(p, size, t))])
  {
  }

  /** An event emitted after the events `xs` were heard is heard with them. Apart from `PausedAfter` only to keep its proof small. */
  lemma EmitHeard(env: Env, x: State, evs: seq<Event>, xs: seq<Event>, e: Event)
    requires x.events == evs + Heard(env, xs)
    ensures Emit(env, x, e) == x.(events := evs + Heard(env, xs + [e]))
  {
    if env.hasCallback {
      Regroup(evs, xs, [e]);
    }
  }

  /**
   * `cancel_transfer` called while `_send_file_data` streams `p` from `pos`,
   * after `k` more chunks: exactly those `k` DATA messages go out, then ERROR
   * and the cancel header, and no COMPLETE; the transfer is no longer live,
   * holds the cancel message, and its file is closed.
   */
  lemma CancelMidStream(env: Env, s: State, p: string, pos: nat, k: nat)
    requires Streaming(s, p, pos) && k <= |ChunksFrom(s.files[p], pos)|
    ensures var content := s.files[p];
      var (raised, r) := SendLoop(env, s, CancelAfter(k), 0);
      !raised &&
      r.socket == s.socket.(outgoing := s.socket.outgoing + StreamN(content, pos, k) + CommandFrame(Error) +
                                        HeaderFrame(ErrorDoc(CANCEL_MESSAGE))) &&
      r.session == s.session.(active := false, error := Json.Str(CANCEL_MESSAGE), file := None,
                              transferred := OffsetAfter(content, pos, k)) &&
      r.files == s.files && r.connected == s.connected &&
      r.events == s.events + Heard(env, ReportsN(content, pos, k) + [OnCancelled])
  {
    var t := OffsetAfter(s.files[p], pos, k);
    var mid := SentN(env, s, p, pos, k);
    LoopUntilInterrupt(env, s, p, pos, CancelAfter(k), 0, k, mid);
    assert Streaming(mid, p, t);
    CancelFires(env, mid, p, t, k);
    CancelledAfter(env, s, p, pos, k, mid);
  }

  /** The state the cancel leaves after `k` DATA messages from `pos`. */
  lemma CancelledAfter(env: Env, s: State, p: string, pos: nat, k: nat, mid: State)
    requires p in s.files && s.session.active && Writable(s) && mid == SentN(env, s, p, pos, k)
    ensures var content := s.files[p];
      var r := CancelStep(env, mid).1;
      r.socket == s.socket.(outgoing := s.socket.outgoing + StreamN(content, pos, k) + CommandFrame(Error) +
                                        HeaderFrame(ErrorDoc(CANCEL_MESSAGE))) &&
      r.session == s.session.(active := false, error := Json.Str(CANCEL_MESSAGE), file := None,
                              transferred := OffsetAfter(content, pos, k)) &&
      r.files == s.files && r.connected == s.connected &&
      r.events == s.events + Heard(env, ReportsN(content, pos, k) + [OnCancelled])
  {
    var content := s.files[p];
    CancelSends(env, mid);
    if env.hasCallback {
      assert s.events + ReportsN(content, pos, k) + [OnCancelled] == s.events + (ReportsN(content, pos, k) + [OnCancelled]);
    }
  }

  // ---------------------------------------------------------------------------
  // The answer to REQUEST, the RESUME header, and `close`

  /** `send_file` reads a whole command frame as the answer to REQUEST and acts on the command in it. */
  lemma AnswerDispatch(env: Env, s: State, path: string, size: int, c: Command, rest: seq<byte>)
    requires s.socket.incoming == CommandFrame(c) + rest
    ensures var s1 := s.(socket := s.socket.(incoming := rest));
      AwaitAnswer(env, s, path, size) ==
        match c
        case Accept => (true, Sending(s1, path, size, 0))
        case Resume => ResumeSending(s1, path, size)
        case Reject => (false, Emit(env, s1, OnRejected))
        case _ => (false, s1)
  {
    CommandRoundTrip(c, rest);
  }

  /** `send_file` reading ACCEPT opens the file at offset 0 and starts the sender thread. */
  lemma AnswerAccepted(env: Env, s: State, path: string, size: int, rest: seq<byte>)
    requires s.socket.incoming == CommandFrame(Accept) + rest
    ensures AwaitAnswer(env, s, path, size) == (true, Sending(s.(socket := s.socket.(incoming := rest)), path, size, 0))
  {
    AnswerDispatch(env, s, path, size, Accept, rest);
  }

  /** `send_file` reading REJECT returns false, tells the callback, and leaves the session as it was. */
  lemma AnswerRejected(env: Env, s: State, path: string, size: int, rest: seq<byte>)
    requires s.socket.incoming == CommandFrame(Reject) + rest
    ensures AwaitAnswer(env, s, path, size) == (false, Emit(env, s.(socket := s.socket.(incoming := rest)), OnRejected))
  {
    AnswerDispatch(env, s, path, size, Reject, rest);
  }

  /**
   * `send_file` reading RESUME and then the receiver's header with offset `t`
   * opens the file, seeks to `t`, sets the transferred size to `t` and starts
   * the sender thread.
   */
  lemma AnswerResumed(env: Env, s: State, path: string, size: int, name: string, t: nat, rest: seq<byte>)
    requires |Json.Encode(ResumeDoc(name, t))| <= HEADER_SIZE
    requires s.socket.incoming == CommandFrame(Resume) + HeaderFrame(ResumeDoc(name, t)) + rest
    ensures AwaitAnswer(env, s, path, size) == (true, Sending(s.(socket := s.socket.(incoming := rest)), path, size, t))
  {
    var header := HeaderFrame(ResumeDoc(name, t));
    var s1 := s.(socket := s.socket.(incoming := header + rest));
    Regroup(CommandFrame(Resume), header, rest);
    AnswerDispatch(env, s, path, size, Resume, header + rest);
    OffsetHeaderReads(s1, path, size, name, t, rest);
    assert s1.(socket := s1.socket.(incoming := rest)) == s.(socket := s.socket.(incoming := rest));
  }

  /** The RESUME header read by `send_file`: the offset in it becomes the cursor. */
  lemma OffsetHeaderReads(s: State, path: string, size: int, name: string, t: nat, rest: seq<byte>)
    requires |Json.Encode(ResumeDoc(name, t))| <= HEADER_SIZE
    requires s.socket.incoming == HeaderFrame(ResumeDoc(name, t)) + rest
    ensures ResumeSending(s, path, size) == (true, Sending(s.(socket := s.socket.(incoming := rest)), path, size, t))
  {
    HeaderRoundTrip(ResumeDoc(name, t), rest);
    assert Json.Get(ResumeDoc(name, t), "transferred_size") == Some(Json.Int(t));
    var s1 := s.(socket := s.socket.(incoming := rest));
    var s2 := s1.(session := s1.session.(path := Some(path), file := Some(Reader(path, 0))));
    assert Sending(s2, path, size, t) == Sending(s1, path, size, t);
  }

  /**
   * The resume handshake end to end: a receiver holding a `.resume` record with
   * offset `t` answers RESUME and that offset, and a sender reading the answer
   * starts streaming its file from `t`.
   */
  lemma ResumeHandshake(renv: Env, q: State, w: string, name: string, size: int, qp: string, qsize: int, t: nat,
                        wire: seq<byte>, senv: Env, s: State, path: string, rest: seq<byte>)
    requires ResumePath(w) in q.files && q.files[ResumePath(w)] == Json.Encode(ResumeRecord(qp, qsize, t))
    requires Writable(q) && |Json.Encode(ResumeDoc(name, t))| <= HEADER_SIZE
    requires ResumeOrRestart(q, w, name, size).1.socket.outgoing == q.socket.outgoing + wire
    requires s.socket.incoming == wire + rest
    requires Writable(s) && path in s.files && t <= |s.files[path]|
    ensures var left := (if NamesDirectory(w) then CommandFrame(Accept) else []) + rest;
      var r := Sending(s.(socket := s.socket.(incoming := left)), path, |s.files[path]|, t);
      AwaitAnswer(senv, s, path, |s.files[path]|) == (true, r) && Streaming(r, path, t)
  {
    SidecarResumes(q, w, name, size, qp, qsize, t);
    var header := HeaderFrame(ResumeDoc(name, t));
    var extra: seq<byte> := if NamesDirectory(w) then CommandFrame(Accept) else [];
    var left := extra + rest;
    WireSlice(q.socket.outgoing, CommandFrame(Resume), header, extra);
    assert wire == (q.socket.outgoing + wire)[|q.socket.outgoing|..];
    assert wire == CommandFrame(Resume) + (header + extra);
    Regroup(CommandFrame(Resume), header + extra, rest);
    Regroup(header, extra, rest);
    Regroup(CommandFrame(Resume), header, left);
    AnswerResumed(senv, s, path, |s.files[path]|, name, t, left);
    SendingStreams(s.(socket := s.socket.(incoming := left)), path, |s.files[path]|, t);
  }

  /** What a writer appended after its earlier output `o`, in three pieces. */
  lemma WireSlice(o: seq<byte>, a: seq<byte>, b: seq<byte>, c: seq<byte>)
    ensures (o + a + b + c)[..|o|] == o
    ensures (o + a + b + c)[|o|..] == a + (b + c)
  {
    assert o + a + b + c == o + (a + (b + c));
  }

  /** What `send_file` leaves for the sender thread is streaming `path` from `t`. */
  lemma SendingStreams(s: State, path: string, size: int, t: nat)
    requires Writable(s) && path in s.files && t <= |s.files[path]|
    ensures Streaming(Sending(s, path, size, t), path, t)
  {
  }

  /**
   * `_handle_resume` reading a header with offset `t >= 0` while a file is
   * open for reading: the file is sought to `t`, the transferred size is `t`,
   * the transfer is live and unpaused, and the sender loop goes on from there;
   * a write that fails inside it ends in a bare ERROR.
   */
  lemma ResumeSeeks(env: Env, s: State, intr: Interrupt, p: string, at: nat, name: string, t: nat, rest: seq<byte>)
    requires |Json.Encode(ResumeDoc(name, t))| <= HEADER_SIZE
    requires s.socket.incoming == HeaderFrame(ResumeDoc(name, t)) + rest
    requires s.session.file == Some(Reader(p, at))
    ensures var s2 := s.(socket := s.socket.(incoming := rest),
                         session := s.session.(file := Some(Reader(p, t)), transferred := t, active := true, paused := false));
      var (raised, s3) := SendLoop(env, s2, intr, 0);
      ResumeStep(env, s, intr) == if raised then FailAndSignal(env, s3, BrokenPipe) else s3
  {
    assert Json.Get(ResumeDoc(name, t), "transferred_size") == Some(Json.Int(t));
    ResumeOffsetRead(env, s, intr, ResumeDoc(name, t), t, rest);
  }

  /** `_handle_resume` reads a whole header and goes on with the offset in it. */
  lemma ResumeOffsetRead(env: Env, s: State, intr: Interrupt, doc: Json.Object, t: int, rest: seq<byte>)
    requires |Json.Encode(doc)| <= HEADER_SIZE && OffsetOf(doc) == Some(t)
    requires s.socket.incoming == HeaderFrame(doc) + rest
    ensures var s1 := s.(socket := s.socket.(incoming := rest));
      ResumeStep(env, s, intr) ==
        if s1.session.file.Some? && t < 0 then FailAndSignal(env, s1, BadOffset)
        else
          var s2 := s1.(session := s1.session.(file := Seek(s1.session.file, t), transferred := t, active := true, paused := false));
          var (raised, s3) := SendLoop(env, s2, intr, 0);
          if raised then FailAndSignal(env, s3, BrokenPipe) else s3
  {
    HeaderRoundTrip(doc, rest);
  }

  /** `_handle_resume` with an open file and a negative offset: the seek fails and the answer is a bare ERROR. */
  lemma ResumeRefusesNegative(env: Env, s: State, intr: Interrupt, name: string, t: int, rest: seq<byte>)
    requires t < 0 && |Json.Encode(ResumeDoc(name, t))| <= HEADER_SIZE
    requires s.socket.incoming == HeaderFrame(ResumeDoc(name, t)) + rest
    requires s.session.file.Some?
    ensures var r := ResumeStep(env, s, intr);
      r.session == s.session.(error := Json.Str(ErrorText(env, BadOffset)), active := false) &&
      r.socket == (if Writable(s) then s.socket.(incoming := rest, outgoing := s.socket.outgoing + CommandFrame(Error))
                   else s.socket.(incoming := rest)) &&
      r.files == s.files
  {
    assert Json.Get(ResumeDoc(name, t), "transferred_size") == Some(Json.Int(t));
    ResumeOffsetRead(env, s, intr, ResumeDoc(name, t), t, rest);
  }

  /**
   * `_handle_resume` left alone on a file it can stream from `t`: the rest of
   * the file from `t` goes out as DATA messages, then COMPLETE and the digest,
   * and the transfer is complete.
   */
  lemma ResumeDelivers(env: Env, s: State, p: string, at: nat, name: string, t: nat, rest: seq<byte>)
    requires |Json.Encode(ResumeDoc(name, t))| <= HEADER_SIZE
    requires s.socket.incoming == HeaderFrame(ResumeDoc(name, t)) + rest
    requires s.session.file == Some(Reader(p, at)) && s.session.path == Some(p)
    requires Writable(s) && !Truthy(s.session.error) && p in s.files && t <= |s.files[p]|
    ensures var r := ResumeStep(env, s, NoInterrupt);
      var content := s.files[p];
      r.socket == s.socket.(incoming := rest, outgoing := s.socket.outgoing + Stream(content, t) + CommandFrame(Complete) +
                                                         HeaderFrame(HashDoc(env.digest(content)))) &&
      r.session == s.session.(transferred := |content|, completed := true, active := false, paused := false, file := None) &&
      r.files == s.files
  {
    var s2 := s.(socket := s.socket.(incoming := rest),
                 session := s.session.(file := Some(Reader(p, t)), transferred := t, active := true, paused := false));
    ResumeSeeks(env, s, NoInterrupt, p, at, name, t, rest);
    assert Streaming(s2, p, t);
    SendLoopDelivers(env, s2, p, t, 0);
  }

  /**
   * `close`: a live transfer is cancelled first. The cancel raises exactly when
   * the socket cannot be written, and then the socket is left as it was;
   * otherwise the socket is closed and the endpoint disconnected, after the
   * cancel message on a live transfer. An idle endpoint only drops its socket.
   */
  lemma CloseCancels(env: Env, s: State)
    ensures var (raised, r) := CloseStep(env, s);
      (raised <==> s.session.active && !Writable(s)) &&
      (raised ==> r.socket == s.socket && !r.connected && r.files == s.files &&
                  r.session == s.session.(active := false, error := Json.Str(CANCEL_MESSAGE), file := None)) &&
      (!s.session.active ==>
         r == if s.socket.open then s.(socket := s.socket.(open := false), connected := false) else s) &&
      (s.session.active && Writable(s) ==>
         r.socket == s.socket.(open := false, outgoing := s.socket.outgoing + CommandFrame(Error) + HeaderFrame(ErrorDoc(CANCEL_MESSAGE))) &&
         r.session == s.session.(active := false, error := Json.Str(CANCEL_MESSAGE), file := None) &&
         !r.connected && r.files == s.files)
  {
    CancelGuard(env, s);
    if s.session.active && Writable(s) {
      CancelSends(env, s);
    }
  }

  // ---------------------------------------------------------------------------
  // The receive loop fed the sender's stream

  /** The receiver is writing `w`, live and unpaused, with the transferred size at `pos`. */
  predicate Receiving(q: State, w: string, pos: nat) {
    q.connected && q.session.active && !q.session.paused && q.session.file == Some(Writer(w)) &&
    q.session.path == Some(w) && q.session.transferred == pos
  }

  /** A DATA message at the head of the stream is handed whole to `Store`. */
  lemma DataDispatch(env: Env, q: State, chunk: seq<byte>, rest: seq<byte>)
    requires q.session.active && !q.session.paused && |chunk| <= CHUNK_SIZE
    requires q.socket.incoming == DataFrame(chunk) + rest
    ensures ReceiveOne(env, q) == Store(env, q.(socket := q.socket.(incoming := rest)), chunk)
  {
    var body := LengthPrefix(|chunk|) + chunk + rest;
    assert q.socket.incoming == CommandFrame(Data) + body;
    Dispatch(env, q, Data, body);
    var q1 := q.(socket := q.socket.(incoming := body));
    DataMessageSplits(chunk, rest);
    var data := chunk + rest;
    assert data[..|chunk|] == chunk && data[|chunk|..] == rest;
  }

  /** The receiver after the DATA messages of the file from `pos` on, with `tail` left to read. */
  function Received(env: Env, q: State, content: seq<byte>, pos: nat, tail: seq<byte>): State
    requires pos <= |content|
    decreases |content| - pos
  {
    if pos == |content| then q
    else
      var chunk := ReadAt(content, pos, CHUNK_SIZE);
      Received(env, Store(env, q.(socket := q.socket.(incoming := Stream(content, pos + |chunk|) + tail)), chunk),
               content, pos + |chunk|, tail)
  }

  /** The receive loop works through the DATA messages one by one, as `Received` does. */
  lemma {:induction false} DrainData(env: Env, q: State, w: string, content: seq<byte>, pos: nat, tail: seq<byte>)
    requires Receiving(q, w, pos) && pos <= |content|
    requires q.socket.incoming == Stream(content, pos) + tail
    ensures ReceiveAll(env, q) == ReceiveAll(env, Received(env, q, content, pos, tail))
    decreases |content| - pos
  {
    if pos == |content| {
      assert Received(env, q, content, pos, tail) == q;
    } else {
      var chunk := ReadAt(content, pos, CHUNK_SIZE);
      var later := Stream(content, pos + |chunk|) + tail;
      var q1 := Store(env, q.(socket := q.socket.(incoming := later)), chunk);
      StoreFacts(env, q.(socket := q.socket.(incoming := later)), w, chunk);
      DrainData(env, q1, w, content, pos + |chunk|, tail);
      DrainReads(env, q, content, pos, tail, chunk, later, q1);
    }
  }

  /** The receive loop reads the next DATA message of the stream, `chunk`, and stores it with `later` left to read. */
  lemma DrainReads(env: Env, q: State, content: seq<byte>, pos: nat, tail: seq<byte>, chunk: seq<byte>, later: seq<byte>, q1: State)
    requires q.connected && q.session.active && !q.session.paused && pos < |content|
    requires q.socket.incoming == Stream(content, pos) + tail
    requires chunk == ReadAt(content, pos, CHUNK_SIZE) && later == Stream(content, pos + |chunk|) + tail
    requires q1 == Store(env, q.(socket := q.socket.(incoming := later)), chunk)
    ensures ReceiveAll(env, q) == ReceiveAll(env, q1)
  {
    StreamAdvance(content, pos, chunk, pos + |chunk|);
    Regroup(DataFrame(chunk), Stream(content, pos + |chunk|), tail);
    DataDispatch(env, q, chunk, later);
    LoopGoesOn(env, q, q1);
  }

  /** While the connection is up, the receive loop carries on from the state one message leaves. */
  lemma LoopGoesOn(env: Env, q: State, q1: State)
    requires q.connected && ReceiveOne(env, q) == q1
    ensures ReceiveAll(env, q) == ReceiveAll(env, q1)
  {
  }

  /** `b` has the same files as `a` except perhaps `w` and its `.resume` record. */
  predicate OthersKept(a: map<string, seq<byte>>, b: map<string, seq<byte>>, w: string) {
    b - {w, ResumePath(w)} == a - {w, ResumePath(w)}
  }

  lemma OthersKeptChain(a: map<string, seq<byte>>, b: map<string, seq<byte>>, c: map<string, seq<byte>>, w: string)
    requires OthersKept(a, b, w) && OthersKept(b, c, w)
    ensures OthersKept(a, c, w)
  {
  }

  /** `Store` on the file open for writing: the chunk is appended and only the `.resume` record changes besides. */
  lemma StoreFacts(env: Env, q: State, w: string, chunk: seq<byte>)
    requires q.session.file == Some(Writer(w)) && q.session.path == Some(w)
    ensures var r := Store(env, q, chunk);
      r.session == q.session.(transferred := q.session.transferred + |chunk|) &&
      r.socket == q.socket && r.connected == q.connected &&
      r.events == q.events + Heard(env, [OnProgress(q.session.transferred + |chunk|)]) &&
      w in r.files && r.files[w] == FileAt(q.files, w) + chunk && OthersKept(q.files, r.files, w)
  {
    assert |ResumePath(w)| > |w|;
  }

  /** After the DATA messages the transfer is still live, at the end of the content, and has read up to `tail`. */
  lemma {:induction false} ReceivedSession(env: Env, q: State, w: string, content: seq<byte>, pos: nat, tail: seq<byte>)
    requires Receiving(q, w, pos) && pos <= |content|
    ensures var r := Received(env, q, content, pos, tail);
      Receiving(r, w, |content|) && r.session == q.session.(transferred := |content|) &&
      r.socket.outgoing == q.socket.outgoing && r.socket.open == q.socket.open && r.socket.peerOpen == q.socket.peerOpen &&
      (pos < |content| ==> r.socket.incoming == tail)
    decreases |content| - pos
  {
    if pos < |content| {
      var chunk := ReadAt(content, pos, CHUNK_SIZE);
      var later := Stream(content, pos + |chunk|) + tail;
      var q1 := Store(env, q.(socket := q.socket.(incoming := later)), chunk);
      StoreKeepsReceiving(env, q, w, pos, chunk, later, q1);
      ReceivedSession(env, q1, w, content, pos + |chunk|, tail);
      StoreFacts(env, q.(socket := q.socket.(incoming := later)), w, chunk);
      if pos + |chunk| == |content| {
        assert Stream(content, pos + |chunk|) == [];
      }
    }
  }

  /** The rest of the content from `pos` is the next chunk followed by the rest after it. */
  lemma ChunkSplits(content: seq<byte>, pos: nat)
    requires pos <= |content|
    ensures var chunk := ReadAt(content, pos, CHUNK_SIZE);
      content[pos..] == chunk + content[pos + |chunk|..]
  {
  }

  /** `Store` on a receiving state, with `later` left to read, leaves it receiving at the offset after the chunk. */
  lemma StoreKeepsReceiving(env: Env, q: State, w: string, pos: nat, chunk: seq<byte>, later: seq<byte>, q1: State)
    requires Receiving(q, w, pos) && q1 == Store(env, q.(socket := q.socket.(incoming := later)), chunk)
    ensures Receiving(q1, w, pos + |chunk|)
  {
    StoreFacts(env, q.(socket := q.socket.(incoming := later)), w, chunk);
  }

  /** After the DATA messages the file has grown by the rest of the content. */
  lemma {:induction false} ReceivedContent(env: Env, q: State, w: string, content: seq<byte>, pos: nat, tail: seq<byte>)
    requires Receiving(q, w, pos) && pos <= |content|
    ensures FileAt(Received(env, q, content, pos, tail).files, w) == FileAt(q.files, w) + content[pos..]
    ensures w in q.files || pos < |content| ==> w in Received(env, q, content, pos, tail).files
    decreases |content| - pos
  {
    if pos == |content| {
      assert FileAt(q.files, w) + content[pos..] == FileAt(q.files, w);
    } else {
      var chunk := ReadAt(content, pos, CHUNK_SIZE);
      var later := Stream(content, pos + |chunk|) + tail;
      var q1 := Store(env, q.(socket := q.socket.(incoming := later)), chunk);
      StoreKeepsReceiving(env, q, w, pos, chunk, later, q1);
      ReceivedContent(env, q1, w, content, pos + |chunk|, tail);
      StoreFacts(env, q.(socket := q.socket.(incoming := later)), w, chunk);
      ChunkSplits(content, pos);
      Regroup(FileAt(q.files, w), chunk, content[pos + |chunk|..]);
    }
  }

  /** The DATA messages change no file but `w` and its `.resume` record. */
  lemma {:induction false} ReceivedOthers(env: Env, q: State, w: string, content: seq<byte>, pos: nat, tail: seq<byte>)
    requires Receiving(q, w, pos) && pos <= |content|
    ensures OthersKept(q.files, Received(env, q, content, pos, tail).files, w)
    decreases |content| - pos
  {
    if pos < |content| {
      var chunk := ReadAt(content, pos, CHUNK_SIZE);
      var later := Stream(content, pos + |chunk|) + tail;
      var q1 := Store(env, q.(socket := q.socket.(incoming := later)), chunk);
      StoreKeepsReceiving(env, q, w, pos, chunk, later, q1);
      ReceivedOthers(env, q1, w, content, pos + |chunk|, tail);
      StoreFacts(env, q.(socket := q.socket.(incoming := later)), w, chunk);
      OthersKeptChain(q.files, q1.files, Received(env, q1, content, pos + |chunk|, tail).files, w);
    }
  }

  /** The callback hears the offset after every chunk, the same reports the sender's callback hears. */
  lemma {:induction false} ReceivedEvents(env: Env, q: State, w: string, content: seq<byte>, pos: nat, tail: seq<byte>)
    requires Receiving(q, w, pos) && pos <= |content|
    ensures Received(env, q, content, pos, tail).events == q.events + Heard(env, Reports(content, pos))
    decreases |content| - pos
  {
    if pos == |content| {
      assert q.events + Heard(env, Reports(content, pos)) == q.events;
    } else {
      var chunk := ReadAt(content, pos, CHUNK_SIZE);
      var later := Stream(content, pos + |chunk|) + tail;
      var q1 := Store(env, q.(socket := q.socket.(incoming := later)), chunk);
      StoreKeepsReceiving(env, q, w, pos, chunk, later, q1);
      ReceivedEvents(env, q1, w, content, pos + |chunk|, tail);
      StoreFacts(env, q.(socket := q.socket.(incoming := later)), w, chunk);
      StreamAdvance(content, pos, chunk, pos + |chunk|);
      HeardRegroups(env, q.events, q1.events, OnProgress(pos + |chunk|), Reports(content, pos + |chunk|), Reports(content, pos));
    }
  }

}
