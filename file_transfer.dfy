/**
 * The class `FileTransfer`: one endpoint whose attributes its methods update
 * in place. Each method is proved to have the effect that the function of the
 * same operation in `Engine` describes, so that what is proved about those
 * functions holds of the class.
 */
module Transfer {
  import opened Wrappers
  import opened Bytes
  import Json
  import opened Frame
  import opened Engine

  class FileTransfer {
    const digest: seq<byte> -> string
    const describe: Fault -> string
    const downloadDir: string
    const hasCallback: bool
    const approve: bool

    var connected: bool
    var socket: Socket
    var session: Session
    /** The file system the endpoint reads and writes. */
    var files: map<string, seq<byte>>
    /** What the callback has been told, in order. */
    var events: seq<Event>

    function Context(): Env {
      Env(digest, describe, downloadDir, hasCallback, approve)
    }

    /** The attributes as a value. */
    function View(): State
      reads this
    {
      State(connected, socket, session, files, events)
    }

    /** `FileTransfer(callback=...)`: no socket yet, no transfer. */
    constructor (digest: seq<byte> -> string, describe: Fault -> string, downloadDir: string,
                 hasCallback: bool, approve: bool, files: map<string, seq<byte>>)
      ensures Context() == Env(digest, describe, downloadDir, hasCallback, approve)
      ensures View() == Initial(files)
    {
      this.digest, this.describe, this.downloadDir := digest, describe, downloadDir;
      this.hasCallback, this.approve := hasCallback, approve;
      connected := false;
      socket := Socket(false, false, [], []);
      session := IdleSession;
      this.files, events := files, [];
    }

    // -------------------------------------------------------------------------
    // Socket, callback and sidecar primitives

    /** `_send_command`. */
    method SendCommand(c: Command)
      modifies this
      ensures View() == Engine.SendCommand(old(View()), c)
    {
      if socket.open && socket.peerOpen {
        socket := socket.(outgoing := socket.outgoing + CommandFrame(c));
      } else {
        connected := false;
      }
    }

    /** `socket.sendall(data)`; `ok` is false where it raises. */
    method SendAll(data: seq<byte>) returns (ok: bool)
      modifies this
      ensures ok == Writable(old(View()))
      ensures View() == if ok then Write(old(View()), data) else old(View())
    {
      ok := socket.open && socket.peerOpen;
      if ok {
        socket := socket.(outgoing := socket.outgoing + data);
      }
    }

    /** `socket.recv(n)`. */
    method Recv(n: nat) returns (data: seq<byte>)
      modifies this
      ensures (data, View()) == Engine.Recv(old(View()), n)
    {
      data := Take(socket.incoming, n);
      socket := socket.(incoming := Drop(socket.incoming, n));
    }

    method Notify(e: Event)
      modifies this
      ensures View() == Emit(Context(), old(View()), e)
    {
      if hasCallback {
        events := events + [e];
      }
    }

    /** `_save_resume_info`. */
    method SaveResumeInfo()
      modifies this
      ensures View() == SaveResume(old(View()))
    {
      if session.path.Some? && session.path.value != "" {
        var p := session.path.value;
        files := files[ResumePath(p) := Json.Encode(ResumeRecord(p, session.fileSize, session.transferred))];
      }
    }

    /** The except blocks that record an exception: `transfer_error = str(e)`, `transfer_active = False`. */
    method Fail(f: Fault)
      modifies this
      ensures View() == Engine.Fail(Context(), old(View()), f)
    {
      session := session.(error := Json.Str(ErrorText(Context(), f)), active := false);
    }

    method FailAndSignal(f: Fault)
      modifies this
      ensures View() == Engine.FailAndSignal(Context(), old(View()), f)
    {
      Fail(f);
      SendCommand(Error);
    }

    // -------------------------------------------------------------------------
    // Receiving side

    method RestartFile(p: string, size: int) returns (fileOpen: bool)
      modifies this
      ensures (fileOpen, View()) == Restart(old(View()), p, size)
    {
      SendCommand(Accept);
      if NamesDirectory(p) {
        return false;
      }
      session := session.(file := Some(Writer(p)), fileSize := size, transferred := 0);
      files := files[p := []];
      fileOpen := true;
    }

    method ResumeOrRestartFile(p: string, name: string, size: int) returns (fileOpen: bool)
      requires ResumePath(p) in files
      modifies this
      ensures (fileOpen, View()) == ResumeOrRestart(old(View()), p, name, size)
    {
      var info := Json.Decode(files[ResumePath(p)]);
      if info.None? {
        fileOpen := RestartFile(p, size);
        return;
      }
      session := session.(resumeInfo := info);
      var offset := OffsetOf(info.value);
      if offset.None? {
        fileOpen := RestartFile(p, size);
        return;
      }
      SendCommand(Resume);
      var ok := SendAll(HeaderFrame(ResumeDoc(name, offset.value)));
      if !ok {
        fileOpen := RestartFile(p, size);
        return;
      }
      session := session.(fileSize := size, transferred := offset.value);
      if NamesDirectory(p) {
        fileOpen := RestartFile(p, size);
        return;
      }
      session := session.(file := Some(Writer(p)));
      files := files[p := FileAt(files, p)];
      fileOpen := true;
    }

    method StartReceivingFile(p: string, name: string, size: int) returns (fileOpen: bool)
      modifies this
      ensures (fileOpen, View()) == StartReceiving(old(View()), p, name, size)
    {
      session := session.(path := Some(p));
      if ResumePath(p) in files {
        fileOpen := ResumeOrRestartFile(p, name, size);
      } else {
        fileOpen := RestartFile(p, size);
      }
      if !fileOpen {
        return;
      }
      session := session.(active := true, paused := false, completed := false, error := Json.Null);
    }

    /** `_handle_request`. */
    method HandleRequest()
      modifies this
      ensures View() == RequestStep(Context(), old(View()))
    {
      var headerData := Recv(HEADER_SIZE);
      var header := Json.Decode(headerData);
      var size := if header.Some? then SizeOf(header.value) else None;
      if size.None? {
        SendCommand(Error);
        return;
      }
      Notify(OnRequest);
      if hasCallback && !approve {
        SendCommand(Reject);
        return;
      }
      var name := Json.Get(header.value, "file_name");
      if !(name.Some? && name.value.Str?) {
        SendCommand(Error);
        return;
      }
      var fileOpen := StartReceivingFile(JoinPath(downloadDir, name.value.s), name.value.s, size.value);
      if !fileOpen {
        SendCommand(Error);
      }
    }

    method StoreChunk(chunk: seq<byte>)
      modifies this
      ensures View() == Store(Context(), old(View()), chunk)
    {
      if !(session.file.Some? && session.file.value.Writer?) {
        FailAndSignal(NotWritable);
        return;
      }
      var p := session.file.value.path;
      files := files[p := FileAt(files, p) + chunk];
      session := session.(transferred := session.transferred + |chunk|);
      ghost var s1 := View();
      SaveResumeInfo();
      assert View() == SaveResume(s1);
      Notify(OnProgress(session.transferred));
    }

    /** `_handle_data`. */
    method HandleData()
      modifies this
      ensures View() == DataStep(Context(), old(View()))
    {
      if !session.active || session.paused {
        return;
      }
      var sizeData := Recv(LENGTH_SIZE);
      var chunk, rest, closed, _ := ReassembleChunk(socket.incoming, FromBigEndian(sizeData));
      socket := socket.(incoming := rest);
      if closed {
        FailAndSignal(ConnectionClosed);
        return;
      }
      StoreChunk(chunk);
    }

    /** `_handle_resume`. */
    method HandleResume(intr: Interrupt)
      modifies this
      ensures View() == ResumeStep(Context(), old(View()), intr)
    {
      var headerData := Recv(HEADER_SIZE);
      var header := Json.Decode(headerData);
      var offset := if header.Some? then OffsetOf(header.value) else None;
      if offset.None? {
        FailAndSignal(Malformed);
        return;
      }
      if session.file.Some? && offset.value < 0 {
        FailAndSignal(BadOffset);
        return;
      }
      session := session.(file := Seek(session.file, offset.value), transferred := offset.value,
                          active := true, paused := false);
      var raised := SendFileData(intr);
      if raised {
        FailAndSignal(BrokenPipe);
      }
    }

    method VerifyFile(p: string, announced: Option<Json.Value>)
      modifies this
      ensures View() == Verify(Context(), old(View()), p, announced)
    {
      var calculated := FileHash(Context(), files, p);
      if announced == Some(Json.Str(calculated)) {
        session := session.(completed := true);
        files := files - {ResumePath(p)};
      } else {
        session := session.(error := Json.Str(MISMATCH_MESSAGE));
      }
      Notify(OnComplete(session.completed));
      session := session.(active := false);
    }

    /** `_handle_complete`. */
    method HandleComplete()
      modifies this
      ensures View() == CompleteStep(Context(), old(View()))
    {
      var headerData := Recv(HEADER_SIZE);
      var header := Json.Decode(headerData);
      if header.None? {
        Fail(Malformed);
        Notify(OnError);
        return;
      }
      session := session.(file := None);
      if session.path.None? {
        Fail(NoPath);
        Notify(OnError);
        return;
      }
      VerifyFile(session.path.value, Json.Get(header.value, "file_hash"));
    }

    /** `_handle_error`. */
    method HandleError()
      modifies this
      ensures View() == ErrorStep(Context(), old(View()))
    {
      var errorData := Recv(HEADER_SIZE);
      var info := Json.Decode(errorData);
      if info.None? {
        return;
      }
      var message := Json.Get(info.value, "error").GetOr(Json.Str(UNKNOWN_ERROR));
      session := session.(error := message, active := false, file := None);
      Notify(OnError);
    }

    /** One pass of `_receive_loop`. */
    method ReceiveCommand()
      modifies this
      ensures View() == ReceiveOne(Context(), old(View()))
    {
      var commandData := Recv(COMMAND_SIZE);
      var text := CommandText(commandData);
      if commandData == [] || text.None? {
        connected := false;
        return;
      }
      match ParseCommand(text.value)
      case Some(Request) => HandleRequest();
      case Some(Data) => HandleData();
      case Some(Resume) => HandleResume(NoInterrupt);
      case Some(Complete) => HandleComplete();
      case Some(Error) => HandleError();
      case _ =>
    }

    /** `_receive_loop`: runs until the connection is lost. */
    method ReceiveLoop()
      modifies this
      ensures View() == ReceiveAll(Context(), old(View()))
    {
      while connected
        invariant ReceiveAll(Context(), View()) == ReceiveAll(Context(), old(View()))
        decreases |socket.incoming| + (if connected then 1 else 0)
      {
        ReceiveCommand();
      }
    }

    // -------------------------------------------------------------------------
    // Sending side

    /** The RESUME answer of `send_file`. */
    method ResumeSendingFile(path: string, size: int) returns (started: bool)
      modifies this
      ensures (started, View()) == ResumeSending(old(View()), path, size)
    {
      var headerData := Recv(HEADER_SIZE);
      var header := Json.Decode(headerData);
      if header.None? {
        return false;
      }
      session := session.(path := Some(path), file := Some(Reader(path, 0)));
      var offset := OffsetOf(header.value);
      if offset.None? || offset.value < 0 {
        return false;
      }
      session := session.(file := Some(Reader(path, offset.value)), fileSize := size, transferred := offset.value,
                          active := true, paused := false, completed := false, error := Json.Null);
      return true;
    }

    /** `send_file`: `started` says whether the sender thread would be started. */
    method SendFile(filePath: string) returns (started: bool)
      modifies this
      ensures (started, View()) == SendFileStep(Context(), old(View()), filePath)
    {
      if !connected || filePath !in files {
        return false;
      }
      var content := files[filePath];
      SendCommand(Request);
      var ok := SendAll(HeaderFrame(RequestDoc(BaseName(filePath), |content|, FileHash(Context(), files, filePath))));
      if !ok {
        return false;
      }
      started := AwaitAnswer(filePath, |content|);
    }

    /** The second half of `send_file`: the answer to REQUEST. */
    method AwaitAnswer(path: string, size: int) returns (started: bool)
      modifies this
      ensures (started, View()) == Engine.AwaitAnswer(Context(), old(View()), path, size)
    {
      var commandData := Recv(COMMAND_SIZE);
      var text := CommandText(commandData);
      if text.None? {
        return false;
      }
      match ParseCommand(text.value)
      case Some(Accept) =>
        session := session.(path := Some(path), file := Some(Reader(path, 0)), fileSize := size,
                            transferred := 0, active := true, paused := false, completed := false, error := Json.Null);
        return true;
      case Some(Resume) =>
        started := ResumeSendingFile(path, size);
      case Some(Reject) =>
        Notify(OnRejected);
        return false;
      case _ =>
        return false;
    }

    /** The except block of `_send_file_data`. */
    method AbortSending(f: Fault) returns (raised: bool)
      modifies this
      ensures (raised, View()) == Abort(Context(), old(View()), f)
    {
      FailAndSignal(f);
      var ok := SendAll(HeaderFrame(ErrorDoc(ErrorText(Context(), f))));
      if !ok {
        return true;
      }
      session := session.(file := None);
      Notify(OnError);
      return false;
    }

    /** The end of `_send_file_data`: COMPLETE and the digest. */
    method FinishSending() returns (raised: bool)
      modifies this
      ensures (raised, View()) == Finish(Context(), old(View()))
    {
      if !(session.active && !session.paused && !Truthy(session.error)) {
        return false;
      }
      SendCommand(Complete);
      if session.path.None? {
        raised := AbortSending(NoPath);
        return;
      }
      var ok := SendAll(HeaderFrame(HashDoc(FileHash(Context(), files, session.path.value))));
      if !ok {
        raised := AbortSending(BrokenPipe);
        return;
      }
      session := session.(completed := true, active := false, file := None);
      Notify(OnComplete(true));
      return false;
    }

    /** The host calling `pause_transfer` or `cancel_transfer` after `sent` chunks. */
    method Intervene(intr: Interrupt, sent: nat)
      modifies this
      ensures View() == ApplyInterrupt(Context(), old(View()), intr, sent)
    {
      match intr
      case NoInterrupt =>
      case PauseAfter(n) =>
        if n == sent {
          var _ := PauseTransfer();
        }
      case CancelAfter(n) =>
        if n == sent {
          var _ := CancelTransfer();
        }
    }

    /** The length and the chunk of one DATA message, the cursor and the progress report. */
    method SendChunkData(p: string, pos: nat, chunk: seq<byte>)
      requires |chunk| <= CHUNK_SIZE && Writable(View())
      modifies this
      ensures View() == SendChunk(Context(), old(View()), p, pos, chunk)
    {
      var _ := SendAll(LengthPrefix(|chunk|));
      var _ := SendAll(chunk);
      assert socket.outgoing == old(socket.outgoing) + (LengthPrefix(|chunk|) + chunk);
      session := session.(transferred := session.transferred + |chunk|, file := Some(Reader(p, pos + |chunk|)));
      Notify(OnProgress(session.transferred));
    }

    /** `_send_file_data`; `raised` says whether an exception left the sender thread. */
    method SendFileData(intr: Interrupt) returns (raised: bool)
      modifies this
      ensures (raised, View()) == SendLoop(Context(), old(View()), intr, 0)
    {
      var sent: nat := 0;
      while true
        invariant SendLoop(Context(), View(), intr, sent) == SendLoop(Context(), old(View()), intr, 0)
        decreases Remaining(View())
      {
        ghost var before := View();
        Intervene(intr, sent);
        if !session.active || session.paused {
          raised := FinishSending();
          return;
        }
        assert View() == before;
        if !(session.file.Some? && session.file.value.Reader?) {
          raised := AbortSending(NotReadable);
          return;
        }
        var p, pos := session.file.value.path, session.file.value.pos;
        var chunk := ReadAt(FileAt(files, p), pos, CHUNK_SIZE);
        if chunk == [] {
          raised := FinishSending();
          return;
        }
        SendCommand(Data);
        if !(socket.open && socket.peerOpen) {
          raised := AbortSending(BrokenPipe);
          return;
        }
        SendChunkData(p, pos, chunk);
        sent := sent + 1;
      }
    }

    /** `pause_transfer`. */
    method PauseTransfer() returns (ok: bool)
      modifies this
      ensures (ok, View()) == PauseStep(Context(), old(View()))
    {
      if !session.active {
        return false;
      }
      session := session.(paused := true);
      SaveResumeInfo();
      Notify(OnPaused);
      return true;
    }

    /** `resume_transfer`; `restartSender` says whether the sender thread is started again. */
    method ResumeTransfer() returns (ok: bool, restartSender: bool)
      modifies this
      ensures (ok, restartSender, View()) == ResumeTransferStep(Context(), old(View()))
    {
      if !session.active || !session.paused {
        return false, false;
      }
      session := session.(paused := false);
      Notify(OnResumed);
      return true, session.file.Some? && session.file.value.Reader?;
    }

    /** `cancel_transfer`. */
    method CancelTransfer() returns (outcome: Outcome)
      modifies this
      ensures (outcome, View()) == CancelStep(Context(), old(View()))
    {
      if !session.active {
        return Returned(false);
      }
      session := session.(active := false, error := Json.Str(CANCEL_MESSAGE), file := None);
      SendCommand(Error);
      var sent := SendAll(HeaderFrame(ErrorDoc(CANCEL_MESSAGE)));
      if !sent {
        return Raised;
      }
      Notify(OnCancelled);
      return Returned(true);
    }

    /** `close`; `raised` says whether the cancel it performs raised. */
    method Close() returns (raised: bool)
      modifies this
      ensures (raised, View()) == CloseStep(Context(), old(View()))
    {
      if session.active {
        var outcome := CancelTransfer();
        if outcome == Raised {
          return true;
        }
      }
      if socket.open {
        socket := socket.(open := false);
        connected := false;
      }
      return false;
    }

    // -------------------------------------------------------------------------
    // The `.progress` helpers

    /** `_save_progress`. */
    method SaveProgress()
      modifies this
      ensures View() == Engine.SaveProgress(old(View()))
    {
      files := files[ProgressPath(session.path) := Json.Encode(ProgressRecord(session.fileSize, session.transferred))];
    }

    /** `_load_progress`. */
    method LoadProgress() returns (v: Json.Value)
      ensures v == Engine.LoadProgress(View())
    {
      var pp := ProgressPath(session.path);
      if pp !in files {
        return Json.Int(0);
      }
      var data := Json.Decode(files[pp]);
      if data.None? {
        return Json.Int(0);
      }
      return Json.Get(data.value, "transferred").GetOr(Json.Int(0));
    }

    /** `_clean_progress`. */
    method CleanProgress()
      modifies this
      ensures View() == Engine.CleanProgress(old(View()))
    {
      var pp := ProgressPath(session.path);
      if pp in files {
        files := files - {pp};
      }
    }
  }
}
