/**
 * One endpoint of the file-transfer protocol as a value, and what each of its
 * operations does to that value.
 *
 * The socket is a pair of byte streams: `incoming` holds what the peer has
 * sent and not yet been read, `outgoing` what this endpoint has written. A
 * write succeeds while the socket exists and the peer still reads
 * (`Writable`). The file system is a map from path to contents; the
 * `.resume` and `.progress` sidecars live in it beside the files themselves.
 * The callback is reduced to the list of event kinds it was given.
 *
 * The class `Transfer.FileTransfer` performs these operations in place; each
 * of its methods is proved to have the effect the function here describes.
 */
module Engine {
  import opened Wrappers
  import opened Bytes
  import Json
  import opened Frame

  /** An open file: read from a cursor (`'rb'`) or written at the end (`'wb'`, `'ab'`). */
  datatype Handle = Reader(path: string, pos: nat) | Writer(path: string)

  /** The kinds of notification handed to the callback. */
  datatype Event =
    | OnRequest
    | OnProgress(transferred: int)
    | OnComplete(success: bool)
    | OnRejected
    | OnPaused
    | OnResumed
    | OnCancelled
    | OnError

  /** The exceptions the engine catches, by cause. */
  datatype Fault =
    | ConnectionClosed   // a read came back empty in the middle of a chunk
    | BrokenPipe         // `sendall` on a socket that cannot be written
    | Malformed          // a header that does not decode
    | NotReadable        // `read` without an open file opened for reading
    | NotWritable        // `write` without an open file opened for writing
    | BadOffset          // `seek` to a negative offset
    | NoPath             // hashing while no file path is set

  /**
   * What the endpoint depends on but does not own: the digest (MD5 in the
   * source), the text Python gives each exception, the download directory
   * (`<cwd>/downloads`), whether a callback is installed and what it answers
   * to a transfer request.
   */
  datatype Env = Env(
    digest: seq<byte> -> string,
    describe: Fault -> string,
    downloadDir: string,
    hasCallback: bool,
    approve: bool)

  /** `self.socket`: `open` is false where the attribute is `None`; `peerOpen` says whether the peer still reads. */
  datatype Socket = Socket(open: bool, peerOpen: bool, incoming: seq<byte>, outgoing: seq<byte>)

  /**
   * The transfer attributes of `FileTransfer` (`transfer_active`,
   * `transfer_paused`, `transfer_completed`, `transfer_error`, `file_size`,
   * `transferred_size`, `current_file`, `current_file_path`, `resume_info`).
   * `error` is `Null` where Python holds `None`.
   */
  datatype Session = Session(
    active: bool,
    paused: bool,
    completed: bool,
    error: Json.Value,
    fileSize: int,
    transferred: int,
    file: Option<Handle>,
    path: Option<string>,
    resumeInfo: Option<Json.Object>)

  /** An endpoint: its connection flag, its socket, its transfer, the file system and the callback's log. */
  datatype State = State(
    connected: bool,
    socket: Socket,
    session: Session,
    files: map<string, seq<byte>>,
    events: seq<Event>)

  /** The host's interventions while the sender loop runs: pause or cancel after `n` chunks. */
  datatype Interrupt = NoInterrupt | PauseAfter(n: nat) | CancelAfter(n: nat)

  /** The result of an operation that may raise out of the engine. */
  datatype Outcome = Returned(ok: bool) | Raised

  const CLOSED_MESSAGE: string := "连接已关闭"
  const MISMATCH_MESSAGE: string := "文件校验失败"
  const CANCEL_MESSAGE: string := "用户取消传输"
  const UNKNOWN_ERROR: string := "未知错误"

  const IdleSession: Session := Session(false, false, false, Json.Null, 0, 0, None, None, None)

  /** The state of a freshly constructed `FileTransfer`, before any socket exists. */
  function Initial(files: map<string, seq<byte>>): State {
    State(false, Socket(false, false, [], []), IdleSession, files, [])
  }

  // ---------------------------------------------------------------------------
  // Primitives

  predicate Writable(s: State) {
    s.socket.open && s.socket.peerOpen
  }

  /** `r` has read exactly what `s` had read, keeps the socket, and does not reconnect. */
  predicate SameLink(s: State, r: State) {
    r.socket.incoming == s.socket.incoming && r.socket.open == s.socket.open && (r.connected ==> s.connected)
  }

  /** `r` has read no more than `s` and kept the socket, and does not reconnect. */
  predicate Consumes(s: State, r: State) {
    |r.socket.incoming| <= |s.socket.incoming| && r.socket.open == s.socket.open && (r.connected ==> s.connected)
  }

  /** `str(e)` for a caught exception. */
  function ErrorText(env: Env, f: Fault): string {
    if f == ConnectionClosed then CLOSED_MESSAGE else env.describe(f)
  }

  /** Python truthiness of a document value. */
  predicate Truthy(v: Json.Value) {
    !(v == Json.Null || v == Json.Str("") || v == Json.Int(0))
  }

  /** A successful `sendall(data)`. */
  function Write(s: State, data: seq<byte>): (r: State)
    ensures SameLink(s, r)
  {
    s.(socket := s.socket.(outgoing := s.socket.outgoing + data))
  }

  /** `_send_command`: a write that fails is logged and marks the connection lost. */
  function SendCommand(s: State, c: Command): (r: State)
    ensures SameLink(s, r)
  {
    if Writable(s) then Write(s, CommandFrame(c)) else s.(connected := false)
  }

  /** `socket.recv(n)`. */
  function Recv(s: State, n: nat): (seq<byte>, State) {
    (Take(s.socket.incoming, n), s.(socket := s.socket.(incoming := Drop(s.socket.incoming, n))))
  }

  /** `if self.callback: self.callback(kind, ...)`. */
  function Emit(env: Env, s: State, e: Event): (r: State)
    ensures SameLink(s, r)
  {
    if env.hasCallback then s.(events := s.events + [e]) else s
  }

  function FileAt(files: map<string, seq<byte>>, p: string): seq<byte> {
    if p in files then files[p] else []
  }

  /** `_calculate_file_hash`: the digest of the file, or `""` when it does not exist. */
  function FileHash(env: Env, files: map<string, seq<byte>>, p: string): (r: string)
    ensures p in files ==> r == env.digest(files[p])
    ensures p !in files ==> r == ""
  {
    if p in files then env.digest(files[p]) else ""
  }

  function ResumePath(p: string): string {
    p + ".resume"
  }

  function RequestDoc(name: string, size: int, hash: string): Json.Object {
    [Json.Member("file_name", Json.Str(name)), Json.Member("file_size", Json.Int(size)),
     Json.Member("file_hash", Json.Str(hash))]
  }

  function ResumeDoc(name: string, transferred: int): Json.Object {
    [Json.Member("file_name", Json.Str(name)), Json.Member("transferred_size", Json.Int(transferred))]
  }

  function HashDoc(hash: string): Json.Object {
    [Json.Member("file_hash", Json.Str(hash))]
  }

  function ErrorDoc(message: string): Json.Object {
    [Json.Member("error", Json.Str(message))]
  }

  /** The `.resume` record; its wall-clock `timestamp` member is not modelled. */
  function ResumeRecord(p: string, size: int, transferred: int): Json.Object {
    [Json.Member("file_path", Json.Str(p)), Json.Member("file_size", Json.Int(size)),
     Json.Member("transferred_size", Json.Int(transferred))]
  }

  /** `doc.get('transferred_size', 0)`, when it is an integer. */
  function OffsetOf(doc: Json.Object): (r: Option<int>)
    ensures Json.Get(doc, "transferred_size") == None ==> r == Some(0)
    ensures forall t :: Json.Get(doc, "transferred_size") == Some(Json.Int(t)) ==> r == Some(t)
    ensures r.Some? ==> Json.Get(doc, "transferred_size") in {None, Some(Json.Int(r.value))}
  {
    match Json.Get(doc, "transferred_size")
    case None => Some(0)
    case Some(Int(t)) => Some(t)
    case Some(_) => None
  }

  /** `doc.get('file_size')`, when it is an integer. */
  function SizeOf(doc: Json.Object): (r: Option<int>)
    ensures r.Some? <==> Json.Get(doc, "file_size").Some? && Json.Get(doc, "file_size").value.Int?
    ensures r.Some? ==> Json.Get(doc, "file_size") == Some(Json.Int(r.value))
  {
    match Json.Get(doc, "file_size")
    case Some(Int(n)) => Some(n)
    case _ => None
  }

  /** `os.path.join(dir, name)` on POSIX: an absolute `name` replaces `dir`. */
  function JoinPath(dir: string, name: string): string {
    if |name| > 0 && name[0] == '/' then name
    else if dir == [] || dir[|dir| - 1] == '/' then dir + name
    else dir + "/" + name
  }

  /** `os.path.basename(p)`: what follows the last `/`. */
  function BaseName(p: string): (r: string)
    ensures |r| <= |p| && r == p[|p| - |r|..]
    ensures forall i :: 0 <= i < |r| ==> r[i] != '/'
    ensures |r| == |p| || p[|p| - |r| - 1] == '/'
  {
    if p == [] || p[|p| - 1] == '/' then [] else BaseName(p[..|p| - 1]) + [p[|p| - 1]]
  }

  /** `_save_resume_info`: nothing without a (non-empty) current path. */
  function SaveResume(s: State): (r: State)
    ensures SameLink(s, r)
  {
    match s.session.path
    case None => s
    case Some(p) =>
      if p == "" then s
      else s.(files := s.files[ResumePath(p) := Json.Encode(ResumeRecord(p, s.session.fileSize, s.session.transferred))])
  }

  /** Moving the cursor of a read handle; `seek` on a write handle does not affect appends. */
  function Seek(h: Option<Handle>, t: int): Option<Handle> {
    match h
    case Some(Reader(p, _)) => if t >= 0 then Some(Reader(p, t)) else h
    case _ => h
  }

  /** Record a caught exception in `transfer_error` and stop the transfer. */
  function Fail(env: Env, s: State, f: Fault): (r: State)
    ensures SameLink(s, r)
  {
    s.(session := s.session.(error := Json.Str(ErrorText(env, f)), active := false))
  }

  /** The error path of `_handle_data` and `_handle_resume`: record the failure, answer with a bare ERROR. */
  function FailAndSignal(env: Env, s: State, f: Fault): (r: State)
    ensures SameLink(s, r)
  {
    SendCommand(Fail(env, s, f), Error)
  }

  // ---------------------------------------------------------------------------
  // Receiving side: the handlers the receive loop dispatches to

  /**
   * Whether `p` names a directory rather than a file: its last component is
   * empty (it ends in `/`), `.` or `..`. `open` raises on such a path.
   */
  predicate NamesDirectory(p: string) {
    var b := BaseName(p);
    b == "" || b == "." || b == ".."
  }

  /**
   * Open `p` for writing from scratch (`'wb'`) after answering ACCEPT. The
   * first component is false when the `open` raises, on a directory path;
   * the exception then leaves the handler with only ACCEPT sent.
   */
  function Restart(s: State, p: string, size: int): (r: (bool, State))
    ensures SameLink(s, r.1)
  {
    var s1 := SendCommand(s, Accept);
    if NamesDirectory(p) then (false, s1)
    else (true, s1.(session := s1.session.(file := Some(Writer(p)), fileSize := size, transferred := 0), files := s1.files[p := []]))
  }

  /**
   * A `.resume` sidecar exists for `p`: answer RESUME with the recorded offset
   * and open `p` for appending, or start over when any of that raises. The
   * first component is false when the file could not be opened at all.
   */
  function ResumeOrRestart(s: State, p: string, name: string, size: int): (r: (bool, State))
    requires ResumePath(p) in s.files
    ensures SameLink(s, r.1)
  {
    match Json.Decode(s.files[ResumePath(p)])
    case None => Restart(s, p, size)
    case Some(info) =>
      var s1 := s.(session := s.session.(resumeInfo := Some(info)));
      match OffsetOf(info)
      case None => Restart(s1, p, size)
      case Some(t) =>
        var s2 := SendCommand(s1, Resume);
        if !Writable(s2) then Restart(s2, p, size)
        else
          var s3 := Write(s2, HeaderFrame(ResumeDoc(name, t)));
          var s4 := s3.(session := s3.session.(fileSize := size, transferred := t));
          if NamesDirectory(p) then Restart(s4, p, size)
          else (true, s4.(session := s4.session.(file := Some(Writer(p))), files := s4.files[p := FileAt(s4.files, p)]))
  }

  /**
   * The accepted branch of `_handle_request`: resume or restart `p`, then mark
   * the transfer live. When `p` cannot be opened the first component is false
   * and the transfer is not started.
   */
  function StartReceiving(s: State, p: string, name: string, size: int): (r: (bool, State))
    ensures SameLink(s, r.1)
  {
    var s1 := s.(session := s.session.(path := Some(p)));
    var (fileOpen, s2) := if ResumePath(p) in s1.files then ResumeOrRestart(s1, p, name, size) else Restart(s1, p, size);
    if !fileOpen then (false, s2)
    else (true, s2.(session := s2.session.(active := true, paused := false, completed := false, error := Json.Null)))
  }

  /** `_handle_request`. Its error path answers with a bare ERROR command, no header. */
  function RequestStep(env: Env, s: State): (r: State)
    ensures Consumes(s, r)
  {
    var (frame, s1) := Recv(s, HEADER_SIZE);
    match Json.Decode(frame)
    case None => SendCommand(s1, Error)
    case Some(doc) =>
      match SizeOf(doc)
      case None => SendCommand(s1, Error)
      case Some(size) =>
        var s2 := Emit(env, s1, OnRequest);
        if env.hasCallback && !env.approve then SendCommand(s2, Reject)
        else
          match Json.Get(doc, "file_name")
          case Some(Str(name)) =>
            var (fileOpen, s3) := StartReceiving(s2, JoinPath(env.downloadDir, name), name, size);
            if fileOpen then s3 else SendCommand(s3, Error)
          case _ => SendCommand(s2, Error)
  }

  /** Append a received chunk to the file open for writing, then save the sidecar and report progress. */
  function Store(env: Env, s: State, chunk: seq<byte>): (r: State)
    ensures SameLink(s, r)
  {
    match s.session.file
    case Some(Writer(p)) =>
      var s1 := s.(files := s.files[p := FileAt(s.files, p) + chunk],
                   session := s.session.(transferred := s.session.transferred + |chunk|));
      Emit(env, SaveResume(s1), OnProgress(s1.session.transferred))
    case _ => FailAndSignal(env, s, NotWritable)
  }

  /** `_handle_data`. */
  function DataStep(env: Env, s: State): (r: State)
    ensures Consumes(s, r)
  {
    if !s.session.active || s.session.paused then s
    else
      var (prefix, s1) := Recv(s, LENGTH_SIZE);
      var size := FromBigEndian(prefix);
      var data := s1.socket.incoming;
      if |data| < size then FailAndSignal(env, s1.(socket := s1.socket.(incoming := [])), ConnectionClosed)
      else Store(env, s1.(socket := s1.socket.(incoming := data[size..])), data[..size])
  }

  /** `_handle_resume`: set the offset and start the sender loop. */
  function ResumeStep(env: Env, s: State, intr: Interrupt): (r: State)
    ensures Consumes(s, r)
  {
    var (frame, s1) := Recv(s, HEADER_SIZE);
    match Json.Decode(frame)
    case None => FailAndSignal(env, s1, Malformed)
    case Some(doc) =>
      match OffsetOf(doc)
      case None => FailAndSignal(env, s1, Malformed)
      case Some(t) =>
        if s1.session.file.Some? && t < 0 then FailAndSignal(env, s1, BadOffset)
        else
          var s2 := s1.(session := s1.session.(file := Seek(s1.session.file, t), transferred := t,
                                               active := true, paused := false));
          var (raised, s3) := SendLoop(env, s2, intr, 0);
          if raised then FailAndSignal(env, s3, BrokenPipe) else s3
  }

  /** `_handle_complete`: the transfer succeeds only when the digest of the file matches. */
  function CompleteStep(env: Env, s: State): (r: State)
    ensures Consumes(s, r)
  {
    var (frame, s1) := Recv(s, HEADER_SIZE);
    match Json.Decode(frame)
    case None => Emit(env, Fail(env, s1, Malformed), OnError)
    case Some(doc) =>
      var s2 := s1.(session := s1.session.(file := None));
      match s2.session.path
      case None => Emit(env, Fail(env, s2, NoPath), OnError)
      case Some(p) => Verify(env, s2, p, Json.Get(doc, "file_hash"))
  }

  /** The digest comparison of `_handle_complete`, given the path and the `file_hash` the sender announced. */
  function Verify(env: Env, s: State, p: string, announced: Option<Json.Value>): (r: State)
    ensures SameLink(s, r)
  {
    var matched := announced == Some(Json.Str(FileHash(env, s.files, p)));
    var s1 := if matched then s.(session := s.session.(completed := true), files := s.files - {ResumePath(p)})
              else s.(session := s.session.(error := Json.Str(MISMATCH_MESSAGE)));
    var s2 := Emit(env, s1, OnComplete(s1.session.completed));
    s2.(session := s2.session.(active := false))
  }

  /** `_handle_error`: a header that does not decode is only logged. */
  function ErrorStep(env: Env, s: State): (r: State)
    ensures Consumes(s, r)
  {
    var (frame, s1) := Recv(s, HEADER_SIZE);
    match Json.Decode(frame)
    case None => s1
    case Some(doc) =>
      var message := Json.Get(doc, "error").GetOr(Json.Str(UNKNOWN_ERROR));
      Emit(env, s1.(session := s1.session.(error := message, active := false, file := None)), OnError)
  }

  /** One pass of `_receive_loop`. */
  function ReceiveOne(env: Env, s: State): (r: State)
    ensures Consumes(s, r)
    ensures r.connected ==> |r.socket.incoming| < |s.socket.incoming|
  {
    var (frame, s1) := Recv(s, COMMAND_SIZE);
    if frame == [] then s1.(connected := false)
    else
      match CommandText(frame)
      case None => s1.(connected := false)
      case Some(text) =>
        match ParseCommand(text)
        case Some(Request) => RequestStep(env, s1)
        case Some(Data) => DataStep(env, s1)
        case Some(Resume) => ResumeStep(env, s1, NoInterrupt)
        case Some(Complete) => CompleteStep(env, s1)
        case Some(Error) => ErrorStep(env, s1)
        case _ => s1
  }

  /** `_receive_loop`: dispatch commands while connected. */
  function ReceiveAll(env: Env, s: State): (r: State)
    ensures !r.connected
    decreases |s.socket.incoming| + (if s.connected then 1 else 0)
  {
    if !s.connected then s else ReceiveAll(env, ReceiveOne(env, s))
  }

  // ---------------------------------------------------------------------------
  // Sending side

  /** The bytes left to read from the current file. */
  function Remaining(s: State): nat {
    match s.session.file
    case Some(Reader(p, pos)) => if pos < |FileAt(s.files, p)| then |FileAt(s.files, p)| - pos else 0
    case _ => 0
  }

  /** `pause_transfer`. */
  function PauseStep(env: Env, s: State): (r: (bool, State))
    ensures SameLink(s, r.1)
  {
    if !s.session.active then (false, s)
    else (true, Emit(env, SaveResume(s.(session := s.session.(paused := true))), OnPaused))
  }

  /** `resume_transfer`: the second result says whether the sender thread is restarted. */
  function ResumeTransferStep(env: Env, s: State): (bool, bool, State) {
    if !s.session.active || !s.session.paused then (false, false, s)
    else
      var s1 := Emit(env, s.(session := s.session.(paused := false)), OnResumed);
      (true, s1.session.file.Some? && s1.session.file.value.Reader?, s1)
  }

  /** `cancel_transfer`; the error header's `sendall` raises out of it when the socket cannot be written. */
  function CancelStep(env: Env, s: State): (r: (Outcome, State))
    ensures SameLink(s, r.1)
  {
    if !s.session.active then (Returned(false), s)
    else
      var s1 := SendCommand(s.(session := s.session.(active := false, error := Json.Str(CANCEL_MESSAGE), file := None)), Error);
      if !Writable(s1) then (Raised, s1)
      else (Returned(true), Emit(env, Write(s1, HeaderFrame(ErrorDoc(CANCEL_MESSAGE))), OnCancelled))
  }

  function ApplyInterrupt(env: Env, s: State, intr: Interrupt, sent: nat): (r: State)
    ensures r == s || !r.session.active || r.session.paused
    ensures SameLink(s, r)
  {
    match intr
    case NoInterrupt => s
    case PauseAfter(n) => if n == sent then PauseStep(env, s).1 else s
    case CancelAfter(n) => if n == sent then CancelStep(env, s).1 else s
  }

  /**
   * The except block of `_send_file_data`: record the failure, send ERROR and
   * an error header. When that header cannot be written the exception leaves
   * the sender (first result `true`) with the file still open.
   */
  function Abort(env: Env, s: State, f: Fault): (r: (bool, State))
    ensures SameLink(s, r.1)
    ensures !r.1.session.active
  {
    var s1 := SendCommand(Fail(env, s, f), Error);
    if !Writable(s1) then (true, s1)
    else
      var s2 := Write(s1, HeaderFrame(ErrorDoc(ErrorText(env, f))));
      (false, Emit(env, s2.(session := s2.session.(file := None)), OnError))
  }

  /** After the loop of `_send_file_data`: COMPLETE and the digest, only for a live, unpaused, error-free transfer. */
  function Finish(env: Env, s: State): (r: (bool, State))
    ensures SameLink(s, r.1)
  {
    if s.session.active && !s.session.paused && !Truthy(s.session.error) then
      var s1 := SendCommand(s, Complete);
      match s1.session.path
      case None => Abort(env, s1, NoPath)
      case Some(p) =>
        if !Writable(s1) then Abort(env, s1, BrokenPipe)
        else
          var s2 := Write(s1, HeaderFrame(HashDoc(FileHash(env, s1.files, p))));
          (false, Emit(env, s2.(session := s2.session.(completed := true, active := false, file := None)), OnComplete(true)))
    else (false, s)
  }

  /**
   * `_send_file_data`, from the `sent`-th chunk on: read `CHUNK_SIZE` at a
   * time, send DATA, the length and the chunk, until the file ends or the
   * transfer stops being active and unpaused. The first result says whether
   * an exception left the sender.
   */
  function SendLoop(env: Env, s: State, intr: Interrupt, sent: nat): (r: (bool, State))
    ensures SameLink(s, r.1)
    decreases Remaining(s)
  {
    var s1 := ApplyInterrupt(env, s, intr, sent);
    if !s1.session.active || s1.session.paused then Finish(env, s1)
    else
      match s1.session.file
      case Some(Reader(p, pos)) =>
        var chunk := ReadAt(FileAt(s1.files, p), pos, CHUNK_SIZE);
        if chunk == [] then Finish(env, s1)
        else
          var s2 := SendCommand(s1, Data);
          if !Writable(s2) then Abort(env, s2, BrokenPipe)
          else SendLoop(env, SendChunk(env, s2, p, pos, chunk), intr, sent + 1)
      case _ => Abort(env, s1, NotReadable)
  }

  /** The rest of one pass of the sender loop after DATA: the length, the chunk, the cursor, the progress report. */
  function SendChunk(env: Env, s: State, p: string, pos: nat, chunk: seq<byte>): (r: State)
    requires |chunk| <= CHUNK_SIZE
    ensures SameLink(s, r)
    ensures r.files == s.files && r.session.file == Some(Reader(p, pos + |chunk|))
  {
    var s1 := Write(s, LengthPrefix(|chunk|) + chunk);
    var s2 := s1.(session := s1.session.(transferred := s1.session.transferred + |chunk|, file := Some(Reader(p, pos + |chunk|))));
    Emit(env, s2, OnProgress(s2.session.transferred))
  }

  /** `send_file`: the result says whether the sender thread starts. */
  function SendFileStep(env: Env, s: State, filePath: string): (bool, State) {
    if !s.connected || filePath !in s.files then (false, s)
    else
      var content := s.files[filePath];
      var s1 := SendCommand(s, Request);
      if !Writable(s1) then (false, s1)
      else
        var s2 := Write(s1, HeaderFrame(RequestDoc(BaseName(filePath), |content|, FileHash(env, s1.files, filePath))));
        AwaitAnswer(env, s2, filePath, |content|)
  }

  /** The second half of `send_file`: read the peer's answer to REQUEST and act on it. */
  function AwaitAnswer(env: Env, s: State, path: string, size: int): (bool, State) {
    var (frame, s1) := Recv(s, COMMAND_SIZE);
    match CommandText(frame)
    case None => (false, s1)
    case Some(text) =>
      match ParseCommand(text)
      case Some(Accept) => (true, Sending(s1, path, size, 0))
      case Some(Resume) => ResumeSending(s1, path, size)
      case Some(Reject) => (false, Emit(env, s1, OnRejected))
      case _ => (false, s1)
  }

  /** The state `send_file` leaves for the sender thread: `path` open for reading at `t`. */
  function Sending(s: State, path: string, size: int, t: nat): State {
    s.(session := s.session.(path := Some(path), file := Some(Reader(path, t)), fileSize := size, transferred := t,
                             active := true, paused := false, completed := false, error := Json.Null))
  }

  /** The RESUME answer of `send_file`: read the offset, open the file and seek to it. */
  function ResumeSending(s: State, path: string, size: int): (bool, State) {
    var (header, s1) := Recv(s, HEADER_SIZE);
    match Json.Decode(header)
    case None => (false, s1)
    case Some(doc) =>
      var s2 := s1.(session := s1.session.(path := Some(path), file := Some(Reader(path, 0))));
      match OffsetOf(doc)
      case Some(t) => if t < 0 then (false, s2) else (true, Sending(s2, path, size, t))
      case None => (false, s2)
  }

  /** `close`: cancel a live transfer, then drop the socket; a cancel that raises leaves the socket as it was. */
  function CloseStep(env: Env, s: State): (bool, State) {
    var (outcome, s1) := if s.session.active then CancelStep(env, s) else (Returned(false), s);
    if outcome == Raised then (true, s1)
    else if s1.socket.open then (false, s1.(socket := s1.socket.(open := false), connected := false))
    else (false, s1)
  }

  // ---------------------------------------------------------------------------
  // The `.progress` helpers

  /** `f'{self.current_file_path}.progress'`; a missing path formats as `None`. */
  function ProgressPath(path: Option<string>): string {
    (match path case None => "None" case Some(p) => p) + ".progress"
  }

  /** The `.progress` record; its `timestamp` member is not modelled. */
  function ProgressRecord(size: int, transferred: int): Json.Object {
    [Json.Member("file_size", Json.Int(size)), Json.Member("transferred", Json.Int(transferred))]
  }

  function SaveProgress(s: State): State {
    s.(files := s.files[ProgressPath(s.session.path) := Json.Encode(ProgressRecord(s.session.fileSize, s.session.transferred))])
  }

  /** `_load_progress`: the recorded `transferred`, or 0 when the file is missing, unreadable or lacks it. */
  function LoadProgress(s: State): Json.Value {
    var pp := ProgressPath(s.session.path);
    if pp !in s.files then Json.Int(0)
    else
      match Json.Decode(s.files[pp])
      case None => Json.Int(0)
      case Some(doc) => Json.Get(doc, "transferred").GetOr(Json.Int(0))
  }

  function CleanProgress(s: State): State {
    var pp := ProgressPath(s.session.path);
    if pp in s.files then s.(files := s.files - {pp}) else s
  }
}
