/**
 * `FrpConnection`: the object that writes `frpc.ini`, starts frpc and follows
 * its output. The process itself is left out: whether `frpc.exe` exists and
 * whether launching it raises are parameters of `StartFrpc`, and the lines the
 * process prints before it exits are the parameter of `MonitorFrpc`. The status
 * callback is recorded as the list of statuses it was given.
 */
module Frp {
  import opened Wrappers
  import opened Bytes
  import opened FrpText
  import Engine

  // ---------------------------------------------------------------------------
  // What `_monitor_frpc` keeps track of

  /** The fields `_monitor_frpc` updates, and the statuses the callback was given. */
  datatype Watch = Watch(connected: bool, peerAddr: Option<string>, peerPort: Option<int>, status: string, heard: seq<string>)

  /** `_update_status`: the new status, passed on to the callback when one is set. */
  function Post(w: Watch, status: string, callback: bool): (r: Watch)
    ensures r.status == status && r.heard == (if callback then w.heard + [status] else w.heard)
    ensures r.connected == w.connected && r.peerAddr == w.peerAddr && r.peerPort == w.peerPort
  {
    w.(status := status, heard := if callback then w.heard + [status] else w.heard)
  }

  /** A line of output that, once stripped, announces the P2P connection. */
  predicate Announces(raw: string) {
    var line := Strip(raw);
    line != [] && Classify(line) == PeerConnected
  }

  /** One line of frpc's output read by `_monitor_frpc`. */
  function Observe(w: Watch, raw: string, callback: bool): Watch {
    var line := Strip(raw);
    if line == [] then w
    else
      var signal := Classify(line);
      match StatusFor(signal, line)
      case None => w
      case Some(status) =>
        var w1 := Post(w, status, callback);
        if signal != PeerConnected then w1
        else
          var peer := PeerAddress(line);
          w1.(connected := true,
              peerAddr := if peer.0.Some? then peer.0 else w.peerAddr,
              peerPort := if peer.1.Some? then peer.1 else w.peerPort)
  }

  /** The lines read so far, in order. */
  function ObserveAll(w: Watch, lines: seq<string>, callback: bool): Watch
    decreases |lines|
  {
    if lines == [] then w
    else Observe(ObserveAll(w, lines[..|lines| - 1], callback), lines[|lines| - 1], callback)
  }

  /** The status a line posts, if any. */
  function PostedBy(raw: string): Option<string> {
    var line := Strip(raw);
    if line == [] then None else StatusFor(Classify(line), line)
  }

  /** The statuses the lines post, in order: an independent account of `_update_status` calls. */
  function Posted(lines: seq<string>): seq<string>
    decreases |lines|
  {
    if lines == [] then []
    else
      var init := Posted(lines[..|lines| - 1]);
      match PostedBy(lines[|lines| - 1])
      case Some(s) => init + [s]
      case None => init
  }

  /** An observed line posts exactly the status `PostedBy` names and nothing else. */
  lemma ObservePosts(w: Watch, raw: string, callback: bool)
    ensures var r := Observe(w, raw, callback);
      match PostedBy(raw)
      case Some(s) => r.status == s && r.heard == (if callback then w.heard + [s] else w.heard)
      case None => r.status == w.status && r.heard == w.heard
  {
  }

  /** Reading line `i` after the lines before it. */
  lemma ObserveAllNext(w: Watch, lines: seq<string>, i: nat, callback: bool)
    requires i < |lines|
    ensures ObserveAll(w, lines[..i + 1], callback) == Observe(ObserveAll(w, lines[..i], callback), lines[i], callback)
  {
    assert lines[..i + 1][..i] == lines[..i];
  }

  /** The callback hears every status the lines post, once each and in order. */
  lemma {:induction false} ObserveAllHeard(w: Watch, lines: seq<string>, callback: bool)
    ensures ObserveAll(w, lines, callback).heard == if callback then w.heard + Posted(lines) else w.heard
    decreases |lines|
  {
    if lines != [] {
      var init := lines[..|lines| - 1];
      var last := lines[|lines| - 1];
      ObserveAllHeard(w, init, callback);
      ObservePosts(ObserveAll(w, init, callback), last, callback);
      if callback && PostedBy(last).Some? {
        assert w.heard + Posted(init) + [PostedBy(last).value] == w.heard + Posted(lines);
      }
    }
  }

  /** The status shown is the last one the lines post, or the earlier one when none posts anything. */
  lemma {:induction false} ObserveAllStatus(w: Watch, lines: seq<string>, callback: bool)
    ensures var posted := Posted(lines);
      ObserveAll(w, lines, callback).status == if posted == [] then w.status else posted[|posted| - 1]
    decreases |lines|
  {
    if lines != [] {
      var init := lines[..|lines| - 1];
      var last := lines[|lines| - 1];
      ObserveAllStatus(w, init, callback);
      ObservePosts(ObserveAll(w, init, callback), last, callback);
      if PostedBy(last).Some? {
        assert Posted(lines) == Posted(init) + [PostedBy(last).value];
      } else {
        assert Posted(lines) == Posted(init);
      }
    }
  }

  /** A line sets `connected` exactly when it announces the connection, and never clears it. */
  lemma ObserveConnects(w: Watch, raw: string, callback: bool)
    ensures Observe(w, raw, callback).connected <==> w.connected || Announces(raw)
  {
  }

  /** Some line announces the connection. */
  predicate AnyAnnounces(lines: seq<string>)
    decreases |lines|
  {
    lines != [] && (AnyAnnounces(lines[..|lines| - 1]) || Announces(lines[|lines| - 1]))
  }

  /** A line that announces the connection makes `AnyAnnounces` hold. */
  lemma {:induction false} AnnouncedLine(lines: seq<string>, k: nat)
    requires k < |lines| && Announces(lines[k])
    ensures AnyAnnounces(lines)
    decreases |lines|
  {
    var init := lines[..|lines| - 1];
    if k < |init| {
      assert init[k] == lines[k];
      AnnouncedLine(init, k);
    } else {
      assert k == |lines| - 1;
    }
  }

  /** When `AnyAnnounces` holds, a line announcing the connection exists. */
  lemma {:induction false} AnnouncingLine(lines: seq<string>) returns (k: nat)
    requires AnyAnnounces(lines)
    ensures k < |lines| && Announces(lines[k])
    decreases |lines|
  {
    var init := lines[..|lines| - 1];
    if Announces(lines[|lines| - 1]) {
      k := |lines| - 1;
    } else {
      k := AnnouncingLine(init);
      assert lines[k] == init[k];
    }
  }

  /**
   * `connected` becomes true on a line announcing the P2P connection and stays
   * true while the output is read: after the lines it is true exactly when it
   * was before or some line announces the connection.
   */
  lemma {:induction false} ObserveAllConnects(w: Watch, lines: seq<string>, callback: bool)
    ensures ObserveAll(w, lines, callback).connected <==> w.connected || AnyAnnounces(lines)
    decreases |lines|
  {
    if lines != [] {
      var init := lines[..|lines| - 1];
      ObserveAllConnects(w, init, callback);
      ObserveConnects(ObserveAll(w, init, callback), lines[|lines| - 1], callback);
    }
  }

  /** A port is never recorded without an address. */
  predicate PeerKnown(w: Watch) {
    w.peerPort.Some? ==> w.peerAddr.Some?
  }

  lemma {:induction false} ObserveAllPeerKnown(w: Watch, lines: seq<string>, callback: bool)
    requires PeerKnown(w)
    ensures PeerKnown(ObserveAll(w, lines, callback))
    decreases |lines|
  {
    if lines != [] {
      ObserveAllPeerKnown(w, lines[..|lines| - 1], callback);
    }
  }

  // ---------------------------------------------------------------------------
  // The connection object

  /** What `get_connection_info` returns. */
  datatype Info = Info(role: string, serverName: Option<string>, localPort: Option<int>, connected: bool,
                       status: string, peerAddr: Option<string>, peerPort: Option<int>)

  const INITIAL_STATUS: string := "未连接"
  const FRPC_MISSING: string := "frpc.exe不存在"
  const LAUNCH_FAILED: string := "启动frpc失败: "
  const CONNECTING: string := "正在连接frp服务器..."
  const DISCONNECTED: string := "frpc已断开连接"

  /** Where `generate_config` writes: `frpc.ini` in `p2pfile` under the temporary directory. */
  function ConfigPath(tempDir: string): string {
    Engine.JoinPath(Engine.JoinPath(tempDir, "p2pfile"), "frpc.ini")
  }

  class FrpConnection {
    const serverAddr: string
    const serverPort: int
    const token: string
    const role: string
    var localPort: Option<int>
    var secretKey: Option<string>
    var serverName: Option<string>
    var configPath: Option<string>
    /** `frpc_process` is set. */
    var running: bool
    var connected: bool
    var peerAddr: Option<string>
    var peerPort: Option<int>
    /** `status_callback` is set. */
    var hasCallback: bool
    /** The statuses given to the callback, in order. */
    var heard: seq<string>
    var connectionStatus: string
    /** The files written, by path. */
    var files: map<string, string>

    /** The fields `_monitor_frpc` works on. */
    function Watched(): Watch
      reads this
    {
      Watch(connected, peerAddr, peerPort, connectionStatus, heard)
    }

    /** `get_connection_info`. */
    function ConnectionInfo(): (r: Info)
      reads this
      ensures r.role == role && r.serverName == serverName && r.localPort == localPort
      ensures r.connected == connected && r.status == connectionStatus
      ensures r.peerAddr == peerAddr && r.peerPort == peerPort
    {
      Info(role, serverName, localPort, connected, connectionStatus, peerAddr, peerPort)
    }

    constructor(serverAddr: string, serverPort: int, token: string, role: string := "server")
      ensures this.serverAddr == serverAddr && this.serverPort == serverPort && this.token == token && this.role == role
      ensures localPort == None && secretKey == None && serverName == None && configPath == None && !running
      ensures !connected && peerAddr == None && peerPort == None && !hasCallback && heard == []
      ensures connectionStatus == INITIAL_STATUS && files == map[]
    {
      this.serverAddr := serverAddr;
      this.serverPort := serverPort;
      this.token := token;
      this.role := role;
      localPort := None;
      secretKey := None;
      serverName := None;
      configPath := None;
      running := false;
      connected := false;
      peerAddr := None;
      peerPort := None;
      hasCallback := false;
      heard := [];
      connectionStatus := INITIAL_STATUS;
      files := map[];
    }

    /** `set_status_callback`: only whether a callback is set is kept. */
    method SetStatusCallback(present: bool)
      modifies this
      ensures hasCallback == present && heard == old(heard) && Watched() == old(Watched())
      ensures ConnectionInfo() == old(ConnectionInfo()) && configPath == old(configPath) && running == old(running)
      ensures files == old(files) && secretKey == old(secretKey)
    {
      hasCallback := present;
    }

    /** `_update_status`. */
    method UpdateStatus(status: string)
      modifies this
      ensures Watched() == Post(old(Watched()), status, hasCallback) && hasCallback == old(hasCallback)
      ensures localPort == old(localPort) && secretKey == old(secretKey) && serverName == old(serverName)
      ensures configPath == old(configPath) && running == old(running) && files == old(files)
    {
      connectionStatus := status;
      if hasCallback {
        heard := heard + [status];
      }
    }

    /**
     * The lines of `generate_config`: the `[common]` section, then the proxy
     * section of this role, joined by newlines.
     */
    method ConfigText(localPort: int, secretKey: string, serverName: string) returns (text: string)
      ensures text == Join(ConfigLines(serverAddr, serverPort, token, role, serverName, localPort, secretKey), "\n")
    {
      var config := CommonLines(serverAddr, serverPort, token);
      config := config + ProxyLines(role, serverName, localPort, secretKey);
      text := Join(config, "\n");
    }

    /**
     * `generate_config`: stores the three settings and writes the `[common]`
     * section and the proxy section of this role, one line each, joined by
     * newlines, to `ConfigPath(tempDir)`, which it records and returns.
     */
    method GenerateConfig(localPort: int, tempDir: string, secretKey: string := DEFAULT_SECRET_KEY,
                          serverName: string := DEFAULT_SERVER_NAME)
      returns (path: string)
      modifies this
      ensures path == ConfigPath(tempDir) && configPath == Some(path)
      ensures this.localPort == Some(localPort) && this.secretKey == Some(secretKey) && this.serverName == Some(serverName)
      ensures files == old(files)[path := Join(ConfigLines(serverAddr, serverPort, token, role, serverName, localPort, secretKey), "\n")]
      ensures connected == old(connected) && peerAddr == old(peerAddr) && peerPort == old(peerPort)
      ensures connectionStatus == old(connectionStatus) && heard == old(heard)
      ensures running == old(running) && hasCallback == old(hasCallback)
    {
      var text := ConfigText(localPort, secretKey, serverName);
      this.localPort := Some(localPort);
      this.secretKey := Some(secretKey);
      this.serverName := Some(serverName);
      path := ConfigPath(tempDir);
      configPath := Some(path);
      files := files[path := text];
    }

    /**
     * `start_frpc`: with no configuration generated it returns false and
     * changes nothing; a missing `frpc.exe` or a launch that raises posts the
     * reason and returns false; otherwise the process is running and the
     * status says the connection is under way.
     */
    method StartFrpc(frpcExists: bool, launchError: Option<string>) returns (started: bool)
      modifies this
      ensures started <==> (configPath.Some? && configPath.value != [] && frpcExists && launchError.None?)
      ensures running == (old(running) || started)
      ensures configPath == None || configPath == Some([]) ==> Watched() == old(Watched())
      ensures configPath.Some? && configPath.value != [] ==>
        Watched() == Post(old(Watched()),
                          if !frpcExists then FRPC_MISSING
                          else if launchError.Some? then LAUNCH_FAILED + launchError.value
                          else CONNECTING,
                          hasCallback)
      ensures configPath == old(configPath) && files == old(files) && hasCallback == old(hasCallback)
      ensures localPort == old(localPort) && secretKey == old(secretKey) && serverName == old(serverName)
    {
      if configPath.None? || configPath.value == [] {
        return false;
      }
      if !frpcExists {
        UpdateStatus(FRPC_MISSING);
        return false;
      }
      if launchError.Some? {
        UpdateStatus(LAUNCH_FAILED + launchError.value);
        return false;
      }
      running := true;
      UpdateStatus(CONNECTING);
      started := true;
    }

    /** One pass of the loop in `_monitor_frpc`: the stripped line, if not empty, classified and acted on. */
    method ObserveLine(raw: string)
      modifies this
      ensures Watched() == Observe(old(Watched()), raw, hasCallback)
      ensures running == old(running) && hasCallback == old(hasCallback) && configPath == old(configPath)
      ensures files == old(files) && localPort == old(localPort) && secretKey == old(secretKey) && serverName == old(serverName)
    {
      var line := Strip(raw);
      if line != [] {
        var signal := Classify(line);
        var status := StatusFor(signal, line);
        if status.Some? {
          UpdateStatus(status.value);
        }
        if signal == PeerConnected {
          RecordPeer(PeerAddress(line));
        }
      }
    }

    /**
     * The P2P connection is up; the address and the port parsed from the line
     * replace the recorded ones, each only when it was read.
     */
    method RecordPeer(peer: (Option<string>, Option<int>))
      modifies this
      ensures connected && peerAddr == (if peer.0.Some? then peer.0 else old(peerAddr))
      ensures peerPort == (if peer.1.Some? then peer.1 else old(peerPort))
      ensures connectionStatus == old(connectionStatus) && heard == old(heard)
      ensures running == old(running) && hasCallback == old(hasCallback) && configPath == old(configPath)
      ensures files == old(files) && localPort == old(localPort) && secretKey == old(secretKey) && serverName == old(serverName)
    {
      connected := true;
      if peer.0.Some? {
        peerAddr := peer.0;
      }
      if peer.1.Some? {
        peerPort := peer.1;
      }
    }

    /**
     * `_monitor_frpc` while frpc prints `output` and then exits: nothing
     * happens unless the process was started; otherwise every line is
     * observed in order, and at the end the connection is marked down and
     * the status says frpc disconnected.
     */
    method MonitorFrpc(output: seq<string>)
      modifies this
      ensures !running ==> Watched() == old(Watched())
      ensures running ==>
        Watched() == Post(ObserveAll(old(Watched()), output, hasCallback).(connected := false), DISCONNECTED, hasCallback)
      ensures running == old(running) && hasCallback == old(hasCallback) && configPath == old(configPath)
      ensures files == old(files) && localPort == old(localPort) && secretKey == old(secretKey) && serverName == old(serverName)
    {
      if !running {
        return;
      }
      var i := 0;
      while i < |output|
        invariant 0 <= i <= |output|
        invariant Watched() == ObserveAll(old(Watched()), output[..i], hasCallback)
        invariant running == old(running) && hasCallback == old(hasCallback) && configPath == old(configPath)
        invariant files == old(files) && localPort == old(localPort) && secretKey == old(secretKey) && serverName == old(serverName)
      {
        ObserveAllNext(old(Watched()), output, i, hasCallback);
        ObserveLine(output[i]);
        i := i + 1;
      }
      assert output[..i] == output;
      connected := false;
      UpdateStatus(DISCONNECTED);
    }
  }
}
