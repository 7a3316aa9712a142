/**
 * The text handling of the frp connection: the `frpc.ini` lines built by
 * `generate_config`, the classification of a line of frpc's output, and the
 * `connected: host:port` parser of the peer address. Python's `in`,
 * `str.split`, `str.join`, `str.lower`, `int()` and f-string integer
 * formatting are written out here.
 */
module FrpText {
  import opened Wrappers
  import opened Bytes

  // ---------------------------------------------------------------------------
  // Substrings, `str.split` and `str.join`

  /** `sep` occurs in `s` at index `i`. */
  predicate At(s: string, sep: string, i: int) {
    0 <= i && i + |sep| <= |s| && s[i..i + |sep|] == sep
  }

  /** `s.find(sep)`: the first index at which `sep` occurs, if any. */
  function Find(s: string, sep: string): (r: Option<nat>)
    ensures r.Some? ==> At(s, sep, r.value) && forall j :: 0 <= j < r.value ==> !At(s, sep, j)
    ensures r.None? ==> forall j :: !At(s, sep, j)
    decreases |s|
  {
    if |s| < |sep| then None
    else if s[..|sep|] == sep then Some(0)
    else
      ShiftAt(s, sep);
      match Find(s[1..], sep)
      case None => None
      case Some(i) => Some(i + 1)
  }

  /** An occurrence in `s` past its first character is one in `s[1..]`, one place earlier. */
  lemma ShiftAt(s: string, sep: string)
    requires s != []
    ensures forall j {:trigger At(s, sep, j)} :: 1 <= j ==> (At(s, sep, j) <==> At(s[1..], sep, j - 1))
  {
    forall j | 1 <= j
      ensures At(s, sep, j) <==> At(s[1..], sep, j - 1)
    {
      if j + |sep| <= |s| {
        assert s[1..][j - 1..j - 1 + |sep|] == s[j..j + |sep|];
      }
    }
  }

  /** `sub in s`. */
  function Contains(s: string, sub: string): bool {
    Find(s, sub).Some?
  }

  /** `s.split(sep)` for a non-empty separator: the pieces between its occurrences, left to right. */
  function Split(s: string, sep: string): (r: seq<string>)
    requires sep != []
    ensures |r| >= 1
    decreases |s|
  {
    match Find(s, sep)
    case None => [s]
    case Some(i) => [s[..i]] + Split(s[i + |sep|..], sep)
  }

  /** `sep.join(parts)`. */
  function Join(parts: seq<string>, sep: string): string {
    if parts == [] then ""
    else if |parts| == 1 then parts[0]
    else parts[0] + sep + Join(parts[1..], sep)
  }

  /** Joining a piece in front of the others puts one separator between them. */
  lemma JoinCons(p: string, parts: seq<string>, sep: string)
    requires parts != []
    ensures Join([p] + parts, sep) == p + sep + Join(parts, sep)
  {
    assert ([p] + parts)[1..] == parts;
  }

  /** Joining the pieces of a split gives the text back. */
  lemma {:induction false} JoinSplit(s: string, sep: string)
    requires sep != []
    ensures Join(Split(s, sep), sep) == s
    decreases |s|
  {
    var f := Find(s, sep);
    if f.Some? {
      var i := f.value;
      var rest := s[i + |sep|..];
      JoinSplit(rest, sep);
      JoinCons(s[..i], Split(rest, sep), sep);
      PiecesJoin(s, i, sep);
    }
  }

  lemma PiecesJoin(s: string, i: nat, sep: string)
    requires At(s, sep, i)
    ensures s == s[..i] + sep + s[i + |sep|..]
  {
    assert s == s[..i] + s[i..i + |sep|] + s[i + |sep|..];
  }

  /** Splitting the lines joined by one character that none of them holds gives the lines back. */
  lemma {:induction false} SplitJoin(parts: seq<string>, c: char)
    requires parts != []
    requires forall k :: 0 <= k < |parts| ==> c !in parts[k]
    ensures Split(Join(parts, [c]), [c]) == parts
    decreases |parts|
  {
    var s := Join(parts, [c]);
    NoSeparator(parts[0], c);
    if |parts| == 1 {
      assert s == parts[0];
      forall j | 0 <= j < |s| ensures !At(s, [c], j) {
        assert s[j..j + 1] == [s[j]];
      }
    } else {
      var rest := Join(parts[1..], [c]);
      var n := |parts[0]|;
      assert s == parts[0] + [c] + rest;
      assert At(s, [c], n);
      forall j | 0 <= j < n ensures !At(s, [c], j) {
        assert s[j] == parts[0][j];
      }
      assert Find(s, [c]) == Some(n);
      assert s[..n] == parts[0] && s[n + 1..] == rest;
      SplitJoin(parts[1..], c);
      assert Split(s, [c]) == [parts[0]] + Split(rest, [c]);
      assert [parts[0]] + parts[1..] == parts;
    }
  }

  lemma NoSeparator(p: string, c: char)
    requires c !in p
    ensures forall j :: 0 <= j < |p| ==> p[j] != c
  {
  }

  // ---------------------------------------------------------------------------
  // Integers as text

  predicate IsDigit(c: char) {
    '0' <= c <= '9'
  }

  function DigitChar(d: nat): (r: char)
    requires d < 10
    ensures IsDigit(r)
  {
    ('0' as int + d) as char
  }

  /** The decimal digits of `n`. */
  function NatText(n: nat): (r: string)
    ensures |r| > 0 && forall k :: 0 <= k < |r| ==> IsDigit(r[k])
    decreases n
  {
    if n < 10 then [DigitChar(n)] else NatText(n / 10) + [DigitChar(n % 10)]
  }

  /** `f"{i}"` for an integer. */
  function IntText(i: int): (r: string)
    ensures |r| > 0 && forall k :: 0 <= k < |r| ==> IsDigit(r[k]) || (k == 0 && r[k] == '-')
  {
    if i < 0 then "-" + NatText(-i) else NatText(i)
  }

  /** Digits with single underscores between them, as `int()` accepts. */
  predicate WellGrouped(t: string) {
    |t| > 0 && IsDigit(t[0]) && IsDigit(t[|t| - 1]) &&
    forall k :: 0 <= k < |t| ==> IsDigit(t[k]) || (t[k] == '_' && 0 < k < |t| - 1 && IsDigit(t[k + 1]))
  }

  /** The value of the digits of `t`, underscores skipped. */
  function DigitsValue(t: string): nat {
    if t == [] then 0
    else if IsDigit(t[|t| - 1]) then 10 * DigitsValue(t[..|t| - 1]) + (t[|t| - 1] as int - '0' as int)
    else DigitsValue(t[..|t| - 1])
  }

  /**
   * `int(s)` on a string: surrounding whitespace, an optional sign, then
   * digits grouped by single underscores; `None` where Python raises
   * `ValueError`. Only ASCII digits are read.
   */
  function ParseInt(s: string): Option<int> {
    var t := Strip(s);
    if t != [] && (t[0] == '-' || t[0] == '+') then
      var n: int := DigitsValue(t[1..]);
      if WellGrouped(t[1..]) then Some(if t[0] == '-' then -n else n) else None
    else if WellGrouped(t) then Some(DigitsValue(t))
    else None
  }

  lemma {:induction false} NatTextValue(n: nat)
    ensures WellGrouped(NatText(n)) && DigitsValue(NatText(n)) == n
    decreases n
  {
    var t := NatText(n);
    if n >= 10 {
      NatTextValue(n / 10);
      assert t[..|t| - 1] == NatText(n / 10);
    }
  }

  /** A formatted integer reads back as itself. */
  lemma IntTextRoundTrip(i: int)
    ensures ParseInt(IntText(i)) == Some(i)
  {
    var t := IntText(i);
    StripsToItself(t);
    if i < 0 {
      NatTextValue(-i);
      assert t[1..] == NatText(-i);
      assert t[0] == '-';
    } else {
      NatTextValue(i);
      assert t[0] != '-' && t[0] != '+';
    }
  }

  lemma StripsToItself(t: string)
    requires t != [] && !IsSpace(t[0]) && !IsSpace(t[|t| - 1])
    ensures Strip(t) == t
  {
    assert StripLeft(t) == t;
  }

  // ---------------------------------------------------------------------------
  // `frpc.ini`

  const DEFAULT_SECRET_KEY: string := "p2pfiletransfer"
  const DEFAULT_SERVER_NAME: string := "p2pfile"

  /** A section header, `f"[{name}]"`. */
  function Header(name: string): string {
    "[" + name + "]"
  }

  /** A setting, `f"{key} = {value}"`. */
  function Entry(key: string, value: string): string {
    key + " = " + value
  }

  /** The `[common]` section and the blank line after it, the same for both roles. */
  function CommonLines(addr: string, port: int, token: string): (r: seq<string>)
    ensures |r| == 8
  {
    [Header("common"), Entry("server_addr", addr), Entry("server_port", IntText(port)), Entry("auth.token", token),
     Entry("tls_enable", "true"), Entry("log_level", "info"), Entry("log_max_days", "3"), ""]
  }

  /** The proxy section: the xtcp server under `name`, or a visitor of it under `name_visitor`. */
  function ProxyLines(role: string, name: string, localPort: int, sk: string): (r: seq<string>)
    ensures |r| == if role == "server" then 4 else 6
  {
    if role == "server" then
      [Header(name), Entry("type", "xtcp"), Entry("local_port", IntText(localPort)), Entry("sk", sk)]
    else
      [Header(name + "_visitor"), Entry("type", "xtcp"), Entry("server_name", name), Entry("sk", sk),
       Entry("bind_port", IntText(localPort)), Entry("role", "visitor")]
  }

  /** The lines `generate_config` writes, in order. */
  function ConfigLines(addr: string, port: int, token: string, role: string, name: string, localPort: int, sk: string): seq<string> {
    CommonLines(addr, port, token) + ProxyLines(role, name, localPort, sk)
  }

  /** A section header line, `[...]`. */
  predicate IsHeader(line: string) {
    |line| >= 2 && line[0] == '[' && line[|line| - 1] == ']'
  }

  /** The lines up to the next section header. */
  function UntilHeader(lines: seq<string>): seq<string> {
    if lines == [] || IsHeader(lines[0]) then [] else [lines[0]] + UntilHeader(lines[1..])
  }

  /** The lines of the first section headed `[name]`. */
  function SectionBody(lines: seq<string>, name: string): seq<string> {
    if lines == [] then []
    else if lines[0] == Header(name) then UntilHeader(lines[1..])
    else SectionBody(lines[1..], name)
  }

  /** The value of the first `key = value` line. */
  function Lookup(lines: seq<string>, key: string): Option<string> {
    var prefix := key + " = ";
    if lines == [] then None
    else if |prefix| <= |lines[0]| && lines[0][..|prefix|] == prefix then Some(lines[0][|prefix|..])
    else Lookup(lines[1..], key)
  }

  /** The value `key` has in section `name` of the configuration. */
  function Setting(lines: seq<string>, name: string, key: string): Option<string> {
    Lookup(SectionBody(lines, name), key)
  }

  predicate SpaceFree(key: string) {
    forall k :: 0 <= k < |key| ==> key[k] != ' '
  }

  /** A setting line is found under its own key... */
  lemma LookupHere(key: string, value: string, rest: seq<string>)
    ensures Lookup([Entry(key, value)] + rest, key) == Some(value)
  {
    var line := Entry(key, value);
    assert line[..|key + " = "|] == key + " = ";
    assert line[|key + " = "|..] == value;
  }

  /** ...and passed over when looking for another key without spaces. */
  lemma LookupPast(other: string, value: string, rest: seq<string>, key: string)
    requires SpaceFree(key) && SpaceFree(other) && key != other
    ensures Lookup([Entry(other, value)] + rest, key) == Lookup(rest, key)
  {
    var line := Entry(other, value);
    var prefix := key + " = ";
    if |prefix| <= |line| {
      if |key| < |other| {
        assert line[..|prefix|][|key|] != prefix[|key|];
      } else if |key| > |other| {
        assert line[..|prefix|][|other|] != prefix[|other|];
      } else {
        assert line[..|prefix|][..|key|] != prefix[..|key|];
      }
    }
    assert ([line] + rest)[1..] == rest;
  }

  /** The section body ends at the first header. */
  lemma {:induction false} UntilHeaderStops(lines: seq<string>, after: seq<string>)
    requires forall k :: 0 <= k < |lines| ==> !IsHeader(lines[k])
    requires after == [] || IsHeader(after[0])
    ensures UntilHeader(lines + after) == lines
  {
    if lines != [] {
      assert (lines + after)[1..] == lines[1..] + after;
      UntilHeaderStops(lines[1..], after);
    } else {
      assert lines + after == after;
    }
  }

  lemma NotHeaderEntry(key: string, value: string)
    requires key != [] && key[0] != '['
    ensures !IsHeader(Entry(key, value))
  {
    assert Entry(key, value)[0] == key[0];
  }

  lemma HeaderInjective(a: string, b: string)
    requires Header(a) == Header(b)
    ensures a == b
  {
    assert a == Header(a)[1..|Header(a)| - 1];
    assert b == Header(b)[1..|Header(b)| - 1];
  }

  /** A section's body is what follows the first header of that name, up to the next header. */
  lemma {:induction false} SectionFound(before: seq<string>, name: string, body: seq<string>, after: seq<string>)
    requires forall k :: 0 <= k < |before| ==> before[k] != Header(name)
    requires forall k :: 0 <= k < |body| ==> !IsHeader(body[k])
    requires after == [] || IsHeader(after[0])
    ensures SectionBody(before + [Header(name)] + body + after, name) == body
    decreases |before|
  {
    var lines := before + [Header(name)] + body + after;
    if before == [] {
      assert lines[0] == Header(name);
      assert lines[1..] == body + after;
      UntilHeaderStops(body, after);
    } else {
      assert lines[0] == before[0];
      assert lines[1..] == before[1..] + [Header(name)] + body + after;
      SectionFound(before[1..], name, body, after);
    }
  }

  /** None of the setting lines of `[common]` is a header. */
  lemma CommonBodyPlain(addr: string, port: int, token: string)
    ensures var body := CommonLines(addr, port, token)[1..];
      forall k :: 0 <= k < |body| ==> !IsHeader(body[k])
  {
    NotHeaderEntry("server_addr", addr);
    NotHeaderEntry("server_port", IntText(port));
    NotHeaderEntry("auth.token", token);
    NotHeaderEntry("tls_enable", "true");
    NotHeaderEntry("log_level", "info");
    NotHeaderEntry("log_max_days", "3");
  }

  /** The `[common]` section holds the server address, port and token given, with TLS on. */
  lemma CommonSettings(addr: string, port: int, token: string, role: string, name: string, localPort: int, sk: string)
    ensures var lines := ConfigLines(addr, port, token, role, name, localPort, sk);
      Setting(lines, "common", "server_addr") == Some(addr) &&
      Setting(lines, "common", "server_port") == Some(IntText(port)) &&
      Setting(lines, "common", "auth.token") == Some(token) &&
      Setting(lines, "common", "tls_enable") == Some("true")
  {
    var common := CommonLines(addr, port, token);
    var proxy := ProxyLines(role, name, localPort, sk);
    var body := common[1..];
    assert common + proxy == [] + [Header("common")] + body + proxy;
    CommonBodyPlain(addr, port, token);
    SectionFound([], "common", body, proxy);
    CommonLookups(addr, port, token);
  }

  lemma CommonLookups(addr: string, port: int, token: string)
    ensures var body := CommonLines(addr, port, token)[1..];
      Lookup(body, "server_addr") == Some(addr) &&
      Lookup(body, "server_port") == Some(IntText(port)) &&
      Lookup(body, "auth.token") == Some(token) &&
      Lookup(body, "tls_enable") == Some("true")
  {
    var e0, e1, e2, e3 := Entry("server_addr", addr), Entry("server_port", IntText(port)),
                          Entry("auth.token", token), Entry("tls_enable", "true");
    var b4 := [Entry("log_level", "info"), Entry("log_max_days", "3"), ""];
    var b3 := [e3] + b4;
    var b2 := [e2] + b3;
    var b1 := [e1] + b2;
    assert CommonLines(addr, port, token)[1..] == [e0] + b1;
    assert SpaceFree("server_addr") && SpaceFree("server_port") && SpaceFree("auth.token") && SpaceFree("tls_enable");
    LookupHere("server_addr", addr, b1);
    LookupPast("server_addr", addr, b1, "server_port");
    LookupHere("server_port", IntText(port), b2);
    LookupPast("server_addr", addr, b1, "auth.token");
    LookupPast("server_port", IntText(port), b2, "auth.token");
    LookupHere("auth.token", token, b3);
    LookupPast("server_addr", addr, b1, "tls_enable");
    LookupPast("server_port", IntText(port), b2, "tls_enable");
    LookupPast("auth.token", token, b3, "tls_enable");
    LookupHere("tls_enable", "true", b4);
  }

  /** No line of `[common]` is the header `[name]` of another section. */
  lemma CommonIsNot(addr: string, port: int, token: string, name: string)
    requires name != "common"
    ensures var common := CommonLines(addr, port, token);
      forall k :: 0 <= k < |common| ==> common[k] != Header(name)
  {
    var common := CommonLines(addr, port, token);
    CommonBodyPlain(addr, port, token);
    assert IsHeader(Header(name));
    if common[0] == Header(name) {
      HeaderInjective("common", name);
    }
    forall k | 1 <= k < |common| ensures common[k] != Header(name) {
      assert common[k] == common[1..][k - 1];
    }
  }

  /**
   * For the `server` role the proxy section `[name]` is an xtcp proxy of the
   * local port with the secret key, provided the name is not `common`
   * (a server named `common` would share its header with the common section).
   */
  lemma ServerSettings(addr: string, port: int, token: string, name: string, localPort: int, sk: string)
    requires name != "common"
    ensures var lines := ConfigLines(addr, port, token, "server", name, localPort, sk);
      Setting(lines, name, "type") == Some("xtcp") &&
      Setting(lines, name, "local_port") == Some(IntText(localPort)) &&
      Setting(lines, name, "sk") == Some(sk)
  {
    var common := CommonLines(addr, port, token);
    var proxy := ProxyLines("server", name, localPort, sk);
    var body := proxy[1..];
    assert common + proxy == common + [Header(name)] + body + [];
    CommonIsNot(addr, port, token, name);
    NotHeaderEntry("type", "xtcp");
    NotHeaderEntry("local_port", IntText(localPort));
    NotHeaderEntry("sk", sk);
    SectionFound(common, name, body, []);
    assert body == [Entry("type", "xtcp")] + body[1..];
    assert body[1..] == [Entry("local_port", IntText(localPort))] + body[2..];
    assert body[2..] == [Entry("sk", sk)] + [];
    assert SpaceFree("type") && SpaceFree("local_port") && SpaceFree("sk");
    LookupHere("type", "xtcp", body[1..]);
    LookupPast("type", "xtcp", body[1..], "local_port");
    LookupHere("local_port", IntText(localPort), body[2..]);
    LookupPast("type", "xtcp", body[1..], "sk");
    LookupPast("local_port", IntText(localPort), body[2..], "sk");
    LookupHere("sk", sk, []);
  }

  /**
   * For any other role the section `[name_visitor]` is an xtcp visitor of the
   * server `name` with the secret key, bound to the local port.
   */
  lemma VisitorSettings(addr: string, port: int, token: string, role: string, name: string, localPort: int, sk: string)
    requires role != "server"
    ensures var lines := ConfigLines(addr, port, token, role, name, localPort, sk);
      var section := name + "_visitor";
      Setting(lines, section, "type") == Some("xtcp") &&
      Setting(lines, section, "server_name") == Some(name) &&
      Setting(lines, section, "sk") == Some(sk) &&
      Setting(lines, section, "bind_port") == Some(IntText(localPort)) &&
      Setting(lines, section, "role") == Some("visitor")
  {
    var section := name + "_visitor";
    var common := CommonLines(addr, port, token);
    var proxy := ProxyLines(role, section[..|name|], localPort, sk);
    assert section[..|name|] == name;
    var body := proxy[1..];
    assert common + proxy == common + [Header(section)] + body + [];
    assert section != "common" by {
      assert |section| > |"common"|;
    }
    CommonIsNot(addr, port, token, section);
    NotHeaderEntry("type", "xtcp");
    NotHeaderEntry("server_name", name);
    NotHeaderEntry("sk", sk);
    NotHeaderEntry("bind_port", IntText(localPort));
    NotHeaderEntry("role", "visitor");
    SectionFound(common, section, body, []);
    VisitorLookups(name, localPort, sk);
  }

  lemma VisitorLookups(name: string, localPort: int, sk: string)
    ensures var body := [Entry("type", "xtcp"), Entry("server_name", name), Entry("sk", sk),
                         Entry("bind_port", IntText(localPort)), Entry("role", "visitor")];
      Lookup(body, "type") == Some("xtcp") &&
      Lookup(body, "server_name") == Some(name) &&
      Lookup(body, "sk") == Some(sk) &&
      Lookup(body, "bind_port") == Some(IntText(localPort)) &&
      Lookup(body, "role") == Some("visitor")
  {
    var e0, e1, e2, e3, e4 := Entry("type", "xtcp"), Entry("server_name", name), Entry("sk", sk),
                              Entry("bind_port", IntText(localPort)), Entry("role", "visitor");
    var b4: seq<string> := [e4];
    var b3 := [e3] + b4;
    var b2 := [e2] + b3;
    var b1 := [e1] + b2;
    assert [e0, e1, e2, e3, e4] == [e0] + b1;
    assert SpaceFree("type") && SpaceFree("server_name") && SpaceFree("sk") && SpaceFree("bind_port") && SpaceFree("role");
    LookupHere("type", "xtcp", b1);
    LookupPast("type", "xtcp", b1, "server_name");
    LookupHere("server_name", name, b2);
    LookupPast("type", "xtcp", b1, "sk");
    LookupPast("server_name", name, b2, "sk");
    LookupHere("sk", sk, b3);
    LookupPast("type", "xtcp", b1, "bind_port");
    LookupPast("server_name", name, b2, "bind_port");
    LookupPast("sk", sk, b3, "bind_port");
    LookupHere("bind_port", IntText(localPort), b4);
    LookupPast("type", "xtcp", b1, "role");
    LookupPast("server_name", name, b2, "role");
    LookupPast("sk", sk, b3, "role");
    LookupPast("bind_port", IntText(localPort), b4, "role");
    LookupHere("role", "visitor", []);
  }

  /** The integer text holds no line break. */
  lemma IntTextOneLine(i: int)
    ensures '\n' !in IntText(i)
  {
    var s := IntText(i);
    forall k | 0 <= k < |s| ensures s[k] != '\n' {
    }
  }

  /**
   * The file `generate_config` writes reads back line by line as the lines it
   * built, 12 for a server and 14 for a visitor, provided no value given holds
   * a line break.
   */
  lemma ConfigFileLines(addr: string, port: int, token: string, role: string, name: string, localPort: int, sk: string)
    requires '\n' !in addr && '\n' !in token && '\n' !in name && '\n' !in sk
    ensures var lines := ConfigLines(addr, port, token, role, name, localPort, sk);
      Split(Join(lines, "\n"), "\n") == lines &&
      |lines| == if role == "server" then 12 else 14
  {
    var common := CommonLines(addr, port, token);
    var proxy := ProxyLines(role, name, localPort, sk);
    CommonLinesOneLine(addr, port, token);
    ProxyLinesOneLine(role, name, localPort, sk);
    var lines := common + proxy;
    assert forall k :: 0 <= k < |lines| ==> lines[k] == if k < |common| then common[k] else proxy[k - |common|];
    SplitJoin(lines, '\n');
  }

  /** No line of the `[common]` section holds a line break. */
  lemma CommonLinesOneLine(addr: string, port: int, token: string)
    requires '\n' !in addr && '\n' !in token
    ensures forall k :: 0 <= k < 8 ==> '\n' !in CommonLines(addr, port, token)[k]
  {
    IntTextOneLine(port);
  }

  /** No line of the proxy section holds a line break. */
  lemma ProxyLinesOneLine(role: string, name: string, localPort: int, sk: string)
    requires '\n' !in name && '\n' !in sk
    ensures var lines := ProxyLines(role, name, localPort, sk);
      forall k :: 0 <= k < |lines| ==> '\n' !in lines[k]
  {
    IntTextOneLine(localPort);
    assert '\n' !in Header(name) && '\n' !in Entry("sk", sk);
    if role != "server" {
      assert '\n' !in Header(name + "_visitor") && '\n' !in Entry("server_name", name);
    }
  }

  // ---------------------------------------------------------------------------
  // Lines of frpc's output

  /** What a line of output tells about the connection, in the order `_monitor_frpc` tests. */
  datatype Signal = LoggedIn | ProxyStarted | PeerConnected | Failed | Quiet

  function LowerChar(c: char): char {
    if 'A' <= c <= 'Z' then (c as int + 32) as char else c
  }

  /**
   * `s.lower()` as far as ASCII letters go. For finding the words `error` and
   * `fail` this agrees with Python's full case mapping: no other character
   * lowers to one of their letters, except U+0130 whose `i` is always
   * followed by U+0307, so never by the `l` of `fail`.
   */
  function Lower(s: string): (r: string)
    ensures |r| == |s|
  {
    seq(|s|, k requires 0 <= k < |s| => LowerChar(s[k]))
  }

  /** The first test of the if-chain that holds. */
  function Classify(line: string): Signal {
    if Contains(line, "login to server success") then LoggedIn
    else if Contains(line, "start proxy success") then ProxyStarted
    else if Contains(line, "xtcp") && Contains(line, "visitor") && Contains(line, "connected") then PeerConnected
    else if Contains(Lower(line), "error") || Contains(Lower(line), "fail") then Failed
    else Quiet
  }

  /** The status posted for a line, if any. */
  function StatusFor(signal: Signal, line: string): Option<string> {
    match signal
    case LoggedIn => Some("已连接到frp服务器")
    case ProxyStarted => Some("代理启动成功")
    case PeerConnected => Some("P2P连接已建立")
    case Failed => Some("frpc错误: " + line)
    case Quiet => None
  }

  const CONNECTED_MARK: string := "connected: "

  /**
   * The peer address of a `... connected: host:port` line, as the assignments
   * that take effect before an exception: `line.split("connected: ")[1]` fails
   * when the mark is missing, and then nothing is recorded; otherwise the host
   * is the text before the first `:`, and the port is recorded only when a
   * second piece exists and `int()` accepts it.
   */
  function PeerAddress(line: string): (r: (Option<string>, Option<int>))
    ensures r.1.Some? ==> r.0.Some?
  {
    var pieces := Split(line, CONNECTED_MARK);
    if |pieces| < 2 then (None, None)
    else
      var parts := Split(pieces[1], ":");
      (Some(parts[0]), if |parts| < 2 then None else ParseInt(parts[1]))
  }

  /** After the mark, a host without `:` and a port: both are read. */
  lemma PeerAddressReads(line: string, i: nat, host: string, port: int)
    requires Find(line, CONNECTED_MARK) == Some(i)
    requires line[i + |CONNECTED_MARK|..] == host + ":" + IntText(port)
    requires ':' !in host
    ensures PeerAddress(line) == (Some(host), Some(port))
  {
    var digits := IntText(port);
    var rest := host + ":" + digits;
    IntTextOneColon(port);
    NoMarkAfter(host, digits);
    assert Split(line, CONNECTED_MARK) == [line[..i]] + [rest];
    ColonSplits(host, digits);
    IntTextRoundTrip(port);
  }

  lemma IntTextOneColon(i: int)
    ensures ':' !in IntText(i)
  {
    var s := IntText(i);
    forall k | 0 <= k < |s| ensures s[k] != ':' {
    }
  }

  /** The mark cannot occur in `host + ":" + digits` when the digits do not start with a space. */
  lemma NoMarkAfter(host: string, digits: string)
    requires ':' !in host && ':' !in digits && digits != [] && digits[0] != ' '
    ensures Find(host + ":" + digits, CONNECTED_MARK).None?
  {
    var rest := host + ":" + digits;
    ColonsOf(host, digits);
    forall j | 0 <= j ensures !At(rest, CONNECTED_MARK, j) {
      if j + |CONNECTED_MARK| <= |rest| {
        if j + 9 != |host| {
          assert rest[j..j + |CONNECTED_MARK|][9] != CONNECTED_MARK[9];
        } else {
          assert rest[j..j + |CONNECTED_MARK|][10] != CONNECTED_MARK[10];
        }
      }
    }
  }

  /** In `host + ":" + digits` with no other colon, the only colon is the one after the host. */
  lemma ColonsOf(host: string, digits: string)
    requires ':' !in host && ':' !in digits
    ensures var s := host + ":" + digits;
      forall k :: 0 <= k < |s| && k != |host| ==> s[k] != ':'
  {
    var s := host + ":" + digits;
    NoSeparator(host, ':');
    NoSeparator(digits, ':');
    forall k | 0 <= k < |s| && k != |host| ensures s[k] != ':' {
      if k < |host| {
        assert s[k] == host[k];
      } else {
        assert s[k] == digits[k - |host| - 1];
      }
    }
  }

  /** `(host + ":" + digits).split(":")` is `[host, digits]`. */
  lemma ColonSplits(host: string, digits: string)
    requires ':' !in host && ':' !in digits
    ensures Split(host + ":" + digits, ":") == [host, digits]
  {
    var s := host + ":" + digits;
    forall j | 0 <= j < |host| ensures !At(s, ":", j) {
      assert s[j..j + 1] == [host[j]];
    }
    assert At(s, ":", |host|);
    assert Find(s, ":") == Some(|host|);
    assert s[|host| + 1..] == digits && s[..|host|] == host;
    assert Split(s, ":") == [host] + Split(digits, ":");
    forall j | 0 <= j < |digits| ensures !At(digits, ":", j) {
      assert digits[j..j + 1] == [digits[j]];
    }
    assert Split(digits, ":") == [digits];
  }
}
