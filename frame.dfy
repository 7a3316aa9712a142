/**
 * The wire format of the file-transfer protocol. Every message starts with a
 * 64-byte command frame (an ASCII token padded with spaces); REQUEST, RESUME,
 * COMPLETE and ERROR may be followed by a 1024-byte header frame (a document
 * padded with spaces); DATA is followed by an 8-byte big-endian length and the
 * chunk itself.
 */
module Frame {
  import opened Wrappers
  import opened Bytes
  import Json

  const BUFFER_SIZE: nat := 8192
  const CHUNK_SIZE: nat := 1024 * 1024
  const HEADER_SIZE: nat := 1024
  const COMMAND_SIZE: nat := 64
  /** Width of the length prefix of a DATA chunk. */
  const LENGTH_SIZE: nat := 8

  datatype Command = Request | Accept | Reject | Data | Resume | Complete | Error

  function Token(c: Command): (r: string)
    ensures 0 < |r| <= 8 && IsAscii(r)
    ensures !IsSpace(r[0]) && !IsSpace(r[|r| - 1])
  {
    match c
    case Request => "REQUEST"
    case Accept => "ACCEPT"
    case Reject => "REJECT"
    case Data => "DATA"
    case Resume => "RESUME"
    case Complete => "COMPLETE"
    case Error => "ERROR"
  }

  /** The comparison chain of the receive loop: which command, if any, a decoded text names. */
  function ParseCommand(text: string): (r: Option<Command>)
    ensures r.Some? ==> Token(r.value) == text
    ensures r.None? ==> forall c: Command :: Token(c) != text
  {
    if text == "REQUEST" then Some(Request)
    else if text == "DATA" then Some(Data)
    else if text == "RESUME" then Some(Resume)
    else if text == "COMPLETE" then Some(Complete)
    else if text == "ERROR" then Some(Error)
    else if text == "ACCEPT" then Some(Accept)
    else if text == "REJECT" then Some(Reject)
    else None
  }

  // ---------------------------------------------------------------------------
  // Reading from the stream: `recv(n)` returns at most `n` of the bytes that are there.

  function Take(s: seq<byte>, n: nat): (r: seq<byte>)
    ensures |r| == Min(n, |s|) && r == s[..|r|]
  {
    s[..Min(n, |s|)]
  }

  function Drop(s: seq<byte>, n: nat): (r: seq<byte>)
    ensures Take(s, n) + r == s
  {
    s[Min(n, |s|)..]
  }

  // ---------------------------------------------------------------------------
  // Command frames

  /** `command.encode().ljust(COMMAND_SIZE)`. */
  function CommandFrame(c: Command): (r: seq<byte>)
    ensures |r| == COMMAND_SIZE
  {
    LJust(AsciiEncode(Token(c)), COMMAND_SIZE)
  }

  /** A command frame is the token's bytes followed by spaces up to `COMMAND_SIZE`. */
  lemma CommandFrameLayout(c: Command)
    ensures var r := CommandFrame(c);
      (forall i :: 0 <= i < |Token(c)| ==> r[i] as int == Token(c)[i] as int) &&
      (forall i :: |Token(c)| <= i < COMMAND_SIZE ==> r[i] == SPACE)
  {
  }

  /** `frame.decode().strip()`; `None` where the bytes are not UTF-8. */
  function CommandText(frame: seq<byte>): Option<string> {
    match Utf8Decode(frame)
    case None => None
    case Some(t) => Some(Strip(t))
  }

  /** A command frame decodes and strips back to its token, whatever follows it in the stream. */
  lemma CommandRoundTrip(c: Command, rest: seq<byte>)
    ensures Take(CommandFrame(c) + rest, COMMAND_SIZE) == CommandFrame(c)
    ensures Drop(CommandFrame(c) + rest, COMMAND_SIZE) == rest
    ensures CommandText(CommandFrame(c)) == Some(Token(c))
    ensures ParseCommand(Token(c)) == Some(c)
  {
    var frame := CommandFrame(c);
    assert (frame + rest)[..COMMAND_SIZE] == frame;
    CommandTextStrips(c);
    TokenParses(c);
  }

  lemma CommandTextStrips(c: Command)
    ensures CommandText(CommandFrame(c)) == Some(Token(c))
  {
    var t := Token(c);
    AsciiPaddedDecode(t, COMMAND_SIZE);
    BlanksStrip(t, COMMAND_SIZE - |t|);
  }

  lemma TokenParses(c: Command)
    ensures ParseCommand(Token(c)) == Some(c)
  {
  }

  // ---------------------------------------------------------------------------
  // Header frames

  /** `json.dumps(doc).encode().ljust(HEADER_SIZE)`; a longer document is sent whole. */
  function HeaderFrame(doc: Json.Object): (r: seq<byte>)
    ensures |r| >= HEADER_SIZE
    ensures |Json.Encode(doc)| <= HEADER_SIZE ==> |r| == HEADER_SIZE
  {
    LJust(Json.Encode(doc), HEADER_SIZE)
  }

  /** A header that fits in one frame is read back whole by `recv(HEADER_SIZE)` and decodes to itself. */
  lemma HeaderRoundTrip(doc: Json.Object, rest: seq<byte>)
    requires |Json.Encode(doc)| <= HEADER_SIZE
    ensures Take(HeaderFrame(doc) + rest, HEADER_SIZE) == HeaderFrame(doc)
    ensures Drop(HeaderFrame(doc) + rest, HEADER_SIZE) == rest
    ensures Json.Decode(HeaderFrame(doc)) == Some(doc)
  {
    var e := Json.Encode(doc);
    var frame := HeaderFrame(doc);
    assert (frame + rest)[..HEADER_SIZE] == frame;
    var pad := Spaces(HEADER_SIZE - |e|);
    assert frame == e + pad;
    Json.RoundTrip(doc, pad);
  }

  // ---------------------------------------------------------------------------
  // Data chunks

  lemma ChunkSizeFits()
    ensures CHUNK_SIZE < Pow256(LENGTH_SIZE)
  {
    assert Pow256(3) == 0x100_0000 by {
      assert Pow256(1) == 256;
      assert Pow256(2) == 0x1_0000;
    }
    assert Pow256(LENGTH_SIZE) >= Pow256(3) by {
      assert Pow256(4) >= Pow256(3);
      assert Pow256(5) >= Pow256(4);
      assert Pow256(6) >= Pow256(5);
      assert Pow256(7) >= Pow256(6);
    }
  }

  /** `len(chunk).to_bytes(8, byteorder='big')`. */
  function LengthPrefix(n: nat): (r: seq<byte>)
    requires n <= CHUNK_SIZE
    ensures |r| == LENGTH_SIZE
  {
    ChunkSizeFits();
    ToBigEndian(n, LENGTH_SIZE)
  }

  /** `int.from_bytes(..., 'big')` reads back the length that was written. */
  lemma LengthPrefixReads(n: nat)
    requires n <= CHUNK_SIZE
    ensures FromBigEndian(LengthPrefix(n)) == n
  {
    ChunkSizeFits();
    BigEndianRoundTrip(n, LENGTH_SIZE);
  }

  predicate ChunksFit(chunks: seq<seq<byte>>) {
    forall i :: 0 <= i < |chunks| ==> |chunks[i]| <= CHUNK_SIZE
  }

  /** One DATA message: the command, the length prefix and the chunk. */
  function DataFrame(chunk: seq<byte>): seq<byte>
    requires |chunk| <= CHUNK_SIZE
  {
    CommandFrame(Data) + LengthPrefix(|chunk|) + chunk
  }

  /** The DATA messages for a sequence of chunks, in order. */
  function DataFrames(chunks: seq<seq<byte>>): seq<byte>
    requires ChunksFit(chunks)
  {
    if chunks == [] then [] else DataFrame(chunks[0]) + DataFrames(chunks[1..])
  }

  function Flatten(chunks: seq<seq<byte>>): seq<byte> {
    if chunks == [] then [] else chunks[0] + Flatten(chunks[1..])
  }

  /** `f.read(n)` on a file whose contents are `content` and whose cursor is at `pos`. */
  function ReadAt(content: seq<byte>, pos: nat, n: nat): (r: seq<byte>)
    ensures |r| <= n
    ensures pos <= |content| ==> pos + |r| <= |content| && r == content[pos..pos + |r|]
    ensures r == [] <==> pos >= |content| || n == 0
  {
    content[Min(pos, |content|)..Min(pos + n, |content|)]
  }

  /** The chunks the sender reads from offset `pos` to the end of the file, `CHUNK_SIZE` at a time. */
  function ChunksFrom(content: seq<byte>, pos: nat): seq<seq<byte>>
    decreases |content| - pos
  {
    if pos >= |content| then []
    else
      var chunk := ReadAt(content, pos, CHUNK_SIZE);
      [chunk] + ChunksFrom(content, pos + |chunk|)
  }

  /** The chunks from `pos` are non-empty, fit the limit, and together are exactly the rest of the file. */
  lemma {:induction false} ChunksCover(content: seq<byte>, pos: nat)
    requires pos <= |content|
    ensures ChunksFit(ChunksFrom(content, pos))
    ensures forall i :: 0 <= i < |ChunksFrom(content, pos)| ==> ChunksFrom(content, pos)[i] != []
    ensures Flatten(ChunksFrom(content, pos)) == content[pos..]
    decreases |content| - pos
  {
    if pos < |content| {
      var chunk := ReadAt(content, pos, CHUNK_SIZE);
      ChunksCover(content, pos + |chunk|);
      assert content[pos..] == chunk + content[pos + |chunk|..];
    }
  }

  // ---------------------------------------------------------------------------
  // Reassembling a chunk on the receiving side

  function Sum(xs: seq<nat>): nat {
    if xs == [] then 0 else Sum(xs[..|xs| - 1]) + xs[|xs| - 1]
  }

  /**
   * The receiving loop of a DATA message: `recv(min(BUFFER_SIZE, remaining))`
   * until `chunkSize` bytes have arrived, failing with "连接已关闭" when a read
   * comes back empty. `asks` lists the size of every read requested.
   */
  method ReassembleChunk(stream: seq<byte>, chunkSize: nat)
    returns (chunk: seq<byte>, rest: seq<byte>, closed: bool, asks: seq<nat>)
    ensures closed <==> |stream| < chunkSize
    ensures !closed ==> chunk == stream[..chunkSize] && rest == stream[chunkSize..]
    ensures closed ==> chunk == stream && rest == []
    ensures forall i :: 0 <= i < |asks| ==> 0 < asks[i] <= BUFFER_SIZE
    ensures !closed ==> Sum(asks) == chunkSize
  {
    var received := 0;
    chunk, rest, closed, asks := [], stream, false, [];
    while received < chunkSize && !closed
      invariant received == |chunk| <= chunkSize
      invariant chunk + rest == stream
      invariant closed ==> rest == [] && received < chunkSize
      invariant !closed ==> Sum(asks) == received || (rest == [] && received < chunkSize)
      invariant forall i :: 0 <= i < |asks| ==> 0 < asks[i] <= BUFFER_SIZE
      decreases chunkSize - received, if closed then 0 else 1
    {
      var ask := Min(BUFFER_SIZE, chunkSize - received);
      SumSnoc(asks, ask);
      asks := asks + [ask];
      var data := Take(rest, ask);
      ReadSplits(rest, ask);
      if data == [] {
        assert rest == [];
        closed := true;
      } else {
        var after := Drop(rest, ask);
        if |data| < ask {
          assert after == [] && received + |data| < chunkSize;
        }
        Regroup(chunk, data, after);
        chunk, rest := chunk + data, after;
        received := received + |data|;
      }
    }
    if !closed {
      assert chunk == stream[..chunkSize];
    }
  }

  lemma SumSnoc(xs: seq<nat>, x: nat)
    ensures Sum(xs + [x]) == Sum(xs) + x
  {
    assert (xs + [x])[..|xs|] == xs;
  }

  /** `recv(n)` takes what is there up to `n` bytes: a short read leaves nothing behind, an empty one means nothing was there. */
  lemma ReadSplits(s: seq<byte>, n: nat)
    requires n > 0
    ensures Take(s, n) + Drop(s, n) == s
    ensures |Take(s, n)| < n ==> Drop(s, n) == []
    ensures Take(s, n) == [] <==> s == []
  {
  }

  lemma Regroup<T>(a: seq<T>, b: seq<T>, c: seq<T>)
    ensures (a + b) + c == a + (b + c)
  {
  }

}
