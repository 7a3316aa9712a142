/**
 * The documents the engine exchanges and stores: request, resume, complete and
 * error headers, and the `.resume` / `.progress` sidecar records. In the source
 * these are JSON objects written with `json.dumps` / `json.dump` and read with
 * `json.loads` / `json.load`.
 *
 * The model keeps what the engine relies on: a document is an object of named
 * members whose values are strings, integers or null; `Get` behaves like
 * `dict.get`; and reading a written document, followed by the padding of a
 * header frame, gives the document back. The JSON text syntax itself is
 * replaced by a self-delimiting byte encoding (length-prefixed strings of
 * three-byte code points, base-128 integers), for which the round trip is
 * proved below.
 */
module Json {
  import opened Wrappers
  import opened Bytes

  datatype Value = Str(s: string) | Int(i: int) | Null
  datatype Member = Member(key: string, value: Value)
  type Object = seq<Member>

  /**
   * `obj.get(key)`: the value of the member named `key`. A parsed JSON object
   * keeps the last of duplicate keys, so the search runs from the end.
   */
  function Get(obj: Object, key: string): (r: Option<Value>)
    ensures r.None? <==> forall i :: 0 <= i < |obj| ==> obj[i].key != key
    ensures r.Some? ==> exists i :: 0 <= i < |obj| && obj[i] == Member(key, r.value)
  {
    if obj == [] then None
    else if obj[|obj| - 1].key == key then Some(obj[|obj| - 1].value)
    else Get(obj[..|obj| - 1], key)
  }

  // ---------------------------------------------------------------------------
  // Encoding

  /** Base-128 digits, least significant first, the high bit marking "more follows". */
  function EncodeNat(n: nat): (r: seq<byte>)
    ensures r != []
    decreases n
  {
    if n < 128 then [n as byte] else [(128 + n % 128) as byte] + EncodeNat(n / 128)
  }

  /** Byte `k` (0, 1 or 2) of the three-byte big-endian form of a code point. */
  function CharByte(c: char, k: nat): byte {
    var n := c as int;
    (if k == 0 then n / 0x1_0000 else if k == 1 then n / 0x100 % 0x100 else n % 0x100) as byte
  }

  /** Every code point in three bytes, most significant first. */
  function EncodeChars(s: string): (r: seq<byte>)
    ensures |r| == 3 * |s|
  {
    seq(3 * |s|, i requires 0 <= i < 3 * |s| => CharByte(s[i / 3], i % 3))
  }

  function EncodeString(s: string): seq<byte> {
    EncodeNat(|s|) + EncodeChars(s)
  }

  function EncodeValue(v: Value): seq<byte> {
    match v
    case Str(s) => [0] + EncodeString(s)
    case Int(i) => if i >= 0 then [1] + EncodeNat(i) else [2] + EncodeNat(-i)
    case Null => [3]
  }

  function EncodeMembers(obj: Object): seq<byte> {
    if obj == [] then []
    else EncodeString(obj[0].key) + EncodeValue(obj[0].value) + EncodeMembers(obj[1..])
  }

  /** The bytes `json.dumps(obj).encode()` stands for. */
  function Encode(obj: Object): seq<byte> {
    EncodeNat(|obj|) + EncodeMembers(obj)
  }

  // ---------------------------------------------------------------------------
  // Decoding: each parser returns what it read and the bytes after it.

  function DecodeNat(bs: seq<byte>): (r: Option<(nat, seq<byte>)>)
    ensures r.Some? ==> |r.value.1| < |bs| && r.value.1 == bs[|bs| - |r.value.1|..]
  {
    if bs == [] then None
    else if bs[0] < 128 then Some((bs[0] as nat, bs[1..]))
    else match DecodeNat(bs[1..])
      case None => None
      case Some((m, rest)) => Some((bs[0] as nat - 128 + 128 * m, rest))
  }

  predicate IsScalar(n: int) {
    0 <= n < 0xD800 || 0xE000 <= n < 0x11_0000
  }

  function DecodeChars(count: nat, bs: seq<byte>): Option<(string, seq<byte>)> {
    if count == 0 then Some(([], bs))
    else if |bs| < 3 then None
    else
      var n := bs[0] as int * 0x1_0000 + bs[1] as int * 0x100 + bs[2] as int;
      if !IsScalar(n) then None
      else match DecodeChars(count - 1, bs[3..])
        case None => None
        case Some((t, rest)) => Some(([n as char] + t, rest))
  }

  function DecodeString(bs: seq<byte>): Option<(string, seq<byte>)> {
    match DecodeNat(bs)
    case None => None
    case Some((n, rest)) => DecodeChars(n, rest)
  }

  function DecodeValue(bs: seq<byte>): Option<(Value, seq<byte>)> {
    if bs == [] then None
    else if bs[0] == 0 then
      match DecodeString(bs[1..])
      case None => None
      case Some((s, rest)) => Some((Str(s), rest))
    else if bs[0] == 1 || bs[0] == 2 then
      match DecodeNat(bs[1..])
      case None => None
      case Some((n, rest)) => Some((Int(if bs[0] == 1 then n else -(n as int)), rest))
    else if bs[0] == 3 then Some((Null, bs[1..]))
    else None
  }

  function DecodeMembers(count: nat, bs: seq<byte>): Option<(Object, seq<byte>)> {
    if count == 0 then Some(([], bs))
    else match DecodeString(bs)
      case None => None
      case Some((key, rest)) =>
        match DecodeValue(rest)
        case None => None
        case Some((v, rest')) =>
          match DecodeMembers(count - 1, rest')
          case None => None
          case Some((tail, rest'')) => Some(([Member(key, v)] + tail, rest''))
  }

  /** JSON's insignificant whitespace: space, tab, line feed, carriage return. */
  predicate IsJsonSpace(b: byte) {
    b == 0x20 || b == 0x09 || b == 0x0A || b == 0x0D
  }

  /**
   * `json.loads(bs.decode())`: one document followed by nothing but whitespace,
   * or `None` where Python raises a decoding error.
   */
  function Decode(bs: seq<byte>): (r: Option<Object>)
  {
    match DecodeNat(bs)
    case None => None
    case Some((n, rest)) =>
      match DecodeMembers(n, rest)
      case None => None
      case Some((obj, tail)) =>
        if forall i :: 0 <= i < |tail| ==> IsJsonSpace(tail[i]) then Some(obj) else None
  }

  // ---------------------------------------------------------------------------
  // Round trip

  lemma {:induction false} NatRoundTrip(n: nat, rest: seq<byte>)
    ensures DecodeNat(EncodeNat(n) + rest) == Some((n, rest))
    decreases n
  {
    if n >= 128 {
      var e := EncodeNat(n) + rest;
      assert e[1..] == EncodeNat(n / 128) + rest;
      NatRoundTrip(n / 128, rest);
    }
  }

  /** The three bytes of a code point put it back together. */
  lemma CharBytesJoin(c: char)
    ensures CharByte(c, 0) as int * 0x1_0000 + CharByte(c, 1) as int * 0x100 + CharByte(c, 2) as int == c as int
  {
    var n := c as int;
    assert n == n / 0x1_0000 * 0x1_0000 + n % 0x1_0000;
    assert n % 0x1_0000 == n / 0x100 % 0x100 * 0x100 + n % 0x100;
  }

  lemma {:induction false} CharsRoundTrip(s: string, rest: seq<byte>)
    ensures DecodeChars(|s|, EncodeChars(s) + rest) == Some((s, rest))
  {
    var e := EncodeChars(s) + rest;
    if s != [] {
      var tail := EncodeChars(s[1..]) + rest;
      assert e[3..] == tail by {
        assert EncodeChars(s)[3..] == EncodeChars(s[1..]);
      }
      CharBytesJoin(s[0]);
      assert e[0] as int * 0x1_0000 + e[1] as int * 0x100 + e[2] as int == s[0] as int;
      CharsRoundTrip(s[1..], rest);
      assert [s[0]] + s[1..] == s;
    } else {
      assert e == rest;
    }
  }

  lemma StringRoundTrip(s: string, rest: seq<byte>)
    ensures DecodeString(EncodeString(s) + rest) == Some((s, rest))
  {
    assert EncodeString(s) + rest == EncodeNat(|s|) + (EncodeChars(s) + rest);
    NatRoundTrip(|s|, EncodeChars(s) + rest);
    CharsRoundTrip(s, rest);
  }

  lemma ValueRoundTrip(v: Value, rest: seq<byte>)
    ensures DecodeValue(EncodeValue(v) + rest) == Some((v, rest))
  {
    match v
    case Str(s) => StrRoundTrip(s, rest);
    case Int(i) => IntRoundTrip(i, rest);
    case Null =>
      var e := EncodeValue(v) + rest;
      assert e[0] == 3 && e[1..] == rest;
  }

  lemma StrRoundTrip(s: string, rest: seq<byte>)
    ensures DecodeValue(EncodeValue(Str(s)) + rest) == Some((Str(s), rest))
  {
    var e := EncodeValue(Str(s)) + rest;
    assert e == [0] + (EncodeString(s) + rest);
    assert e[0] == 0 && e[1..] == EncodeString(s) + rest;
    StringRoundTrip(s, rest);
  }

  lemma IntRoundTrip(i: int, rest: seq<byte>)
    ensures DecodeValue(EncodeValue(Int(i)) + rest) == Some((Int(i), rest))
  {
    var e := EncodeValue(Int(i)) + rest;
    var m: nat := if i >= 0 then i else -i;
    var tag: byte := if i >= 0 then 1 else 2;
    assert e == [tag] + (EncodeNat(m) + rest);
    assert e[0] == tag && e[1..] == EncodeNat(m) + rest;
    NatRoundTrip(m, rest);
  }

  /** One step of `DecodeMembers`: a key and a value, then the remaining members. */
  lemma DecodeMembersStep(count: nat, bs: seq<byte>, key: string, mid: seq<byte>, v: Value, after: seq<byte>)
    requires count > 0
    requires DecodeString(bs) == Some((key, mid))
    requires DecodeValue(mid) == Some((v, after))
    ensures DecodeMembers(count, bs) ==
      match DecodeMembers(count - 1, after)
      case None => None
      case Some((tail, rest)) => Some(([Member(key, v)] + tail, rest))
  {
  }

  lemma EncodeMembersFirst(obj: Object, rest: seq<byte>)
    requires obj != []
    ensures EncodeMembers(obj) + rest ==
      EncodeString(obj[0].key) + (EncodeValue(obj[0].value) + (EncodeMembers(obj[1..]) + rest))
  {
  }

  lemma {:induction false} MembersRoundTrip(obj: Object, rest: seq<byte>)
    ensures DecodeMembers(|obj|, EncodeMembers(obj) + rest) == Some((obj, rest))
  {
    if obj != [] {
      var key, v := obj[0].key, obj[0].value;
      var tail := EncodeMembers(obj[1..]) + rest;
      var mid := EncodeValue(v) + tail;
      var e := EncodeMembers(obj) + rest;
      EncodeMembersFirst(obj, rest);
      StringRoundTrip(key, mid);
      ValueRoundTrip(v, tail);
      MembersRoundTrip(obj[1..], rest);
      DecodeMembersStep(|obj|, e, key, mid, v, tail);
      assert [Member(key, v)] + obj[1..] == obj;
    } else {
      assert EncodeMembers(obj) + rest == rest;
    }
  }

  /** A written document, followed by any whitespace, reads back as the same document. */
  lemma RoundTrip(obj: Object, pad: seq<byte>)
    requires forall i :: 0 <= i < |pad| ==> IsJsonSpace(pad[i])
    ensures Decode(Encode(obj) + pad) == Some(obj)
  {
    assert Encode(obj) + pad == EncodeNat(|obj|) + (EncodeMembers(obj) + pad);
    NatRoundTrip(|obj|, EncodeMembers(obj) + pad);
    MembersRoundTrip(obj, pad);
  }
}
