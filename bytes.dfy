/**
 * Byte-level helpers shared by the frame codec: Python's `bytes.ljust`,
 * `int.to_bytes` / `int.from_bytes` in big-endian order, ASCII `encode` /
 * `decode`, and `str.strip`.
 */
module Bytes {
  import opened Wrappers

  newtype byte = x: int | 0 <= x < 256

  const SPACE: byte := 0x20

  function Min(a: int, b: int): int {
    if a <= b then a else b
  }

  /** `n` copies of the ASCII space, the fill byte of `bytes.ljust`. */
  function Spaces(n: nat): (r: seq<byte>)
    ensures |r| == n
  {
    seq(n, _ => SPACE)
  }

  lemma SpacesAreBlank(n: nat)
    ensures forall i :: 0 <= i < n ==> Spaces(n)[i] == SPACE
  {
  }

  /** `s.ljust(width)`: pads on the right with spaces up to `width`; a longer `s` is not truncated. */
  function LJust(s: seq<byte>, width: nat): (r: seq<byte>)
    ensures |r| == if |s| < width then width else |s|
  {
    if |s| < width then s + Spaces(width - |s|) else s
  }

  /** The padded text starts with `s` and continues with spaces only. */
  lemma LJustPads(s: seq<byte>, width: nat)
    ensures var r := LJust(s, width);
      r[..|s|] == s && forall i :: |s| <= i < |r| ==> r[i] == SPACE
  {
    var r := LJust(s, width);
    if |s| < width {
      SpacesAreBlank(width - |s|);
      assert r[..|s|] == s;
    }
  }

  // ---------------------------------------------------------------------------
  // Big-endian integers

  function Pow256(k: nat): (r: nat)
    ensures r >= 1
  {
    if k == 0 then 1 else 256 * Pow256(k - 1)
  }

  /** `int.from_bytes(bs, byteorder='big')`; defined for every length, an empty read gives 0. */
  function FromBigEndian(bs: seq<byte>): nat {
    if bs == [] then 0 else FromBigEndian(bs[..|bs| - 1]) * 256 + bs[|bs| - 1] as nat
  }

  /** `n.to_bytes(width, byteorder='big')`, which Python refuses (OverflowError) when `n` does not fit. */
  function ToBigEndian(n: nat, width: nat): (r: seq<byte>)
    requires n < Pow256(width)
    ensures |r| == width
  {
    if width == 0 then []
    else
      DivBelowPower(n, width);
      ToBigEndian(n / 256, width - 1) + [(n % 256) as byte]
  }

  lemma DivBelowPower(n: nat, width: nat)
    requires width > 0 && n < Pow256(width)
    ensures n / 256 < Pow256(width - 1)
  {
  }

  /** Reading back a big-endian encoding gives the number that was written. */
  lemma {:induction false} BigEndianRoundTrip(n: nat, width: nat)
    requires n < Pow256(width)
    ensures FromBigEndian(ToBigEndian(n, width)) == n
  {
    if width > 0 {
      DivBelowPower(n, width);
      var r := ToBigEndian(n, width);
      assert r[..width - 1] == ToBigEndian(n / 256, width - 1);
      BigEndianRoundTrip(n / 256, width - 1);
    }
  }

  /** Whatever `width` bytes hold, their big-endian value fits in `width` bytes. */
  lemma {:induction false} FromBigEndianBound(bs: seq<byte>)
    ensures FromBigEndian(bs) < Pow256(|bs|)
  {
    if bs != [] {
      FromBigEndianBound(bs[..|bs| - 1]);
    }
  }

  /** Encoding the value of any byte string of length `width` gives that byte string back. */
  lemma {:induction false} BigEndianInverse(bs: seq<byte>)
    ensures FromBigEndian(bs) < Pow256(|bs|)
    ensures ToBigEndian(FromBigEndian(bs), |bs|) == bs
  {
    FromBigEndianBound(bs);
    if bs != [] {
      var init := bs[..|bs| - 1];
      BigEndianInverse(init);
      var n := FromBigEndian(bs);
      assert n / 256 == FromBigEndian(init);
      assert n % 256 == bs[|bs| - 1] as nat;
      assert bs == init + [bs[|bs| - 1]];
    }
  }

  // ---------------------------------------------------------------------------
  // ASCII text

  predicate IsAscii(s: string) {
    forall i :: 0 <= i < |s| ==> s[i] as int < 128
  }

  /** `s.encode()` for an ASCII string: one byte per character. */
  function AsciiEncode(s: string): (r: seq<byte>)
    requires IsAscii(s)
    ensures |r| == |s|
    ensures forall i :: 0 <= i < |s| ==> r[i] as int == s[i] as int
  {
    seq(|s|, i requires 0 <= i < |s| => s[i] as int as byte)
  }

  /**
   * `bs.decode()` when every byte is ASCII; `None` stands for a frame the model
   * treats as undecodable (any byte at or above 0x80).
   */
  function AsciiDecode(bs: seq<byte>): (r: Option<string>)
    ensures r.Some? <==> forall i :: 0 <= i < |bs| ==> bs[i] < 128
    ensures r.Some? ==> |r.value| == |bs| && forall i :: 0 <= i < |bs| ==> r.value[i] as int == bs[i] as int
  {
    if bs == [] then Some([])
    else if bs[0] >= 128 then None
    else match AsciiDecode(bs[1..])
      case None => None
      case Some(t) => Some([bs[0] as int as char] + t)
  }

  lemma AsciiRoundTrip(s: string)
    requires IsAscii(s)
    ensures AsciiDecode(AsciiEncode(s)) == Some(s)
  {
    var r := AsciiDecode(AsciiEncode(s));
    assert r.Some?;
    assert r.value == s;
  }

  predicate IsContinuation(b: byte) {
    0x80 <= b < 0xC0
  }

  function Prepend(c: char, r: Option<string>): Option<string> {
    match r
    case None => None
    case Some(t) => Some([c] + t)
  }

  /**
   * `bs.decode()`: strict UTF-8 (no overlong forms, no surrogates, nothing
   * above U+10FFFF); `None` where Python raises `UnicodeDecodeError`.
   */
  function Utf8Decode(bs: seq<byte>): (r: Option<string>)
    decreases |bs|
  {
    if bs == [] then Some([])
    else
      var b0 := bs[0] as int;
      if b0 < 0x80 then
        Prepend(b0 as char, Utf8Decode(bs[1..]))
      else if 0xC2 <= b0 < 0xE0 && |bs| >= 2 && IsContinuation(bs[1]) then
        var cp := (b0 - 0xC0) * 0x40 + (bs[1] as int - 0x80);
        Prepend(cp as char, Utf8Decode(bs[2..]))
      else if 0xE0 <= b0 < 0xF0 && |bs| >= 3 && IsContinuation(bs[1]) && IsContinuation(bs[2])
              && (b0 != 0xE0 || bs[1] >= 0xA0) && (b0 != 0xED || bs[1] < 0xA0) then
        var cp := (b0 - 0xE0) * 0x1000 + (bs[1] as int - 0x80) * 0x40 + (bs[2] as int - 0x80);
        Prepend(cp as char, Utf8Decode(bs[3..]))
      else if 0xF0 <= b0 < 0xF5 && |bs| >= 4 && IsContinuation(bs[1]) && IsContinuation(bs[2])
              && IsContinuation(bs[3]) && (b0 != 0xF0 || bs[1] >= 0x90) && (b0 != 0xF4 || bs[1] < 0x90) then
        var cp := (b0 - 0xF0) * 0x4_0000 + (bs[1] as int - 0x80) * 0x1000
                  + (bs[2] as int - 0x80) * 0x40 + (bs[3] as int - 0x80);
        Prepend(cp as char, Utf8Decode(bs[4..]))
      else None
  }

  /** On ASCII bytes, UTF-8 decoding and ASCII decoding agree. */
  lemma {:induction false} Utf8DecodeAscii(bs: seq<byte>)
    requires forall i :: 0 <= i < |bs| ==> bs[i] < 128
    ensures Utf8Decode(bs) == AsciiDecode(bs)
  {
    if bs != [] {
      Utf8DecodeAscii(bs[1..]);
    }
  }

  /** An ASCII word padded with spaces decodes to the word followed by as many space characters. */
  lemma AsciiPaddedDecode(t: string, width: nat)
    requires IsAscii(t) && |t| <= width
    ensures Utf8Decode(LJust(AsciiEncode(t), width)) == Some(t + seq(width - |t|, _ => ' '))
  {
    var frame := LJust(AsciiEncode(t), width);
    var pad := seq(width - |t|, _ => ' ');
    Utf8DecodeAscii(frame);
    var text := AsciiDecode(frame).value;
    forall i | 0 <= i < width
      ensures text[i] == (t + pad)[i]
    {
      if i >= |t| {
        assert frame[i] == SPACE;
      }
    }
    assert text == t + pad;
  }

  // ---------------------------------------------------------------------------
  // str.strip()

  /** The characters for which Python's `str.isspace()` holds. */
  predicate IsSpace(c: char) {
    var n := c as int;
    (9 <= n <= 13) || (28 <= n <= 32) || n == 0x85 || n == 0xA0 || n == 0x1680
    || (0x2000 <= n <= 0x200A) || n == 0x2028 || n == 0x2029 || n == 0x202F
    || n == 0x205F || n == 0x3000
  }

  /** `s.lstrip()`: the longest suffix of `s` that does not start with whitespace. */
  function StripLeft(s: string): (r: string)
    ensures |r| <= |s| && r == s[|s| - |r|..]
    ensures r == [] || !IsSpace(r[0])
    ensures forall i :: 0 <= i < |s| - |r| ==> IsSpace(s[i])
  {
    if s != [] && IsSpace(s[0]) then StripLeft(s[1..]) else s
  }

  /** `s.rstrip()`: the longest prefix of `s` that does not end with whitespace. */
  function StripRight(s: string): (r: string)
    ensures |r| <= |s| && r == s[..|r|]
    ensures r == [] || !IsSpace(r[|r| - 1])
    ensures forall i :: |r| <= i < |s| ==> IsSpace(s[i])
  {
    if s != [] && IsSpace(s[|s| - 1]) then StripRight(s[..|s| - 1]) else s
  }

  /** `s.strip()`. */
  function Strip(s: string): string {
    StripRight(StripLeft(s))
  }

  /** Stripping a word that neither starts nor ends with whitespace, followed by whitespace, gives the word. */
  lemma StripPadded(t: string, pad: string)
    requires t != [] && !IsSpace(t[0]) && !IsSpace(t[|t| - 1])
    requires forall i :: 0 <= i < |pad| ==> IsSpace(pad[i])
    ensures Strip(t + pad) == t
  {
    var s := t + pad;
    assert s[0] == t[0];
    assert StripLeft(s) == s;
    StripRightPadded(t, pad);
  }

  /** A word followed by `n` space characters strips to the word. */
  lemma BlanksStrip(t: string, n: nat)
    requires t != [] && !IsSpace(t[0]) && !IsSpace(t[|t| - 1])
    ensures Strip(t + seq(n, _ => ' ')) == t
  {
    var pad := seq(n, _ => ' ');
    forall i | 0 <= i < |pad| ensures IsSpace(pad[i]) {
      assert pad[i] == ' ';
    }
    StripPadded(t, pad);
  }

  /** Trailing whitespace after a word that does not end with whitespace is what `rstrip` removes. */
  lemma {:induction false} StripRightPadded(t: string, pad: string)
    requires t != [] && !IsSpace(t[|t| - 1])
    requires forall i :: 0 <= i < |pad| ==> IsSpace(pad[i])
    ensures StripRight(t + pad) == t
    decreases |pad|
  {
    var s := t + pad;
    if pad == [] {
      assert s == t;
    } else {
      var shorter := pad[..|pad| - 1];
      assert s[|s| - 1] == pad[|pad| - 1];
      assert s[..|s| - 1] == t + shorter;
      StripRightPadded(t, shorter);
    }
  }
}
