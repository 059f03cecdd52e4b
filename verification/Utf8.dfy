/** UTF-8 as section 3 of RFC 3629 defines it. A `string` is a sequence of Unicode scalar
    values, which is what a stream decoded with setEncoding('utf8') hands out. */
module Utf8 {
  import opened Options

  type Byte = b: int | 0 <= b < 0x100

  /** The byte continues a character that started before it: its top two bits are 10. */
  predicate IsContinuation(b: Byte) {
    b / 0x40 == 2
  }

  function EncodeChar(c: char): (bytes: seq<Byte>)
    ensures 1 <= |bytes| <= 4
    ensures !IsContinuation(bytes[0])
    ensures forall j :: 1 <= j < |bytes| ==> IsContinuation(bytes[j])
  {
    var n := c as int;
    if n < 0x80 then [n]
    else if n < 0x800 then [0xC0 + n / 0x40, 0x80 + n % 0x40]
    else if n < 0x1_0000 then [0xE0 + n / 0x1000, 0x80 + n / 0x40 % 0x40, 0x80 + n % 0x40]
    else [0xF0 + n / 0x4_0000, 0x80 + n / 0x1000 % 0x40, 0x80 + n / 0x40 % 0x40, 0x80 + n % 0x40]
  }

  function Encode(text: string): seq<Byte> {
    if text == "" then [] else EncodeChar(text[0]) + Encode(text[1..])
  }

  function ByteLength(text: string): nat {
    |Encode(text)|
  }

  predicate IsScalar(n: int) {
    0 <= n < 0xD800 || 0xE000 <= n < 0x11_0000
  }

  /** The character a byte sequence opens with and the number of bytes it takes, or None when
      the bytes open with no character: overlong forms, surrogates and values past U+10FFFF
      are refused. */
  function DecodeChar(bytes: seq<Byte>): (r: Option<(char, nat)>)
    ensures r.Some? ==> 1 <= r.value.1 <= |bytes|
  {
    if bytes == [] then None
    else
      var b: int := bytes[0];
      if b < 0x80 then Some((b as char, 1))
      else if 0xC0 <= b < 0xE0 && |bytes| >= 2 && IsContinuation(bytes[1]) then
        var n: int := (b - 0xC0) * 0x40 + (bytes[1] as int - 0x80);
        if n >= 0x80 then Some((n as char, 2)) else None
      else if 0xE0 <= b < 0xF0 && |bytes| >= 3 && IsContinuation(bytes[1]) && IsContinuation(bytes[2]) then
        var n: int := (b - 0xE0) * 0x1000 + (bytes[1] as int - 0x80) * 0x40 + (bytes[2] as int - 0x80);
        if n >= 0x800 && IsScalar(n) then Some((n as char, 3)) else None
      else if 0xF0 <= b < 0xF8 && |bytes| >= 4
           && IsContinuation(bytes[1]) && IsContinuation(bytes[2]) && IsContinuation(bytes[3]) then
        var n: int := (b - 0xF0) * 0x4_0000 + (bytes[1] as int - 0x80) * 0x1000 + (bytes[2] as int - 0x80) * 0x40 + (bytes[3] as int - 0x80);
        if n >= 0x1_0000 && IsScalar(n) then Some((n as char, 4)) else None
      else None
  }

  function Decode(bytes: seq<Byte>): Option<string> {
    if bytes == [] then Some("")
    else
      match DecodeChar(bytes)
      case None => None
      case Some((c, width)) =>
        match Decode(bytes[width..])
        case None => None
        case Some(rest) => Some([c] + rest)
  }

  lemma SixBitGroups(n: nat)
    ensures n / 0x1000 == n / 0x40 / 0x40 && n / 0x4_0000 == n / 0x1000 / 0x40
  {
  }

  lemma DecodeCharAfterEncodeChar(c: char, rest: seq<Byte>)
    ensures DecodeChar(EncodeChar(c) + rest) == Some((c, |EncodeChar(c)|))
  {
    var n := c as int;
    SixBitGroups(n);
    var bytes := EncodeChar(c) + rest;
    if n < 0x80 {
      assert bytes[0] == n;
    } else if n < 0x800 {
      assert bytes[..2] == EncodeChar(c);
    } else if n < 0x1_0000 {
      assert bytes[..3] == EncodeChar(c);
    } else {
      assert bytes[..4] == EncodeChar(c);
    }
  }

  lemma EncodeCharAfterDecodeChar(bytes: seq<Byte>)
    requires DecodeChar(bytes).Some?
    ensures EncodeChar(DecodeChar(bytes).value.0) == bytes[..DecodeChar(bytes).value.1]
  {
    var (c, width) := DecodeChar(bytes).value;
    var n := c as int;
    SixBitGroups(n);
    if width == 1 {
    } else if width == 2 {
      assert n / 0x40 == bytes[0] as int - 0xC0;
    } else if width == 3 {
      assert n / 0x40 == (bytes[0] as int - 0xE0) * 0x40 + (bytes[1] as int - 0x80);
    } else {
      var high := (bytes[0] as int - 0xF0) * 0x40 + (bytes[1] as int - 0x80);
      assert n / 0x40 == high * 0x40 + (bytes[2] as int - 0x80);
      assert n / 0x40 / 0x40 == high;
    }
  }

  lemma {:induction false} EncodeAfterDecode(bytes: seq<Byte>)
    requires Decode(bytes).Some?
    ensures Encode(Decode(bytes).value) == bytes
    decreases |bytes|
  {
    hide DecodeChar, EncodeChar;
    if bytes != [] {
      var (c, width) := DecodeChar(bytes).value;
      EncodeCharAfterDecodeChar(bytes);
      EncodeAfterDecode(bytes[width..]);
      var rest := Decode(bytes[width..]).value;
      assert ([c] + rest)[1..] == rest;
      assert bytes == bytes[..width] + bytes[width..];
    }
  }

  lemma {:induction false} DecodeAfterEncode(text: string)
    ensures Decode(Encode(text)) == Some(text)
  {
    hide DecodeChar, EncodeChar;
    if text != "" {
      var first, rest := EncodeChar(text[0]), Encode(text[1..]);
      DecodeCharAfterEncodeChar(text[0], rest);
      assert (first + rest)[|first|..] == rest;
      DecodeAfterEncode(text[1..]);
      assert text == [text[0]] + text[1..];
    }
  }

  /** Decoding accepts exactly the encodings, and undoes them. */
  lemma DecodeIsInverseOfEncode(text: string, bytes: seq<Byte>)
    ensures Decode(bytes) == Some(text) <==> bytes == Encode(text)
  {
    hide Decode, Encode;
    if Decode(bytes).Some? {
      EncodeAfterDecode(bytes);
    }
    DecodeAfterEncode(text);
  }

  lemma {:induction false} EncodeAppend(s: string, t: string)
    ensures Encode(s + t) == Encode(s) + Encode(t)
  {
    if s == "" {
      assert s + t == t;
    } else {
      EncodeAppend(s[1..], t);
      assert (s + t)[1..] == s[1..] + t;
    }
  }

  lemma SuffixBytes(text: string, k: nat)
    requires k <= |text|
    ensures Encode(text) == Encode(text[..k]) + Encode(text[k..])
  {
    hide Encode;
    EncodeAppend(text[..k], text[k..]);
    assert text[..k] + text[k..] == text;
  }

  /** A proper suffix takes strictly fewer bytes, so its length in bytes identifies it. */
  lemma SuffixBytesStrict(text: string, j: nat, k: nat)
    requires j < k <= |text|
    ensures ByteLength(text[k..]) < ByteLength(text[j..])
  {
    SuffixBytes(text[j..], k - j);
    assert text[j..][k - j..] == text[k..];
    assert Encode(text[j..][..k - j]) != [];
  }
}
