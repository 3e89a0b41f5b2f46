/**
 The text encoding under every frame and every name: UTF-8 as section 3 of
 RFC 3629 defines it, with no overlong forms, no surrogates and nothing past
 U+10FFFF. `Decode` stands for `std::str::from_utf8`, `Encode` for `as_bytes`.
 */
module Utf8 {
  import opened Common

  function EncodeChar(c: char): (bs: Bytes)
    ensures 1 <= |bs| <= 4
    ensures |bs| == 1 <==> c as int < 0x80
  {
    var n := c as int;
    if n < 0x80 then [n]
    else if n < 0x800 then [0xC0 + n / 64, 0x80 + n % 64]
    else if n < 0x10000 then [0xE0 + n / 4096, 0x80 + n / 64 % 64, 0x80 + n % 64]
    else [0xF0 + n / 262144, 0x80 + n / 4096 % 64, 0x80 + n / 64 % 64, 0x80 + n % 64]
  }

  function Encode(s: string): Bytes {
    if s == "" then [] else EncodeChar(s[0]) + Encode(s[1..])
  }

  /** The byte length of a text: Rust's `len()`. */
  function ByteLen(s: string): nat {
    |Encode(s)|
  }

  predicate IsContinuation(b: Byte) {
    0x80 <= b < 0xC0
  }

  predicate IsScalar(n: int) {
    0 <= n < 0xD800 || 0xE000 <= n < 0x110000
  }

  // The scalar value spelled by two, three and four bytes.
  function Value2(b0: int, b1: int): int {
    (b0 - 0xC0) * 64 + (b1 - 0x80)
  }

  function Value3(b0: int, b1: int, b2: int): int {
    (b0 - 0xE0) * 4096 + (b1 - 0x80) * 64 + (b2 - 0x80)
  }

  function Value4(b0: int, b1: int, b2: int, b3: int): int {
    (b0 - 0xF0) * 262144 + (b1 - 0x80) * 4096 + (b2 - 0x80) * 64 + (b3 - 0x80)
  }

  /** The scalar value the first bytes spell, and how many bytes it took. */
  function DecodeChar(bs: Bytes): (r: Option<(char, nat)>)
    ensures r.Some? ==> 1 <= r.value.1 <= |bs|
  {
    if bs == [] then None
    else if bs[0] < 0x80 then Some((bs[0] as char, 1))
    else if 0xC2 <= bs[0] < 0xE0 then
      if |bs| >= 2 && IsContinuation(bs[1])
      then Some((Value2(bs[0], bs[1]) as char, 2))
      else None
    else if 0xE0 <= bs[0] < 0xF0 then
      if |bs| >= 3 && IsContinuation(bs[1]) && IsContinuation(bs[2]) then
        var n := Value3(bs[0], bs[1], bs[2]);
        if n >= 0x800 && IsScalar(n) then Some((n as char, 3)) else None
      else None
    else if 0xF0 <= bs[0] < 0xF5 then
      if |bs| >= 4 && IsContinuation(bs[1]) && IsContinuation(bs[2]) && IsContinuation(bs[3]) then
        var n := Value4(bs[0], bs[1], bs[2], bs[3]);
        if n >= 0x10000 && IsScalar(n) then Some((n as char, 4)) else None
      else None
    else None
  }

  function Decode(bs: Bytes): Option<string> {
    if bs == [] then Some("")
    else
      match DecodeChar(bs)
      case None => None
      case Some((c, n)) =>
        match Decode(bs[n..])
        case None => None
        case Some(s) => Some([c] + s)
  }

  lemma SixBits(n: int)
    requires n >= 0
    ensures n == n / 64 * 64 + n % 64 && n / 64 == n / 4096 * 64 + n / 64 % 64
    ensures n / 4096 == n / 262144 * 64 + n / 4096 % 64
  {
    NestedDivision(n);
  }

  lemma DecodeShort(c: char, rest: Bytes)
    requires c as int < 0x800
    ensures DecodeChar(EncodeChar(c) + rest) == Some((c, |EncodeChar(c)|))
  {
    SixBits(c as int);
  }

  lemma DecodeThree(c: char, rest: Bytes)
    requires 0x800 <= c as int < 0x10000
    ensures DecodeChar(EncodeChar(c) + rest) == Some((c, |EncodeChar(c)|))
  {
    var n := c as int;
    SixBits(n);
    assert Value3(0xE0 + n / 4096, 0x80 + n / 64 % 64, 0x80 + n % 64) == n;
  }

  lemma DecodeFour(c: char, rest: Bytes)
    requires 0x10000 <= c as int
    ensures DecodeChar(EncodeChar(c) + rest) == Some((c, |EncodeChar(c)|))
  {
    var n := c as int;
    SixBits(n);
    assert Value4(0xF0 + n / 262144, 0x80 + n / 4096 % 64, 0x80 + n / 64 % 64, 0x80 + n % 64) == n;
  }

  lemma DecodeEncodedChar(c: char, rest: Bytes)
    ensures DecodeChar(EncodeChar(c) + rest) == Some((c, |EncodeChar(c)|))
  {
    if c as int < 0x800 {
      DecodeShort(c, rest);
    } else if c as int < 0x10000 {
      DecodeThree(c, rest);
    } else {
      DecodeFour(c, rest);
    }
  }

  lemma EncodeDecodedChar(bs: Bytes)
    requires DecodeChar(bs).Some?
    ensures EncodeChar(DecodeChar(bs).value.0) == bs[..DecodeChar(bs).value.1]
  {
    var k := DecodeChar(bs).value.1;
    if k == 2 {
      Split2(bs[0], bs[1]);
    } else if k == 3 {
      Split3(bs[0], bs[1], bs[2]);
    } else if k == 4 {
      Split4(bs[0], bs[1], bs[2], bs[3]);
    }
  }

  /** Six bits shifted out. */
  lemma Shift(q: int, r: int)
    requires 0 <= r < 64
    ensures (q * 64 + r) / 64 == q && (q * 64 + r) % 64 == r
  {
  }

  lemma NestedDivision(n: int)
    ensures n / 4096 == n / 64 / 64 && n / 262144 == n / 4096 / 64
  {
  }

  lemma Split2(b0: int, b1: int)
    requires 0x80 <= b1 < 0xC0
    ensures var n := Value2(b0, b1); n / 64 == b0 - 0xC0 && n % 64 == b1 - 0x80
  {
    Shift(b0 - 0xC0, b1 - 0x80);
  }

  lemma Split3(b0: int, b1: int, b2: int)
    requires 0x80 <= b1 < 0xC0 && 0x80 <= b2 < 0xC0
    ensures var n := Value3(b0, b1, b2);
            n / 4096 == b0 - 0xE0 && n / 64 % 64 == b1 - 0x80 && n % 64 == b2 - 0x80
  {
    var high := (b0 - 0xE0) * 64 + (b1 - 0x80);
    assert Value3(b0, b1, b2) == high * 64 + (b2 - 0x80);
    Shift(high, b2 - 0x80);
    Shift(b0 - 0xE0, b1 - 0x80);
    NestedDivision(Value3(b0, b1, b2));
  }

  lemma Split4(b0: int, b1: int, b2: int, b3: int)
    requires 0x80 <= b1 < 0xC0 && 0x80 <= b2 < 0xC0 && 0x80 <= b3 < 0xC0
    ensures var n := Value4(b0, b1, b2, b3);
            && n / 262144 == b0 - 0xF0 && n / 4096 % 64 == b1 - 0x80
            && n / 64 % 64 == b2 - 0x80 && n % 64 == b3 - 0x80
  {
    var top := (b0 - 0xF0) * 64 + (b1 - 0x80);
    var high := top * 64 + (b2 - 0x80);
    assert Value4(b0, b1, b2, b3) == high * 64 + (b3 - 0x80);
    Shift(high, b3 - 0x80);
    Shift(top, b2 - 0x80);
    Shift(b0 - 0xF0, b1 - 0x80);
    NestedDivision(Value4(b0, b1, b2, b3));
  }

  /** Decoding is a left inverse of encoding, on every text. */
  lemma {:induction false} DecodeEncode(s: string)
    ensures Decode(Encode(s)) == Some(s)
  {
    if s != "" {
      var head, tail := EncodeChar(s[0]), Encode(s[1..]);
      DecodeEncodedChar(s[0], tail);
      assert (head + tail)[|head|..] == tail;
      DecodeEncode(s[1..]);
      assert s == [s[0]] + s[1..];
    }
  }

  lemma DecodeStep(bs: Bytes) returns (c: char, k: nat, s: string)
    requires bs != [] && Decode(bs).Some?
    ensures k <= |bs| && DecodeChar(bs) == Some((c, k))
    ensures Decode(bs[k..]) == Some(s) && Decode(bs) == Some([c] + s)
  {
    c, k := DecodeChar(bs).value.0, DecodeChar(bs).value.1;
    s := Decode(bs[k..]).value;
  }

  lemma EncodeStep(c: char, s: string, bs: Bytes, k: nat)
    requires k <= |bs| && EncodeChar(c) == bs[..k] && Encode(s) == bs[k..]
    ensures Encode([c] + s) == bs
  {
    assert ([c] + s)[1..] == s;
    assert bs == bs[..k] + bs[k..];
  }

  /** Only the canonical encoding of a text decodes to it. */
  lemma {:induction false} OnlyEncoding(bs: Bytes, s: string)
    requires Decode(bs) == Some(s)
    ensures Encode(s) == bs
  {
    if bs != [] {
      var c, k, tail := DecodeStep(bs);
      EncodeDecodedChar(bs);
      OnlyEncoding(bs[k..], tail);
      EncodeStep(c, tail, bs, k);
    }
  }

  lemma EncodeDecode(bs: Bytes)
    requires Decode(bs).Some?
    ensures Encode(Decode(bs).value) == bs
  {
    OnlyEncoding(bs, Decode(bs).value);
  }

  predicate IsAscii(s: string) {
    forall i :: 0 <= i < |s| ==> s[i] as int < 0x80
  }

  lemma {:induction false} AsciiByteLen(s: string)
    ensures ByteLen(s) >= |s|
    ensures IsAscii(s) <==> ByteLen(s) == |s|
  {
    if s != "" {
      AsciiByteLen(s[1..]);
      assert s == [s[0]] + s[1..];
    }
  }

  /** One scalar of each length, as section 3 of RFC 3629 encodes it. */
  lemma KnownEncodings()
    ensures EncodeChar('A') == [0x41] && EncodeChar('\U{E9}') == [0xC3, 0xA9]
    ensures EncodeChar('\U{20AC}') == [0xE2, 0x82, 0xAC] && EncodeChar('\U{1F389}') == [0xF0, 0x9F, 0x8E, 0x89]
    ensures DecodeChar([0xC0, 0x80]).None? && DecodeChar([0xED, 0xA0, 0x80]).None?
    ensures DecodeChar([0xE0, 0x80, 0x80]).None? && DecodeChar([0xF4, 0x90, 0x80, 0x80]).None?
  {
  }
}
