/**
 * The two byte encodings Node's `Buffer` applies on the way to the wire:
 * `Buffer.from(str)` encodes a string as UTF-8, and `buf.toString('base64')`
 * renders bytes in the standard base64 alphabet with `=` padding
 * (section 4 of RFC 4648). A strict decoder is given as the encoder's
 * inverse.
 */
module Encoding {
  import opened Js

  type byte = x: int | 0 <= x < 256

  /** A base64 digit value. */
  type sextet = x: int | 0 <= x < 64

  // ----- UTF-8 -----

  /** The UTF-8 bytes of one Unicode scalar value. */
  function Utf8Char(c: char): (r: seq<byte>)
    ensures 1 <= |r| <= 4
    ensures c as int < 128 <==> |r| == 1
    ensures c as int < 128 ==> r[0] == c as int
  {
    var cp := c as int;
    if cp < 0x80 then [cp]
    else if cp < 0x800 then [0xC0 + cp / 64, 0x80 + cp % 64]
    else if cp < 0x10000 then [0xE0 + cp / 4096, 0x80 + (cp / 64) % 64, 0x80 + cp % 64]
    else [0xF0 + cp / 262144, 0x80 + (cp / 4096) % 64, 0x80 + (cp / 64) % 64, 0x80 + cp % 64]
  }

  /** `Buffer.from(s)`: the UTF-8 encoding of a whole string. */
  function Utf8Encode(s: string): (r: seq<byte>)
    ensures |s| <= |r| <= 4 * |s|
  {
    if s == [] then [] else Utf8Char(s[0]) + Utf8Encode(s[1..])
  }

  /** Encoding distributes over concatenation. */
  lemma {:induction false} Utf8Concat(a: string, b: string)
    ensures Utf8Encode(a + b) == Utf8Encode(a) + Utf8Encode(b)
  {
    if a != [] {
      assert (a + b)[0] == a[0];
      assert (a + b)[1..] == a[1..] + b;
      Utf8Concat(a[1..], b);
      calc {
        Utf8Encode(a + b);
        Utf8Char(a[0]) + Utf8Encode(a[1..] + b);
        Utf8Char(a[0]) + (Utf8Encode(a[1..]) + Utf8Encode(b));
        (Utf8Char(a[0]) + Utf8Encode(a[1..])) + Utf8Encode(b);
      }
    } else {
      assert a + b == b;
    }
  }

  predicate IsAscii(s: string) {
    forall i :: 0 <= i < |s| ==> s[i] as int < 128
  }

  /** An ASCII string encodes to one byte per character, the character's code. */
  lemma {:induction false} Utf8Ascii(s: string)
    requires IsAscii(s)
    ensures |Utf8Encode(s)| == |s|
    ensures forall i :: 0 <= i < |s| ==> Utf8Encode(s)[i] == s[i] as int
  {
    if s != [] {
      Utf8Ascii(s[1..]);
    }
  }

  // ----- base64 -----

  function Base64Char(v: sextet): (c: char)
    ensures Base64Value(c) == Some(v)
  {
    if v < 26 then ('A' as int + v) as char
    else if v < 52 then ('a' as int + (v - 26)) as char
    else if v < 62 then ('0' as int + (v - 52)) as char
    else if v == 62 then '+'
    else '/'
  }

  /** The digit value of an alphabet character, or None for any other character. */
  function Base64Value(c: char): Option<sextet> {
    if 'A' <= c <= 'Z' then Some(c as int - 'A' as int)
    else if 'a' <= c <= 'z' then Some(c as int - 'a' as int + 26)
    else if '0' <= c <= '9' then Some(c as int - '0' as int + 52)
    else if c == '+' then Some(62)
    else if c == '/' then Some(63)
    else None
  }

  predicate IsBase64Char(c: char) {
    Base64Value(c).Some? || c == '='
  }

  /** Three bytes as four digits. */
  function EncodeGroup(b0: byte, b1: byte, b2: byte): string {
    [Base64Char(b0 / 4), Base64Char((b0 % 4) * 16 + b1 / 16),
     Base64Char((b1 % 16) * 4 + b2 / 64), Base64Char(b2 % 64)]
  }

  /** `Buffer.from(b).toString('base64')`. */
  function Base64Encode(b: seq<byte>): (r: string)
    ensures |r| == 4 * ((|b| + 2) / 3)
    ensures forall i :: 0 <= i < |r| ==> IsBase64Char(r[i])
    decreases |b|
  {
    if |b| == 0 then ""
    else if |b| == 1 then
      [Base64Char(b[0] / 4), Base64Char((b[0] % 4) * 16), '=', '=']
    else if |b| == 2 then
      [Base64Char(b[0] / 4), Base64Char((b[0] % 4) * 16 + b[1] / 16), Base64Char((b[1] % 16) * 4), '=']
    else
      EncodeGroup(b[0], b[1], b[2]) + Base64Encode(b[3..])
  }

  /** Four digit values as three bytes. */
  function DecodeValues(v0: sextet, v1: sextet, v2: sextet, v3: sextet): seq<byte> {
    [v0 * 4 + v1 / 16, (v1 % 16) * 16 + v2 / 4, (v2 % 4) * 64 + v3]
  }

  /** The last quadruple of an encoding: up to two trailing `=` signs, and the
      bits the padding drops must be zero. */
  function DecodeLast(c0: char, c1: char, c2: char, c3: char): Option<seq<byte>> {
    match (Base64Value(c0), Base64Value(c1), Base64Value(c2), Base64Value(c3))
    case (Some(v0), Some(v1), None, None) =>
      var bytes: seq<byte> := [(v0 as int) * 4 + v1 / 16];
      if c2 == '=' && c3 == '=' && v1 % 16 == 0 then Some(bytes) else None
    case (Some(v0), Some(v1), Some(v2), None) =>
      var bytes: seq<byte> := [(v0 as int) * 4 + v1 / 16, ((v1 as int) % 16) * 16 + v2 / 4];
      if c3 == '=' && v2 % 4 == 0 then Some(bytes) else None
    case (Some(v0), Some(v1), Some(v2), Some(v3)) => Some(DecodeValues(v0, v1, v2, v3))
    case _ => None
  }

  /** Strict base64 decoding: whole quadruples, padding only at the end. */
  function Base64Decode(s: string): Option<seq<byte>>
    decreases |s|
  {
    if |s| == 0 then Some([])
    else if |s| < 4 then None
    else if |s| == 4 then DecodeLast(s[0], s[1], s[2], s[3])
    else
      match (Base64Value(s[0]), Base64Value(s[1]), Base64Value(s[2]), Base64Value(s[3]))
      case (Some(v0), Some(v1), Some(v2), Some(v3)) =>
        (match Base64Decode(s[4..])
         case None => None
         case Some(rest) => Some(DecodeValues(v0, v1, v2, v3) + rest))
      case _ => None
  }

  lemma GroupRoundTrip(b0: byte, b1: byte, b2: byte)
    ensures DecodeValues(b0 / 4, (b0 % 4) * 16 + b1 / 16, (b1 % 16) * 4 + b2 / 64, b2 % 64) == [b0, b1, b2]
  {
    assert ((b0 % 4) * 16 + b1 / 16) / 16 == b0 % 4;
    assert ((b0 % 4) * 16 + b1 / 16) % 16 == b1 / 16;
    assert ((b1 % 16) * 4 + b2 / 64) / 4 == b1 % 16;
    assert ((b1 % 16) * 4 + b2 / 64) % 4 == b2 / 64;
  }

  lemma OneByteRoundTrip(b0: byte)
    ensures Base64Decode(Base64Encode([b0])) == Some([b0])
  {
    var s := Base64Encode([b0]);
    assert Base64Decode(s) == DecodeLast(s[0], s[1], s[2], s[3]);
  }

  lemma TwoBytesRoundTrip(b0: byte, b1: byte)
    ensures Base64Decode(Base64Encode([b0, b1])) == Some([b0, b1])
  {
    var v1 := (b0 % 4) * 16 + b1 / 16;
    var v2 := (b1 % 16) * 4;
    assert v1 / 16 == b0 % 4 && v1 % 16 == b1 / 16;
    assert v2 / 4 == b1 % 16 && v2 % 4 == 0;
    var s := Base64Encode([b0, b1]);
    assert Base64Decode(s) == DecodeLast(s[0], s[1], s[2], s[3]);
  }

  lemma GroupValues(b0: byte, b1: byte, b2: byte)
    ensures var g := EncodeGroup(b0, b1, b2);
      Base64Value(g[0]).Some? && Base64Value(g[1]).Some? && Base64Value(g[2]).Some? && Base64Value(g[3]).Some? &&
      DecodeValues(Base64Value(g[0]).value, Base64Value(g[1]).value, Base64Value(g[2]).value, Base64Value(g[3]).value) == [b0, b1, b2]
  {
    GroupRoundTrip(b0, b1, b2);
  }

  lemma ThreeBytesRoundTrip(b0: byte, b1: byte, b2: byte)
    ensures Base64Decode(Base64Encode([b0, b1, b2])) == Some([b0, b1, b2])
  {
    GroupValues(b0, b1, b2);
    var b := [b0, b1, b2];
    assert b[3..] == [];
    var s := Base64Encode(b);
    assert s == EncodeGroup(b0, b1, b2) + "";
    assert Base64Decode(s) == DecodeLast(s[0], s[1], s[2], s[3]);
  }

  /** A complete quadruple in front of a non-empty valid encoding decodes to its three bytes in front. */
  lemma DecodeFront(g: string, rest: string, b0: byte, b1: byte, b2: byte, tail: seq<byte>)
    requires g == EncodeGroup(b0, b1, b2) && |rest| > 0 && Base64Decode(rest) == Some(tail)
    ensures Base64Decode(g + rest) == Some([b0, b1, b2] + tail)
  {
    GroupValues(b0, b1, b2);
    var s := g + rest;
    assert s[4..] == rest;
    assert s[0] == g[0] && s[1] == g[1] && s[2] == g[2] && s[3] == g[3];
  }

  /** Decoding inverts encoding. */
  lemma {:induction false} Base64RoundTrip(b: seq<byte>)
    ensures Base64Decode(Base64Encode(b)) == Some(b)
    decreases |b|
  {
    if |b| == 1 {
      assert b == [b[0]];
      OneByteRoundTrip(b[0]);
    } else if |b| == 2 {
      assert b == [b[0], b[1]];
      TwoBytesRoundTrip(b[0], b[1]);
    } else if |b| == 3 {
      assert b == [b[0], b[1], b[2]];
      ThreeBytesRoundTrip(b[0], b[1], b[2]);
    } else if |b| > 3 {
      var tail := b[3..];
      var g := EncodeGroup(b[0], b[1], b[2]);
      var rest := Base64Encode(tail);
      assert Base64Encode(b) == g + rest;
      Base64RoundTrip(tail);
      DecodeFront(g, rest, b[0], b[1], b[2], tail);
      assert b == [b[0], b[1], b[2]] + tail;
    }
  }

  /** The length of a 32-byte digest in base64. */
  lemma Base64Of32Bytes(b: seq<byte>)
    requires |b| == 32
    ensures |Base64Encode(b)| == 44
  {
  }
}
