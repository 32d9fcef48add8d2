/**
 Bytes and the UTF-8 encoding that turns keys into hashed bytes and header
 fields into text.
 */
module Utf8 {
  import opened Common

  type Byte = b: int | 0 <= b < 256

  /** The lowest six bits, and what is left above them. */
  function Low(n: nat): (r: nat)
    ensures r < 0x40 && n == High(n) * 0x40 + r
  {
    n % 0x40
  }

  function High(n: nat): (r: nat) {
    n / 0x40
  }

  function EncodeChar(c: char): (r: seq<Byte>)
    ensures 1 <= |r| <= 4
  {
    var n := c as int;
    if n < 0x80 then [n]
    else if n < 0x800 then [0xC0 + High(n), 0x80 + Low(n)]
    else if n < 0x1_0000 then [0xE0 + High(High(n)), 0x80 + Low(High(n)), 0x80 + Low(n)]
    else
      [0xF0 + High(High(High(n))), 0x80 + Low(High(High(n))), 0x80 + Low(High(n)), 0x80 + Low(n)]
  }

  /** The bytes of a string. */
  function Encode(s: string): seq<Byte> {
    if s == "" then [] else EncodeChar(s[0]) + Encode(s[1..])
  }

  /** The length a first byte announces; zero when no character starts with it. */
  function Announced(b: Byte): nat {
    if b < 0x80 then 1
    else if b < 0xC2 then 0
    else if b < 0xE0 then 2
    else if b < 0xF0 then 3
    else if b < 0xF5 then 4
    else 0
  }

  /** The code point of the first n bytes, without checking that it is a shortest form. */
  function CodePoint(b: seq<Byte>, n: nat): int
    requires 1 <= n <= 4 && n <= |b|
  {
    var first: int := b[0];
    if n == 1 then first
    else if n == 2 then (first - 0xC0) * 0x40 + Payload(b[1])
    else if n == 3 then (first - 0xE0) * 0x1000 + Payload(b[1]) * 0x40 + Payload(b[2])
    else (first - 0xF0) * 0x4_0000 + Payload(b[1]) * 0x1000 + Payload(b[2]) * 0x40 + Payload(b[3])
  }

  function Payload(b: Byte): int {
    b as int - 0x80
  }

  function Least(n: nat): int {
    if n <= 1 then 0 else if n == 2 then 0x80 else if n == 3 then 0x800 else 0x1_0000
  }

  predicate IsScalar(n: int) {
    0 <= n < 0xD800 || 0xE000 <= n < 0x11_0000
  }

  /** Strict decoding: continuation bytes, shortest form, no surrogate, nothing beyond the last code point. */
  function Decode(b: seq<Byte>): Option<string> {
    if b == [] then Some("") else
      var n := Announced(b[0]);
      if n == 0 || |b| < n || (exists i :: 1 <= i < n && !(0x80 <= b[i] < 0xC0)) then None else
        var code := CodePoint(b, n);
        if code < Least(n) || !IsScalar(code) then None else
          match Decode(b[n..])
          case None => None
          case Some(rest) => Some([code as char] + rest)
  }

  lemma EncodedChar(c: char, tail: seq<Byte>)
    ensures var b, n := EncodeChar(c) + tail, |EncodeChar(c)|;
            && Announced(b[0]) == n && CodePoint(b, n) == c as int && Least(n) <= c as int
            && forall i :: 1 <= i < n ==> 0x80 <= b[i] < 0xC0
  {
  }

  /** Decoding the bytes of a string gives the string back. */
  lemma {:induction false} DecodeOfEncode(s: string)
    ensures Decode(Encode(s)) == Some(s)
  {
    if s != "" {
      var head, tail := EncodeChar(s[0]), Encode(s[1..]);
      EncodedChar(s[0], tail);
      DecodeOfEncode(s[1..]);
      assert (head + tail)[|head|..] == tail;
      assert [s[0]] + s[1..] == s;
    }
  }

  lemma TwoBytes(a: nat, b: nat)
    requires a < 0x20 && b < 0x40 && a * 0x40 + b >= 0x80
    ensures EncodeChar((a * 0x40 + b) as char) == [0xC0 + a, 0x80 + b]
  {
    Digit64(a, b);
  }

  lemma ThreeBytes(a: nat, b: nat, c: nat)
    requires a < 0x10 && b < 0x40 && c < 0x40 && (a * 0x40 + b) * 0x40 + c >= 0x800
    requires IsScalar((a * 0x40 + b) * 0x40 + c)
    ensures EncodeChar(((a * 0x40 + b) * 0x40 + c) as char) == [0xE0 + a, 0x80 + b, 0x80 + c]
  {
    Digit64(a * 0x40 + b, c);
    Digit64(a, b);
  }

  lemma FourBytes(a: nat, b: nat, c: nat, d: nat)
    requires b < 0x40 && c < 0x40 && d < 0x40
    requires 0x1_0000 <= ((a * 0x40 + b) * 0x40 + c) * 0x40 + d < 0x11_0000
    ensures a < 8
    ensures EncodeChar((((a * 0x40 + b) * 0x40 + c) * 0x40 + d) as char) == [0xF0 + a, 0x80 + b, 0x80 + c, 0x80 + d]
  {
    Digit64((a * 0x40 + b) * 0x40 + c, d);
    Digit64(a * 0x40 + b, c);
    Digit64(a, b);
  }

  lemma DecodedChar(b: seq<Byte>, n: nat)
    requires 1 <= n <= 4 && n <= |b| && Announced(b[0]) == n
    requires forall i :: 1 <= i < n ==> 0x80 <= b[i] < 0xC0
    requires Least(n) <= CodePoint(b, n) && IsScalar(CodePoint(b, n))
    ensures EncodeChar(CodePoint(b, n) as char) == b[..n]
  {
    var first: int := b[0];
    if n == 1 {
      assert b[..1] == [b[0]];
    } else {
      hide EncodeChar;
      if n == 2 {
        TwoBytes(first - 0xC0, Payload(b[1]));
        assert b[..2] == [b[0], b[1]];
      } else if n == 3 {
        ThreeBytes(first - 0xE0, Payload(b[1]), Payload(b[2]));
        assert b[..3] == [b[0], b[1], b[2]];
      } else {
        FourBytes(first - 0xF0, Payload(b[1]), Payload(b[2]), Payload(b[3]));
        assert b[..4] == [b[0], b[1], b[2], b[3]];
      }
    }
  }

  lemma Digit64(high: nat, low: nat)
    requires low < 0x40
    ensures High(high * 0x40 + low) == high && Low(high * 0x40 + low) == low
  {
  }

  lemma DecodedFirst(b: seq<Byte>)
    requires b != [] && Decode(b).Some?
    ensures var n := Announced(b[0]);
            && 1 <= n <= 4 && n <= |b|
            && EncodeChar(CodePoint(b, n) as char) == b[..n]
            && Decode(b[n..]).Some? && Decode(b).value == [CodePoint(b, n) as char] + Decode(b[n..]).value
  {
    DecodedChar(b, Announced(b[0]));
    hide EncodeChar;
  }

  /** Strictness: only the encoding of a text decodes to it, so no text has two encodings. */
  lemma {:induction false} EncodeOfDecode(b: seq<Byte>)
    requires Decode(b).Some?
    ensures Encode(Decode(b).value) == b
  {
    if b != [] {
      DecodedFirst(b);
      var n := Announced(b[0]);
      EncodeOfDecode(b[n..]);
      hide Decode, CodePoint, EncodeChar, Announced;
      var rest := Decode(b[n..]).value;
      assert Decode(b).value[1..] == rest && b == b[..n] + b[n..];
    }
  }

  /** An ASCII byte in an encoding is a character of the text. */
  lemma {:induction false} AsciiByteIsChar(s: string, i: nat)
    requires i < |Encode(s)| && Encode(s)[i] < 0x80
    ensures Encode(s)[i] as char in s
  {
    var head := EncodeChar(s[0]);
    if i < |head| {
      assert Encode(s)[i] == head[i];
      assert s[0] == head[i] as char;
    } else {
      AsciiByteIsChar(s[1..], i - |head|);
    }
  }

  lemma {:induction false} EncodeOfConcat(a: string, b: string)
    ensures Encode(a + b) == Encode(a) + Encode(b)
  {
    if a == "" {
      assert a + b == b;
    } else {
      assert (a + b)[1..] == a[1..] + b;
      EncodeOfConcat(a[1..], b);
    }
  }

  predicate IsAscii(s: string) {
    forall i :: 0 <= i < |s| ==> s[i] as int < 0x80
  }

  /** ASCII text is one byte a character. */
  lemma {:induction false} EncodeOfAscii(s: string)
    requires IsAscii(s)
    ensures |Encode(s)| == |s|
    ensures forall i :: 0 <= i < |s| ==> Encode(s)[i] == s[i] as int
  {
    if s != "" {
      EncodeOfAscii(s[1..]);
    }
  }
}
