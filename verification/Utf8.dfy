// Prompt lengths are limited in code points but counted on UTF-8 bytes, as
// utf8.RuneCountInString does. Encoding follows section 3 of RFC 3629.
module Utf8 {

  type Byte = x: int | 0 <= x < 0x100

  // A Unicode scalar value: a code point that is not a surrogate.
  type Scalar = c: int | 0 <= c < 0xD800 || 0xE000 <= c < 0x110000

  function EncodeScalar(c: Scalar): seq<Byte> {
    if c < 0x80 then [c]
    else if c < 0x800 then [0xC0 + c / 0x40, 0x80 + c % 0x40]
    else if c < 0x10000 then [0xE0 + c / 0x1000, 0x80 + c / 0x40 % 0x40, 0x80 + c % 0x40]
    else [0xF0 + c / 0x40000, 0x80 + c / 0x1000 % 0x40, 0x80 + c / 0x40 % 0x40, 0x80 + c % 0x40]
  }

  function Encode(s: seq<Scalar>): seq<Byte> {
    if s == [] then [] else EncodeScalar(s[0]) + Encode(s[1..])
  }

  predicate IsContinuation(b: Byte) {
    0x80 <= b < 0xC0
  }

  // The admissible second bytes after each first byte (the table at the end of section 4 of
  // RFC 3629): overlong forms, surrogates and values above U+10FFFF are excluded.
  predicate IsSecond(first: Byte, b: Byte) {
    if first == 0xE0 then 0xA0 <= b < 0xC0
    else if first == 0xED then 0x80 <= b < 0xA0
    else if first == 0xF0 then 0x90 <= b < 0xC0
    else if first == 0xF4 then 0x80 <= b < 0x90
    else IsContinuation(b)
  }

  // The width announced by a first byte; bytes that cannot start a sequence announce one.
  function Width(first: Byte): nat {
    if 0xC2 <= first < 0xE0 then 2
    else if 0xE0 <= first < 0xF0 then 3
    else if 0xF0 <= first < 0xF5 then 4
    else 1
  }

  // How many bytes the counter consumes for its next rune: a well-formed sequence as a
  // whole, and otherwise a single byte.
  function Step(b: seq<Byte>): (n: nat)
    requires b != []
    ensures 1 <= n <= 4 && n <= |b|
  {
    var w := Width(b[0]);
    if |b| < w then 1
    else if w >= 2 && !IsSecond(b[0], b[1]) then 1
    else if w >= 3 && !IsContinuation(b[2]) then 1
    else if w >= 4 && !IsContinuation(b[3]) then 1
    else w
  }

  function RuneCount(b: seq<Byte>): (n: nat)
    ensures n <= |b| <= 4 * n
  {
    if b == [] then 0 else 1 + RuneCount(b[Step(b)..])
  }

  lemma StepOverScalar(c: Scalar, rest: seq<Byte>)
    ensures Step(EncodeScalar(c) + rest) == |EncodeScalar(c)|
  {
    var e := EncodeScalar(c);
    assert forall i :: 0 <= i < |e| ==> (e + rest)[i] == e[i];
  }

  // The byte-level counter finds exactly the code points that were encoded.
  lemma {:induction false} RuneCountOfEncoding(s: seq<Scalar>)
    ensures RuneCount(Encode(s)) == |s|
    ensures |s| <= |Encode(s)| <= 4 * |s|
  {
    if s != [] {
      StepOverScalar(s[0], Encode(s[1..]));
      assert Encode(s)[|EncodeScalar(s[0])|..] == Encode(s[1..]);
      RuneCountOfEncoding(s[1..]);
    }
  }

  const REPLACEMENT: Scalar := 0xFFFD

  // The payload of a byte whose marker bits have the value `mark`.
  function Payload(b: Byte, mark: int): int {
    (b as int) - mark
  }

  // The rune that Step consumes: the scalar value of a well-formed sequence, and U+FFFD for
  // a byte that is not part of one.
  function FirstRune(b: seq<Byte>): Scalar
    requires b != []
  {
    var n := Step(b);
    if n == 1 then (if b[0] < 0x80 then b[0] else REPLACEMENT)
    else if n == 2 then Payload(b[0], 0xC0) * 0x40 + Payload(b[1], 0x80)
    else if n == 3 then Payload(b[0], 0xE0) * 0x1000 + Payload(b[1], 0x80) * 0x40 + Payload(b[2], 0x80)
    else Payload(b[0], 0xF0) * 0x40000 + Payload(b[1], 0x80) * 0x1000 + Payload(b[2], 0x80) * 0x40 + Payload(b[3], 0x80)
  }

  function Decode(b: seq<Byte>): seq<Scalar> {
    if b == [] then [] else [FirstRune(b)] + Decode(b[Step(b)..])
  }

  // On any bytes, well-formed or not, the counter counts what decoding produces.
  lemma {:induction false} RuneCountIsDecodedLength(b: seq<Byte>)
    ensures RuneCount(b) == |Decode(b)|
  {
    if b != [] {
      RuneCountIsDecodedLength(b[Step(b)..]);
    }
  }

  lemma Base64Digits(c: nat)
    ensures c == c / 0x40 * 0x40 + c % 0x40
    ensures c / 0x40 == c / 0x1000 * 0x40 + c / 0x40 % 0x40
    ensures c / 0x1000 == c / 0x40000 * 0x40 + c / 0x1000 % 0x40
  {
  }

  lemma FirstRuneOfEncoding(c: Scalar, rest: seq<Byte>)
    ensures EncodeScalar(c) + rest != [] && FirstRune(EncodeScalar(c) + rest) == c
  {
    StepOverScalar(c, rest);
    Base64Digits(c);
    var b := EncodeScalar(c) + rest;
    if |EncodeScalar(c)| == 2 {
      assert b[0] == 0xC0 + c / 0x40 && b[1] == 0x80 + c % 0x40;
    } else if |EncodeScalar(c)| == 3 {
      assert b[0] == 0xE0 + c / 0x1000 && b[1] == 0x80 + c / 0x40 % 0x40 && b[2] == 0x80 + c % 0x40;
    } else if |EncodeScalar(c)| == 4 {
      assert b[0] == 0xF0 + c / 0x40000 && b[1] == 0x80 + c / 0x1000 % 0x40;
      assert b[2] == 0x80 + c / 0x40 % 0x40 && b[3] == 0x80 + c % 0x40;
    }
  }

  lemma {:induction false} DecodeEncode(s: seq<Scalar>)
    ensures Decode(Encode(s)) == s
  {
    if s != [] {
      StepOverScalar(s[0], Encode(s[1..]));
      FirstRuneOfEncoding(s[0], Encode(s[1..]));
      assert Encode(s)[|EncodeScalar(s[0])|..] == Encode(s[1..]);
      DecodeEncode(s[1..]);
    }
  }

  lemma TwoBytes(b: seq<Byte>)
    requires b != [] && Step(b) == 2
    ensures b[..2] == EncodeScalar(FirstRune(b))
  {
  }

  lemma ThreeBytes(b: seq<Byte>)
    requires b != [] && Step(b) == 3
    ensures b[..3] == EncodeScalar(FirstRune(b))
  {
    var c := FirstRune(b);
    assert c / 0x40 == Payload(b[0], 0xE0) * 0x40 + Payload(b[1], 0x80) && c % 0x40 == Payload(b[2], 0x80);
    assert c / 0x1000 == Payload(b[0], 0xE0) && c / 0x40 % 0x40 == Payload(b[1], 0x80);
  }

  lemma FourBytes(b: seq<Byte>)
    requires b != [] && Step(b) == 4
    ensures b[..4] == EncodeScalar(FirstRune(b))
  {
    var c := FirstRune(b);
    var p0, p1, p2, p3 := Payload(b[0], 0xF0), Payload(b[1], 0x80), Payload(b[2], 0x80), Payload(b[3], 0x80);
    assert c / 0x40 == p0 * 0x1000 + p1 * 0x40 + p2 && c % 0x40 == p3;
    assert c / 0x1000 == p0 * 0x40 + p1 && c / 0x40 % 0x40 == p2;
    assert c / 0x40000 == p0 && c / 0x1000 % 0x40 == p1;
  }

  // More than one byte is consumed only for the encoding of a scalar value, and a single
  // byte that is not ASCII only where no such encoding starts: it counts as U+FFFD.
  lemma StepIsExact(b: seq<Byte>)
    requires b != []
    ensures Step(b) > 1 || b[0] < 0x80 ==> b[..Step(b)] == EncodeScalar(FirstRune(b))
    ensures Step(b) == 1 && b[0] >= 0x80 ==>
              FirstRune(b) == 0xFFFD && forall c: Scalar :: !(EncodeScalar(c) <= b)
  {
    match Step(b) {
      case 2 => TwoBytes(b);
      case 3 => ThreeBytes(b);
      case 4 => FourBytes(b);
      case _ =>
        forall c: Scalar | EncodeScalar(c) <= b
          ensures b[0] < 0x80
        {
          StepOverScalar(c, b[|EncodeScalar(c)|..]);
          assert b == EncodeScalar(c) + b[|EncodeScalar(c)|..];
        }
    }
  }

  // The first example in section 7 of RFC 3629: "A", not identical to, capital alpha, "."; and
  // the last one, a character of four bytes.
  lemma EncodingExamples()
    ensures Encode([0x41, 0x2262, 0x391, 0x2E]) == [0x41, 0xE2, 0x89, 0xA2, 0xCE, 0x91, 0x2E]
    ensures EncodeScalar(0x233B4) == [0xF0, 0xA3, 0x8E, 0xB4]
  {
    assert Encode([0x2E]) == [0x2E];
    assert [0x391, 0x2E][1..] == [0x2E];
    assert Encode([0x391, 0x2E]) == [0xCE, 0x91, 0x2E];
    assert [0x2262, 0x391, 0x2E][1..] == [0x391, 0x2E];
    assert Encode([0x2262, 0x391, 0x2E]) == [0xE2, 0x89, 0xA2, 0xCE, 0x91, 0x2E];
    assert [0x41, 0x2262, 0x391, 0x2E][1..] == [0x2262, 0x391, 0x2E];
  }
}
