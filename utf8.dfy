/**
 * UTF-8 as defined in section 3 of RFC 3629, with the strict decoder of
 * section 4 (no overlong forms, no encoded surrogates, nothing above U+10FFFF).
 * The producer encodes text with it and the consumer's default handler
 * decodes with it; the two lemmas at the end show that neither direction
 * loses or invents anything.
 */
module Utf8 {
  import opened Wrappers

  type Byte = b: int | 0 <= b < 0x100
  type Bytes = seq<Byte>

  /** A continuation byte 10xxxxxx. */
  predicate IsContinuation(b: Byte) {
    0x80 <= b < 0xC0
  }

  /** The one to four octets of a single scalar value (RFC 3629, section 3). */
  function EncodeChar(c: char): (r: Bytes)
    ensures 1 <= |r| <= 4
    ensures (|r| == 1) == (c as int < 0x80)
    ensures forall i :: 1 <= i < |r| ==> IsContinuation(r[i])
  {
    var n := c as int;
    if n < 0x80 then
      [n]
    else if n < 0x800 then
      [0xC0 + n / 0x40, 0x80 + n % 0x40]
    else if n < 0x1_0000 then
      [0xE0 + n / 0x1000, 0x80 + (n / 0x40) % 0x40, 0x80 + n % 0x40]
    else
      [0xF0 + n / 0x4_0000, 0x80 + (n / 0x1000) % 0x40, 0x80 + (n / 0x40) % 0x40, 0x80 + n % 0x40]
  }

  /** Python's `str.encode("utf-8")`. */
  function Encode(s: string): (r: Bytes)
    ensures |r| >= |s|
    ensures s == [] <==> r == []
  {
    if s == [] then [] else EncodeChar(s[0]) + Encode(s[1..])
  }

  /** The second octet allowed after a three-octet lead byte (RFC 3629, section 4). */
  predicate SecondOfThree(b0: Byte, b1: Byte) {
    if b0 == 0xE0 then 0xA0 <= b1 < 0xC0
    else if b0 == 0xED then 0x80 <= b1 < 0xA0
    else IsContinuation(b1)
  }

  /** The second octet allowed after a four-octet lead byte (RFC 3629, section 4). */
  predicate SecondOfFour(b0: Byte, b1: Byte) {
    if b0 == 0xF0 then 0x90 <= b1 < 0xC0
    else if b0 == 0xF4 then 0x80 <= b1 < 0x90
    else IsContinuation(b1)
  }

  /** The scalar value carried by a two-, three- or four-octet sequence. */
  function Value2(b0: int, b1: int): int {
    (b0 - 0xC0) * 0x40 + (b1 - 0x80)
  }

  function Value3(b0: int, b1: int, b2: int): int {
    (b0 - 0xE0) * 0x1000 + (b1 - 0x80) * 0x40 + (b2 - 0x80)
  }

  function Value4(b0: int, b1: int, b2: int, b3: int): int {
    (b0 - 0xF0) * 0x4_0000 + (b1 - 0x80) * 0x1000 + (b2 - 0x80) * 0x40 + (b3 - 0x80)
  }

  /**
   * Decodes the first scalar value of a non-empty byte string and says how
   * many octets it took, or None when those octets are not well-formed.
   */
  function DecodeFirst(b: Bytes): (r: Option<(char, nat)>)
    requires |b| > 0
    ensures r.Some? ==> 1 <= r.value.1 <= |b| && r.value.1 <= 4
  {
    var b0 := b[0] as int;
    if b0 < 0x80 then
      Some((b0 as char, 1))
    else if 0xC2 <= b0 < 0xE0 then
      if |b| >= 2 && IsContinuation(b[1]) then
        Some((Value2(b0, b[1]) as char, 2))
      else None
    else if 0xE0 <= b0 < 0xF0 then
      if |b| >= 3 && SecondOfThree(b0, b[1]) && IsContinuation(b[2]) then
        Some((Value3(b0, b[1], b[2]) as char, 3))
      else None
    else if 0xF0 <= b0 < 0xF5 then
      if |b| >= 4 && SecondOfFour(b0, b[1]) && IsContinuation(b[2]) && IsContinuation(b[3]) then
        Some((Value4(b0, b[1], b[2], b[3]) as char, 4))
      else None
    else
      None
  }

  /** Python's strict `bytes.decode("utf-8")`: None where Python raises. */
  function Decode(b: Bytes): (r: Option<string>)
    ensures r.Some? ==> |r.value| <= |b|
    decreases |b|
  {
    if b == [] then Some([])
    else match DecodeFirst(b)
      case None => None
      case Some((c, n)) =>
        match Decode(b[n..])
        case None => None
        case Some(rest) => Some([c] + rest)
  }

  /** Quotient and remainder of q * d + r by d, for the three radices of the encoding. */
  lemma DivMod(q: int, r: int, d: int)
    requires d == 0x40 || d == 0x1000 || d == 0x4_0000
    requires 0 <= r < d
    ensures (q * d + r) / d == q && (q * d + r) % d == r
  {
    if d == 0x40 {
      assert q * d + r == q * 0x40 + r;
    } else if d == 0x1000 {
      assert q * d + r == q * 0x1000 + r;
    } else {
      assert q * d + r == q * 0x4_0000 + r;
    }
  }

  /** The scalar value of a two-octet encoding is read back from it. */
  lemma Value2OfEncoding(n: int)
    requires 0x80 <= n < 0x800
    ensures Value2(0xC0 + n / 0x40, 0x80 + n % 0x40) == n
  {
  }

  /** The scalar value of a three-octet encoding is read back from it. */
  lemma Value3OfEncoding(n: int)
    requires 0x800 <= n < 0x1_0000
    ensures Value3(0xE0 + n / 0x1000, 0x80 + (n / 0x40) % 0x40, 0x80 + n % 0x40) == n
  {
    var q1, q2 := n / 0x1000, (n / 0x40) % 0x40;
    assert n / 0x40 == q1 * 0x40 + q2;
  }

  /** The scalar value of a four-octet encoding is read back from it. */
  lemma Value4OfEncoding(n: int)
    requires 0x1_0000 <= n < 0x11_0000
    ensures Value4(0xF0 + n / 0x4_0000, 0x80 + (n / 0x1000) % 0x40, 0x80 + (n / 0x40) % 0x40, 0x80 + n % 0x40) == n
  {
    var q1, q2, q3 := n / 0x4_0000, (n / 0x1000) % 0x40, (n / 0x40) % 0x40;
    assert n / 0x1000 == q1 * 0x40 + q2;
    assert n / 0x40 == (n / 0x1000) * 0x40 + q3;
  }

  /** Decoding the encoding of one character gives that character back. */
  lemma DecodeFirstOfEncodeChar(c: char, rest: Bytes)
    ensures DecodeFirst(EncodeChar(c) + rest) == Some((c, |EncodeChar(c)|))
  {
    var n := c as int;
    if n < 0x80 {
    } else if n < 0x800 {
      Value2OfEncoding(n);
    } else if n < 0x1_0000 {
      Value3OfEncoding(n);
    } else {
      Value4OfEncoding(n);
    }
  }

  /** Text survives a UTF-8 round trip: decode(encode(s)) == s. */
  lemma {:induction false} DecodeEncode(s: string)
    ensures Decode(Encode(s)) == Some(s)
  {
    if s != [] {
      var e := EncodeChar(s[0]);
      DecodeFirstOfEncodeChar(s[0], Encode(s[1..]));
      assert (e + Encode(s[1..]))[|e|..] == Encode(s[1..]);
      DecodeEncode(s[1..]);
      assert [s[0]] + s[1..] == s;
    }
  }

  /** A decoded character re-encodes to exactly the octets it was read from. */
  lemma EncodeCharOfDecodeFirst(b: Bytes)
    requires |b| > 0 && DecodeFirst(b).Some?
    ensures EncodeChar(DecodeFirst(b).value.0) == b[..DecodeFirst(b).value.1]
  {
    var b0 := b[0] as int;
    if b0 < 0x80 {
    } else if b0 < 0xE0 {
      var b1 := b[1] as int;
      var n := Value2(b0, b1);
      DivMod(b0 - 0xC0, b1 - 0x80, 0x40);
      assert EncodeChar(n as char) == [b0, b[1]];
    } else if b0 < 0xF0 {
      var b1, b2 := b[1] as int, b[2] as int;
      var n := Value3(b0, b1, b2);
      DivMod(b0 - 0xE0, (b1 - 0x80) * 0x40 + (b2 - 0x80), 0x1000);
      DivMod((b0 - 0xE0) * 0x40 + (b1 - 0x80), b2 - 0x80, 0x40);
      DivMod(b0 - 0xE0, b1 - 0x80, 0x40);
      assert EncodeChar(n as char) == [b0, b[1], b[2]];
    } else {
      var b1, b2, b3 := b[1] as int, b[2] as int, b[3] as int;
      var n := Value4(b0, b1, b2, b3);
      DivMod(b0 - 0xF0, (b1 - 0x80) * 0x1000 + (b2 - 0x80) * 0x40 + (b3 - 0x80), 0x4_0000);
      DivMod((b0 - 0xF0) * 0x40 + (b1 - 0x80), (b2 - 0x80) * 0x40 + (b3 - 0x80), 0x1000);
      DivMod(b0 - 0xF0, b1 - 0x80, 0x40);
      DivMod(((b0 - 0xF0) * 0x40 + (b1 - 0x80)) * 0x40 + (b2 - 0x80), b3 - 0x80, 0x40);
      DivMod((b0 - 0xF0) * 0x40 + (b1 - 0x80), b2 - 0x80, 0x40);
      assert EncodeChar(n as char) == [b0, b[1], b[2], b[3]];
    }
  }

  /** Encoding a string is encoding its first character, then the rest. */
  lemma EncodeCons(c: char, rest: string)
    ensures Encode([c] + rest) == EncodeChar(c) + Encode(rest)
  {
    assert ([c] + rest)[0] == c && ([c] + rest)[1..] == rest;
  }

  /**
   * A non-empty input that decodes starts with the encoding of the first
   * character decoded, and the rest of the input decodes to the rest of the text.
   */
  lemma DecodeCons(b: Bytes) returns (c: char, n: nat, rest: string)
    requires b != [] && Decode(b).Some?
    ensures 1 <= n <= |b| && EncodeChar(c) == b[..n]
    ensures Decode(b[n..]) == Some(rest) && Decode(b).value == [c] + rest
  {
    c, n := DecodeFirst(b).value.0, DecodeFirst(b).value.1;
    rest := Decode(b[n..]).value;
    EncodeCharOfDecodeFirst(b);
  }

  /** The decoder accepts only canonical encodings: re-encoding what it returns gives the input back. */
  lemma {:induction false} EncodeDecode(b: Bytes)
    requires Decode(b).Some?
    ensures Encode(Decode(b).value) == b
    decreases |b|
  {
    if b != [] {
      var c, n, rest := DecodeCons(b);
      EncodeDecode(b[n..]);
      EncodeCons(c, rest);
      assert b == b[..n] + b[n..];
    }
  }
}
