/** Which bytes are text: the encoding of table 3-7 of the Unicode standard (src/protocol/response.rs). */
module Utf8 {
  import opened Prelude
  import opened ResponseHead

  /** The bytes of one character. */
  function Encode(c: char): (b: seq<byte>)
    ensures 1 <= |b| <= 4
  {
    var v := c as int;
    if v < 0x80 then [v as byte]
    else if v < 0x800 then [(0xC0 + v / 0x40) as byte, (0x80 + v % 0x40) as byte]
    else if v < 0x10000 then [(0xE0 + v / 0x1000) as byte, (0x80 + v / 0x40 % 0x40) as byte, (0x80 + v % 0x40) as byte]
    else [(0xF0 + v / 0x40000) as byte, (0x80 + v / 0x1000 % 0x40) as byte, (0x80 + v / 0x40 % 0x40) as byte,
          (0x80 + v % 0x40) as byte]
  }

  function EncodeText(s: string): seq<byte>
  {
    if s == [] then [] else Encode(s[0]) + EncodeText(s[1..])
  }

  /** Six bits at a time. */
  lemma Bits(high: nat, low: nat)
    requires low < 0x40
    ensures (high * 0x40 + low) / 0x40 == high && (high * 0x40 + low) % 0x40 == low
  {
  }

  lemma ThreeParts(v: nat)
    ensures v == v / 0x1000 * 0x1000 + v / 0x40 % 0x40 * 0x40 + v % 0x40
  {
    assert v / 0x40 / 0x40 == v / 0x1000;
  }

  lemma FourParts(v: nat)
    ensures v == v / 0x40000 * 0x40000 + v / 0x1000 % 0x40 * 0x1000 + v / 0x40 % 0x40 * 0x40 + v % 0x40
  {
    assert v / 0x1000 / 0x40 == v / 0x40000;
    ThreeParts(v);
  }

  lemma ScalarIsRead(c: char, rest: seq<byte>)
    ensures DecodeScalar(Encode(c) + rest) == Some((c, |Encode(c)|))
  {
    var v := c as int;
    if 0x800 <= v < 0x10000 { ThreeParts(v); }
    if 0x10000 <= v { FourParts(v); }
  }

  lemma TwoBytes(a: nat, b: nat, c: char)
    requires 2 <= a < 0x20 && b < 0x40 && c as int == a * 0x40 + b
    ensures Encode(c) == [(0xC0 + a) as byte, (0x80 + b) as byte]
  {
    Bits(a, b);
  }

  lemma ThreeBytes(a: nat, b: nat, d: nat, c: char)
    requires a < 0x10 && b < 0x40 && d < 0x40 && c as int == a * 0x1000 + b * 0x40 + d && 0x800 <= c as int
    ensures Encode(c) == [(0xE0 + a) as byte, (0x80 + b) as byte, (0x80 + d) as byte]
  {
    Bits(a, b);
    Bits(a * 0x40 + b, d);
    assert c as int / 0x1000 == c as int / 0x40 / 0x40;
  }

  lemma FourBytes(a: nat, b: nat, d: nat, e: nat, c: char)
    requires a < 8 && b < 0x40 && d < 0x40 && e < 0x40
    requires c as int == a * 0x40000 + b * 0x1000 + d * 0x40 + e && 0x10000 <= c as int
    ensures Encode(c) == [(0xF0 + a) as byte, (0x80 + b) as byte, (0x80 + d) as byte, (0x80 + e) as byte]
  {
    Bits(a, b);
    Bits(a * 0x40 + b, d);
    Bits((a * 0x40 + b) * 0x40 + d, e);
    assert c as int / 0x1000 == c as int / 0x40 / 0x40 && c as int / 0x40000 == c as int / 0x1000 / 0x40;
  }

  /** Overlong, surrogate and truncated sequences are refused: what is read is the encoding of what it is read as. */
  lemma OnlyScalarsAreRead(b: seq<byte>)
    requires b != [] && DecodeScalar(b).Some?
    ensures var (c, n) := DecodeScalar(b).value; b[..n] == Encode(c)
  {
    var (c, n) := DecodeScalar(b).value;
    if n == 2 { TwoBytes(b[0] as int - 0xC0, b[1] as int - 0x80, c); }
    if n == 3 { ThreeBytes(b[0] as int - 0xE0, b[1] as int - 0x80, b[2] as int - 0x80, c); }
    if n == 4 { FourBytes(b[0] as int - 0xF0, b[1] as int - 0x80, b[2] as int - 0x80, b[3] as int - 0x80, c); }
  }

  lemma {:induction false} EncodedIsRead(s: string)
    ensures DecodeUtf8(EncodeText(s)) == Some(s)
  {
    if s != [] {
      var b := EncodeText(s);
      ScalarIsRead(s[0], EncodeText(s[1..]));
      assert b[|Encode(s[0])|..] == EncodeText(s[1..]);
      EncodedIsRead(s[1..]);
      assert s == [s[0]] + s[1..];
    }
  }

  lemma EncodeNext(c: char, rest: string)
    ensures EncodeText([c] + rest) == Encode(c) + EncodeText(rest)
  {
    assert ([c] + rest)[1..] == rest;
  }

  lemma DecodeNext(b: seq<byte>)
    requires b != [] && DecodeUtf8(b).Some?
    ensures DecodeScalar(b).Some?
    ensures var (c, n) := DecodeScalar(b).value;
            DecodeUtf8(b[n..]).Some? && DecodeUtf8(b).value == [c] + DecodeUtf8(b[n..]).value
  {
  }

  lemma Glue(b: seq<byte>, n: nat, front: seq<byte>, back: seq<byte>)
    requires n <= |b| && b[..n] == front && b[n..] == back
    ensures b == front + back
  {
  }

  lemma {:induction false} ReadIsEncoded(b: seq<byte>)
    requires DecodeUtf8(b).Some?
    ensures b == EncodeText(DecodeUtf8(b).value)
    decreases |b|
  {
    if b != [] {
      DecodeNext(b);
      OnlyScalarsAreRead(b);
      var (c, n) := DecodeScalar(b).value;
      ReadIsEncoded(b[n..]);
      EncodeNext(c, DecodeUtf8(b[n..]).value);
      Glue(b, n, Encode(c), EncodeText(DecodeUtf8(b[n..]).value));
    }
  }

  /** Bytes are read as a text if and only if they are its encoding. */
  lemma TextIsRead(b: seq<byte>, s: string)
    ensures DecodeUtf8(b) == Some(s) <==> b == EncodeText(s)
  {
    EncodedIsRead(s);
    if DecodeUtf8(b).Some? { ReadIsEncoded(b); }
  }
}
