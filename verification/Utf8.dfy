/** UTF-8 as section 3 of RFC 3629 defines it, and the repair of a tail that was cut at an
    arbitrary byte. */
module Utf8 {
  import opened Counting
  import opened LogDrain

  /** A Unicode scalar value: no surrogates. */
  type Scalar = c: int | 0 <= c <= 0x10FFFF && !(0xD800 <= c <= 0xDFFF)

  function Encode(c: Scalar): seq<Byte> {
    if c < 0x80 then [c]
    else if c < 0x800 then [0xC0 + c / 64, 0x80 + c % 64]
    else if c < 0x10000 then [0xE0 + c / 4096, 0x80 + c / 64 % 64, 0x80 + c % 64]
    else [0xF0 + c / 262144, 0x80 + c / 4096 % 64, 0x80 + c / 64 % 64, 0x80 + c % 64]
  }

  function EncodeAll(text: seq<Scalar>): seq<Byte> {
    if text == [] then [] else Encode(text[0]) + EncodeAll(text[1..])
  }

  predicate IsContinuation(b: Byte) { 0x80 <= b < 0xC0 }

  function StripContinuations(bytes: seq<Byte>): seq<Byte> {
    if bytes != [] && IsContinuation(bytes[0]) then StripContinuations(bytes[1..]) else bytes
  }

  // ------------------------------------------------------------ decoding

  predicate IsScalar(c: int) { 0 <= c <= 0x10FFFF && !(0xD800 <= c <= 0xDFFF) }

  predicate ContinuesFor(bytes: seq<Byte>, n: nat) {
    n <= |bytes| && forall i :: 1 <= i < n ==> IsContinuation(bytes[i])
  }

  datatype Head = Malformed | Head(c: Scalar, length: nat)

  function Lead(b: Byte, base: int): int { b as int - base }

  function Six(b: Byte): int { b as int - 0x80 }

  /** The character a byte sequence starts with, and its length, if it is well formed:
      not overlong, not a surrogate, in range. */
  function DecodeHead(bytes: seq<Byte>): (head: Head)
    requires bytes != []
    ensures head.Head? ==> 0 < head.length <= |bytes|
  {
    var b := bytes[0];
    if b < 0x80 then Head(b, 1)
    else if 0xC0 <= b < 0xE0 && ContinuesFor(bytes, 2) then
      WellFormed(Lead(b, 0xC0) * 64 + Six(bytes[1]), 0x80, 2)
    else if 0xE0 <= b < 0xF0 && ContinuesFor(bytes, 3) then
      WellFormed(Lead(b, 0xE0) * 4096 + Six(bytes[1]) * 64 + Six(bytes[2]), 0x800, 3)
    else if 0xF0 <= b < 0xF8 && ContinuesFor(bytes, 4) then
      WellFormed(Lead(b, 0xF0) * 262144 + Six(bytes[1]) * 4096 + Six(bytes[2]) * 64 + Six(bytes[3]), 0x10000, 4)
    else Malformed
  }

  function WellFormed(c: int, least: int, n: nat): Head {
    if c >= least && IsScalar(c) then Head(c, n) else Malformed
  }

  /** Decoding that drops what is malformed. */
  function DecodeIgnoring(bytes: seq<Byte>): seq<Scalar> {
    if bytes == [] then [] else match DecodeHead(bytes)
      case Malformed => DecodeIgnoring(bytes[1..])
      case Head(c, n) => [c] + DecodeIgnoring(bytes[n..])
  }

  /** Strict decoding succeeds. */
  predicate Decodes(bytes: seq<Byte>) {
    bytes == [] || match DecodeHead(bytes) case Malformed => false case Head(_, n) => Decodes(bytes[n..])
  }

  lemma ThreeDigits(c: nat)
    requires c < 0x10000
    ensures c / 4096 * 4096 + c / 64 % 64 * 64 + c % 64 == c
  {
  }

  lemma FourDigits(c: nat)
    ensures c / 262144 * 262144 + c / 4096 % 64 * 4096 + c / 64 % 64 * 64 + c % 64 == c
  {
    var q := c / 4096;
    assert c == q * 4096 + c / 64 % 64 * 64 + c % 64;
    assert q / 64 == c / 262144;
    assert q == q / 64 * 64 + q % 64;
  }

  lemma DecodeShort(c: Scalar, bytes: seq<Byte>)
    requires c < 0x800 && Encode(c) <= bytes
    ensures DecodeHead(bytes) == Head(c, |Encode(c)|)
  {
    if c >= 0x80 {
      assert bytes[1] == 0x80 + c % 64;
    }
  }

  lemma DecodeThree(c: Scalar, bytes: seq<Byte>)
    requires 0x800 <= c < 0x10000 && Encode(c) <= bytes
    ensures DecodeHead(bytes) == Head(c, 3)
  {
    assert bytes[0] == 0xE0 + c / 4096 && bytes[1] == 0x80 + c / 64 % 64 && bytes[2] == 0x80 + c % 64;
    ThreeDigits(c);
  }

  lemma DecodeFour(c: Scalar, bytes: seq<Byte>)
    requires 0x10000 <= c && Encode(c) <= bytes
    ensures DecodeHead(bytes) == Head(c, 4)
  {
    assert bytes[0] == 0xF0 + c / 262144 && bytes[1] == 0x80 + c / 4096 % 64;
    assert bytes[2] == 0x80 + c / 64 % 64 && bytes[3] == 0x80 + c % 64;
    FourDigits(c);
  }

  lemma DecodeEncode(c: Scalar, rest: seq<Byte>)
    ensures DecodeHead(Encode(c) + rest) == Head(c, |Encode(c)|)
  {
    if c < 0x800 {
      DecodeShort(c, Encode(c) + rest);
    } else if c < 0x10000 {
      DecodeThree(c, Encode(c) + rest);
    } else {
      DecodeFour(c, Encode(c) + rest);
    }
  }

  /** Text survives the trip; so the encoding of a text determines it. */
  lemma {:induction false} RoundTrip(text: seq<Scalar>)
    ensures DecodeIgnoring(EncodeAll(text)) == text
  {
    hide Encode, DecodeHead;
    if text != [] {
      EncodeShape(text[0]);
      DecodeEncode(text[0], EncodeAll(text[1..]));
      assert EncodeAll(text)[|Encode(text[0])|..] == EncodeAll(text[1..]);
      RoundTrip(text[1..]);
    }
  }

  // ------------------------------------------------------------ cutting

  lemma EncodeShape(c: Scalar)
    ensures 1 <= |Encode(c)| <= 4 && !IsContinuation(Encode(c)[0])
    ensures forall i :: 1 <= i < |Encode(c)| ==> IsContinuation(Encode(c)[i])
  {
  }

  lemma {:induction false} StripAll(lead: seq<Byte>, rest: seq<Byte>)
    requires forall i :: 0 <= i < |lead| ==> IsContinuation(lead[i])
    requires rest == [] || !IsContinuation(rest[0])
    ensures StripContinuations(lead + rest) == rest
  {
    if lead == [] {
      assert lead + rest == rest;
    } else {
      StripAll(lead[1..], rest);
      assert (lead + rest)[1..] == lead[1..] + rest;
    }
  }

  lemma StartsFresh(text: seq<Scalar>)
    ensures text != [] ==> EncodeAll(text) != [] && !IsContinuation(EncodeAll(text)[0])
  {
    hide Encode;
    if text != [] {
      EncodeShape(text[0]);
    }
  }

  /** The suffix from character j is the longest that fits into the room. */
  predicate LongestFrom(text: seq<Scalar>, room: int, j: nat) {
    j <= |text| && |EncodeAll(text[j..])| <= room && (j > 0 ==> |EncodeAll(text[j - 1..])| > room)
  }

  /** Stripping the cut suffix of an encoding drops at most three bytes and leaves the
      encoding of the longest suffix of the text that fits. */
  lemma {:induction false} StripRepairs(text: seq<Scalar>, k: nat) returns (j: nat)
    requires k <= |EncodeAll(text)|
    ensures var cut := EncodeAll(text)[k..];
            && LongestFrom(text, |cut|, j)
            && StripContinuations(cut) == EncodeAll(text[j..])
            && |cut| - |StripContinuations(cut)| <= 3
    decreases text
  {
    hide Encode;
    var cut := EncodeAll(text)[k..];
    j := 0;
    assert text[0..] == text;
    if k == 0 {
      assert cut == EncodeAll(text);
      StartsFresh(text);
    } else {
      var head, rest := Encode(text[0]), EncodeAll(text[1..]);
      EncodeShape(text[0]);
      if k < |head| {
        j := 1;
        StartsFresh(text[1..]);
        StripAll(head[k..], rest);
        assert cut == head[k..] + rest;
      } else {
        var i := StripRepairs(text[1..], k - |head|);
        j := i + 1;
        assert cut == rest[k - |head|..];
        assert text[1..][i..] == text[j..];
        if i > 0 {
          assert text[1..][i - 1..] == text[i..];
        } else {
          assert text[1..][i..] == text[1..];
        }
      }
    }
  }

  lemma {:induction false} EncodeConcat(a: seq<Scalar>, b: seq<Scalar>)
    ensures EncodeAll(a + b) == EncodeAll(a) + EncodeAll(b)
  {
    hide Encode;
    if a == [] {
      assert a + b == b;
    } else {
      EncodeConcat(a[1..], b);
      assert (a + b)[0] == a[0] && (a + b)[1..] == a[1..] + b;
    }
  }

  lemma {:induction false} AsciiLength(text: seq<Scalar>)
    requires forall i :: 0 <= i < |text| ==> text[i] < 0x80
    ensures |EncodeAll(text)| == |text|
  {
    if text != [] {
      AsciiLength(text[1..]);
    }
  }
}
