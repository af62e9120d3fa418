/**
 * Lowercase base-16 text (section 8 of RFC 4648), as produced by
 * `Buffer.toString("hex")`, and its inverse.
 */
module Hex {
  import opened Wrappers
  import opened Bytes

  predicate IsLowerHexDigit(c: char) {
    '0' <= c <= '9' || 'a' <= c <= 'f'
  }

  /** The lowercase digit for a nibble. */
  function Digit(n: nat): (c: char)
    requires n < 16
    ensures IsLowerHexDigit(c)
  {
    if n < 10 then ('0' as int + n) as char else ('a' as int + n - 10) as char
  }

  /** The nibble a lowercase digit stands for; None for any other character. */
  function DigitValue(c: char): (v: Option<nat>)
    ensures v.Some? <==> IsLowerHexDigit(c)
    ensures v.Some? ==> v.value < 16 && Digit(v.value) == c
  {
    if '0' <= c <= '9' then Some(c as int - '0' as int)
    else if 'a' <= c <= 'f' then Some(c as int - 'a' as int + 10)
    else None
  }

  /** Two characters per byte, high nibble first. */
  function Encode(b: seq<byte>): (s: string)
    ensures |s| == 2 * |b|
    ensures forall i :: 0 <= i < |s| ==> IsLowerHexDigit(s[i])
  {
    if b == [] then "" else [Digit(b[0] as int / 16), Digit(b[0] as int % 16)] + Encode(b[1..])
  }

  /** Hex text is ASCII, so its bytes are its character codes. */
  lemma EncodeIsAscii(b: seq<byte>)
    ensures IsAscii(Encode(b))
  {
    var s := Encode(b);
    forall i | 0 <= i < |s| ensures s[i] as int < 128 {
      assert IsLowerHexDigit(s[i]);
    }
  }

  /** Characters 2i and 2i+1 are the high and the low nibble of byte i. */
  lemma {:induction false} EncodeAt(b: seq<byte>, i: nat)
    requires i < |b|
    ensures Encode(b)[2 * i] == Digit(b[i] as int / 16)
    ensures Encode(b)[2 * i + 1] == Digit(b[i] as int % 16)
  {
    if i > 0 {
      EncodeAt(b[1..], i - 1);
    }
  }

  /** The bytes a lowercase hex text stands for; None for odd length or a non-digit. */
  function Decode(s: string): (r: Option<seq<byte>>)
    decreases |s|
  {
    if |s| == 0 then Some([])
    else if |s| == 1 then None
    else
      var hi, lo, rest := DigitValue(s[0]), DigitValue(s[1]), Decode(s[2..]);
      if hi.Some? && lo.Some? && rest.Some?
      then Some([(16 * hi.value + lo.value) as byte] + rest.value)
      else None
  }

  /** Decoding the hex text of a byte string gives that byte string back. */
  lemma {:induction false} DecodeEncode(b: seq<byte>)
    ensures Decode(Encode(b)) == Some(b)
  {
    if b != [] {
      DecodeEncode(b[1..]);
      var s := Encode(b);
      var hi, lo := b[0] as int / 16, b[0] as int % 16;
      assert s[2..] == Encode(b[1..]);
      assert s[0] == Digit(hi) && s[1] == Digit(lo);
      DigitRoundTrip(hi);
      DigitRoundTrip(lo);
      assert (16 * hi + lo) as byte == b[0];
      assert b == [b[0]] + b[1..];
    }
  }

  lemma DigitRoundTrip(n: nat)
    requires n < 16
    ensures DigitValue(Digit(n)) == Some(n)
  {
  }

  /** Distinct byte strings have distinct hex texts. */
  lemma EncodeInjective(a: seq<byte>, b: seq<byte>)
    requires Encode(a) == Encode(b)
    ensures a == b
  {
    DecodeEncode(a);
    DecodeEncode(b);
  }
}
