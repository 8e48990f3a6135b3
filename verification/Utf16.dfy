/** UTF-16 code units (RFC 2781, sections 2.1 and 2.2) and their little-endian bytes. */
module Utf16 {
  import opened Prelude

  predicate IsSurrogate(u: u16) {
    0xD800 <= u <= 0xDFFF
  }

  predicate IsHigh(u: u16) {
    0xD800 <= u <= 0xDBFF
  }

  predicate IsLow(u: u16) {
    0xDC00 <= u <= 0xDFFF
  }

  const REPLACEMENT: char := '\U{FFFD}'

  /** `char::encode_utf16`. */
  function EncodeChar(c: char): (units: seq<u16>)
    ensures 1 <= |units| <= 2
    ensures |units| == 1 ==> units == [c as int] && !IsSurrogate(units[0])
    ensures |units| == 2 ==> IsHigh(units[0]) && IsLow(units[1]) && Combine(units[0], units[1]) == c
  {
    var n := c as int;
    if n < 0x1_0000 then
      [n]
    else
      var m := n - 0x1_0000;
      [0xD800 + m / 0x400, 0xDC00 + m % 0x400]
  }

  /** The scalar value of a surrogate pair. */
  function Combine(high: u16, low: u16): char
    requires IsHigh(high) && IsLow(low)
  {
    (0x1_0000 + (high - 0xD800) * 0x400 + (low - 0xDC00)) as char
  }

  function FlatMap<T>(f: char -> seq<T>, text: string): seq<T> {
    if text == [] then [] else f(text[0]) + FlatMap(f, text[1..])
  }

  lemma {:induction false} FlatMapConcat<T>(f: char -> seq<T>, a: string, b: string)
    ensures FlatMap(f, a + b) == FlatMap(f, a) + FlatMap(f, b)
  {
    if a == [] {
      assert a + b == b;
    } else {
      FlatMapConcat(f, a[1..], b);
      assert (a + b)[1..] == a[1..] + b;
    }
  }

  function EncodeUtf16(text: string): seq<u16> {
    FlatMap(EncodeChar, text)
  }

  /** `char::decode_utf16` with every unpaired surrogate read as U+FFFD. */
  function DecodeUtf16(units: seq<u16>): string {
    if units == [] then
      []
    else if !IsSurrogate(units[0]) then
      [units[0] as char] + DecodeUtf16(units[1..])
    else if IsHigh(units[0]) && |units| > 1 && IsLow(units[1]) then
      [Combine(units[0], units[1])] + DecodeUtf16(units[2..])
    else
      [REPLACEMENT] + DecodeUtf16(units[1..])
  }

  lemma DecodeChar(c: char, rest: seq<u16>)
    ensures DecodeUtf16(EncodeChar(c) + rest) == [c] + DecodeUtf16(rest)
  {
    var units := EncodeChar(c);
    assert (units + rest)[|units|..] == rest;
  }

  lemma {:induction false} DecodeAfterEncode(text: string)
    ensures DecodeUtf16(FlatMap(EncodeChar, text)) == text
  {
    if text == [] {
    } else {
      DecodeAfterEncode(text[1..]);
      DecodeChar(text[0], FlatMap(EncodeChar, text[1..]));
    }
  }

  /** Every text survives UTF-16, astral characters included. */
  lemma Utf16RoundTrip(text: string)
    ensures DecodeUtf16(EncodeUtf16(text)) == text
  {
    DecodeAfterEncode(text);
  }
}
