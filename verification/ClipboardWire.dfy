/**
 CF_UNICODETEXT byte by byte: line ends, byte order and surrogates, each stated on the bytes, units
 and characters themselves.
 */
module ClipboardWire {
  import opened Prelude
  import opened Utf16
  import opened ClipboardText

  // ----- line ends --------------------------------------------------------------------------

  /** The character at `i` is an LF with no CR before it; `prev` comes before the text. */
  predicate IsLoneLf(prev: char, text: string, i: nat)
    requires i < |text|
  {
    text[i] == '\n' && (if i == 0 then prev else text[i - 1]) != '\r'
  }

  ghost predicate HasLoneLf(prev: char, text: string) {
    exists i: nat :: i < |text| && IsLoneLf(prev, text, i)
  }

  lemma LoneLfStep(prev: char, c: char, rest: string)
    ensures HasLoneLf(prev, [c] + rest) <==> (c == '\n' && prev != '\r') || HasLoneLf(c, rest)
  {
    var text := [c] + rest;
    if c == '\n' && prev != '\r' {
      assert IsLoneLf(prev, text, 0);
    }
    if HasLoneLf(c, rest) {
      var i: nat :| i < |rest| && IsLoneLf(c, rest, i);
      assert IsLoneLf(prev, text, i + 1);
    }
    if i: nat :| 0 < i < |text| && IsLoneLf(prev, text, i) {
      assert IsLoneLf(c, rest, i - 1);
    }
  }

  /** On the wire every LF follows a CR, and a text in which that is so already is sent as it is. */
  lemma {:induction false} LineEndsOnTheWire(prev: char, text: string)
    ensures !HasLoneLf(prev, ToCrlf(prev, text))
    ensures ToCrlf(prev, text) == text <==> !HasLoneLf(prev, text)
    ensures |ToCrlf(prev, text)| >= |text|
    decreases |text|
  {
    if text == [] {
    } else {
      var c, rest := text[0], text[1..];
      var wire := ToCrlf(c, rest);
      LineEndsOnTheWire(c, rest);
      assert text == [c] + rest;
      LoneLfStep(prev, c, rest);
      LoneLfStep(prev, c, wire);
      if c == '\n' && prev != '\r' {
        LoneLfStep('\r', c, wire);
        LoneLfStep(prev, '\r', ['\n'] + wire);
        assert ToCrlf(prev, text) == ['\r'] + (['\n'] + wire);
      } else {
        assert ToCrlf(prev, text) == [c] + wire;
        assert ToCrlf(prev, text)[1..] == wire;
      }
    }
  }

  // ----- byte order -------------------------------------------------------------------------

  /** `bytes` holds the units, least significant byte first. */
  ghost predicate LittleEndian(bytes: seq<u8>, units: seq<u16>) {
    if units == [] then bytes == []
    else |bytes| >= 2 && bytes[0] == units[0] % 0x100 && bytes[1] == units[0] / 0x100 && LittleEndian(bytes[2..], units[1..])
  }

  lemma {:induction false} LittleEndianAt(bytes: seq<u8>, units: seq<u16>, i: nat)
    requires LittleEndian(bytes, units) && i < |units|
    ensures |bytes| == 2 * |units| && units[i] == bytes[2 * i] as int + 0x100 * bytes[2 * i + 1] as int
  {
    if |units| > 1 {
      LittleEndianAt(bytes[2..], units[1..], if i > 0 then i - 1 else 0);
    }
  }

  lemma UnitFirst(u: u16, bytes: seq<u8>, units: seq<u16>)
    requires LittleEndian(bytes, units)
    ensures LittleEndian([u % 0x100, u / 0x100] + bytes, [u] + units)
  {
    assert ([u % 0x100, u / 0x100] + bytes)[2..] == bytes && ([u] + units)[1..] == units;
  }

  lemma CharFirst(c: char, bytes: seq<u8>, units: seq<u16>)
    requires LittleEndian(bytes, units)
    ensures LittleEndian(CharBytes(c) + bytes, EncodeChar(c) + units)
  {
    var us := EncodeChar(c);
    if |us| == 1 {
      UnitFirst(us[0], bytes, units);
    } else {
      UnitFirst(us[1], bytes, units);
      UnitFirst(us[0], LeBytes(us[1]) + bytes, [us[1]] + units);
      assert CharBytes(c) + bytes == LeBytes(us[0]) + (LeBytes(us[1]) + bytes);
      assert us + units == [us[0]] + ([us[1]] + units);
    }
  }

  /** Whatever follows, the bytes of a character go before it as its units do. */
  ghost predicate Agree(f: char -> seq<u8>, g: char -> seq<u16>) {
    forall c: char, bytes: seq<u8>, units: seq<u16> :: LittleEndian(bytes, units) ==> LittleEndian(f(c) + bytes, g(c) + units)
  }

  lemma {:induction false} TextFirst(f: char -> seq<u8>, g: char -> seq<u16>, text: string, bytes: seq<u8>, units: seq<u16>)
    requires Agree(f, g) && LittleEndian(bytes, units)
    ensures LittleEndian(FlatMap(f, text) + bytes, FlatMap(g, text) + units)
  {
    if text == [] {
      assert [] + bytes == bytes && [] + units == units;
    } else {
      var rest := text[1..];
      TextFirst(f, g, rest, bytes, units);
      assert FlatMap(f, text) + bytes == f(text[0]) + (FlatMap(f, rest) + bytes);
      assert FlatMap(g, text) + units == g(text[0]) + (FlatMap(g, rest) + units);
    }
  }

  /** The payload is the UTF-16 units of the text with its line ends, least significant byte first, and a zero unit. */
  lemma EncodedBytes(text: string)
    ensures LittleEndian(Encoded(text), EncodeUtf16(ToCrlf('\0', text)) + [0])
  {
    forall c: char, bytes: seq<u8>, units: seq<u16> | LittleEndian(bytes, units)
      ensures LittleEndian(CharBytes(c) + bytes, EncodeChar(c) + units)
    {
      CharFirst(c, bytes, units);
    }
    assert LittleEndian([0, 0], [0]);
    TextFirst(CharBytes, EncodeChar, ToCrlf('\0', text), [0, 0], [0]);
  }

  lemma BytesOfUnit(low: u8, high: u8)
    ensures (low as int + 0x100 * high as int) % 0x100 == low && (low as int + 0x100 * high as int) / 0x100 == high
  {
  }

  /** Reading takes the same byte order. */
  lemma {:induction false} UnitsMeaning(bytes: seq<u8>)
    requires |bytes| % 2 == 0
    ensures LittleEndian(bytes, Units(bytes))
    decreases |bytes|
  {
    if bytes == [] {
    } else {
      UnitsMeaning(bytes[2..]);
      BytesOfUnit(bytes[0], bytes[1]);
      UnitFirst(Units(bytes)[0], bytes[2..], Units(bytes[2..]));
      assert [bytes[0], bytes[1]] + bytes[2..] == bytes;
    }
  }

  /** An odd byte at the end is ignored. */
  lemma {:induction false} OddByteIsIgnored(bytes: seq<u8>, odd: u8)
    requires |bytes| % 2 == 0
    ensures Units(bytes + [odd]) == Units(bytes)
    decreases |bytes|
  {
    if bytes == [] {
    } else {
      OddByteIsIgnored(bytes[2..], odd);
      assert (bytes + [odd])[2..] == bytes[2..] + [odd];
    }
  }

  // ----- surrogates -------------------------------------------------------------------------

  /** A character beyond the first plane is its high ten bits and its low ten bits, in this order. */
  lemma PairMeaning(c: char)
    requires c as int >= 0x1_0000
    ensures var units := EncodeChar(c);
      && |units| == 2 && 0xD800 <= units[0] < 0xDC00 <= units[1] < 0xE000
      && c as int == 0x1_0000 + (units[0] as int - 0xD800) * 0x400 + (units[1] as int - 0xDC00)
  {
  }

  /** Every high surrogate is followed by a low one, and every low one follows a high one. */
  ghost predicate WellPaired(units: seq<u16>)
    decreases |units|
  {
    units == [] ||
    if 0xD800 <= units[0] < 0xDC00 then |units| > 1 && 0xDC00 <= units[1] < 0xE000 && WellPaired(units[2..])
    else !(0xDC00 <= units[0] < 0xE000) && WellPaired(units[1..])
  }

  lemma CombineThenEncode(high: u16, low: u16)
    requires IsHigh(high) && IsLow(low)
    ensures EncodeChar(Combine(high, low)) == [high, low]
  {
  }

  /** Nothing is lost in decoding exactly when the units are well paired; otherwise U+FFFD stands for what is. */
  lemma {:induction false} DecodeLosesNothing(units: seq<u16>)
    ensures EncodeUtf16(DecodeUtf16(units)) == units <==> WellPaired(units)
    ensures !WellPaired(units) ==> '\U{FFFD}' in DecodeUtf16(units)
    decreases |units|
  {
    if units == [] {
    } else {
      var text := DecodeUtf16(units);
      if IsHigh(units[0]) && |units| > 1 && IsLow(units[1]) {
        DecodeLosesNothing(units[2..]);
        CombineThenEncode(units[0], units[1]);
        assert EncodeUtf16(text) == units[..2] + EncodeUtf16(DecodeUtf16(units[2..]));
        assert EncodeUtf16(text) == units <==> EncodeUtf16(DecodeUtf16(units[2..])) == units[2..];
      } else {
        DecodeLosesNothing(units[1..]);
        assert text[1..] == DecodeUtf16(units[1..]);
        assert EncodeUtf16(text) == EncodeChar(text[0]) + EncodeUtf16(text[1..]);
        if !IsSurrogate(units[0]) {
          assert EncodeUtf16(text) == units <==> EncodeUtf16(text[1..]) == units[1..];
        } else {
          assert EncodeUtf16(text)[0] == 0xFFFD;
        }
      }
    }
  }
}
