/**
 Clipboard text: local text with LF line ends on one side, CF_UNICODETEXT on the other (UTF-16
 little-endian, CRLF line ends, terminated by a NUL code unit).
 */
module ClipboardText {
  import opened Prelude
  import opened Utf16

  // ----- encoding ---------------------------------------------------------------------------

  function LeBytes(u: u16): seq<u8> {
    [u % 0x100, u / 0x100]
  }

  /** The little-endian UTF-16 bytes of one character. */
  function CharBytes(c: char): seq<u8> {
    var units := EncodeChar(c);
    if |units| == 1 then LeBytes(units[0]) else LeBytes(units[0]) + LeBytes(units[1])
  }

  /** What one character becomes on the wire, given the one before it. */
  function WithCr(prev: char, c: char): string {
    if c == '\n' && prev != '\r' then ['\r', '\n'] else [c]
  }

  /** LF becomes CRLF, an existing CRLF is kept. */
  function ToCrlf(prev: char, text: string): string
    decreases |text|
  {
    if text == [] then [] else WithCr(prev, text[0]) + ToCrlf(text[0], text[1..])
  }

  /** The CF_UNICODETEXT payload of `text`. */
  function Encoded(text: string): seq<u8> {
    FlatMap(CharBytes, ToCrlf('\0', text)) + [0, 0]
  }

  /** One character of the encoder's loop, for any byte form of a character. */
  lemma EncodeStep(f: char -> seq<u8>, prev: char, text: string)
    requires text != []
    ensures var cr := if text[0] == '\n' && prev != '\r' then f('\r') else [];
      FlatMap(f, ToCrlf(prev, text)) == cr + f(text[0]) + FlatMap(f, ToCrlf(text[0], text[1..]))
  {
    var wire, rest := ToCrlf(prev, text), ToCrlf(text[0], text[1..]);
    if text[0] == '\n' && prev != '\r' {
      assert wire[1..] == ['\n'] + rest;
      assert wire[1..][1..] == rest;
    } else {
      assert wire[1..] == rest;
    }
  }

  method EncodeUnicodeText(text: string) returns (bytes: seq<u8>)
    ensures bytes == Encoded(text)
  {
    bytes := EncodeWith(CharBytes, text);
    bytes := bytes + [0, 0];
  }

  method EncodeWith(f: char -> seq<u8>, text: string) returns (bytes: seq<u8>)
    ensures bytes == FlatMap(f, ToCrlf('\0', text))
  {
    bytes := [];
    var prev := '\0';
    for i := 0 to |text|
      invariant bytes + FlatMap(f, ToCrlf(prev, text[i..])) == FlatMap(f, ToCrlf('\0', text))
    {
      var c := text[i];
      EncodeStep(f, prev, text[i..]);
      assert text[i..][1..] == text[i + 1..];
      if c == '\n' && prev != '\r' {
        bytes := bytes + f('\r');
      }
      bytes := bytes + f(c);
      prev := c;
    }
  }

  // ----- decoding ---------------------------------------------------------------------------

  /** Whole little-endian code units; a trailing odd byte is ignored. */
  function Units(bytes: seq<u8>): seq<u16> {
    if |bytes| < 2 then [] else [bytes[0] as int + 0x100 * bytes[1] as int] + Units(bytes[2..])
  }

  function UntilZero(units: seq<u16>): seq<u16> {
    if units == [] || units[0] == 0 then [] else [units[0]] + UntilZero(units[1..])
  }

  /** `replace("\r\n", "\n")`. */
  function CrlfToLf(text: string): string {
    if text == [] then
      []
    else if text[0] == '\r' && |text| > 1 && text[1] == '\n' then
      ['\n'] + CrlfToLf(text[2..])
    else
      [text[0]] + CrlfToLf(text[1..])
  }

  function DecodeUnicodeText(bytes: seq<u8>): string {
    CrlfToLf(DecodeUtf16(UntilZero(Units(bytes))))
  }

  // ----- the round trip ---------------------------------------------------------------------

  predicate HasNul(text: string) {
    '\0' in text
  }

  ghost predicate HasCrlf(text: string) {
    exists i :: 0 <= i < |text| - 1 && text[i] == '\r' && text[i + 1] == '\n'
  }

  /** The part of a text before its first NUL. */
  function UntilNul(text: string): (t: string)
    ensures !HasNul(t)
  {
    if text == [] || text[0] == '\0' then [] else [text[0]] + UntilNul(text[1..])
  }

  lemma UnitsOfUnit(u: u16, tail: seq<u8>)
    ensures Units(LeBytes(u) + tail) == [u] + Units(tail)
  {
    var bytes := LeBytes(u) + tail;
    assert bytes[2..] == tail;
    assert bytes[0] as int + 0x100 * bytes[1] as int == u;
  }

  lemma UnitsOfChar(c: char, tail: seq<u8>)
    ensures Units(CharBytes(c) + tail) == EncodeChar(c) + Units(tail)
  {
    var units := EncodeChar(c);
    if |units| == 1 {
      UnitsOfUnit(units[0], tail);
    } else {
      UnitsOfUnit(units[1], tail);
      UnitsOfUnit(units[0], LeBytes(units[1]) + tail);
      assert CharBytes(c) + tail == LeBytes(units[0]) + (LeBytes(units[1]) + tail);
    }
  }

  /** Reading works chunk by chunk, for any byte form whose chunks read as whole units. */
  lemma {:induction false} UnitsOfChunks(f: char -> seq<u8>, g: char -> seq<u16>, text: string, tail: seq<u8>)
    requires forall c, rest {:trigger Units(f(c) + rest)} :: Units(f(c) + rest) == g(c) + Units(rest)
    ensures Units(FlatMap(f, text) + tail) == FlatMap(g, text) + Units(tail)
  {
    if text == [] {
      assert FlatMap(f, text) + tail == tail;
    } else {
      var rest := FlatMap(f, text[1..]);
      UnitsOfChunks(f, g, text[1..], tail);
      assert FlatMap(f, text) + tail == f(text[0]) + (rest + tail);
      assert Units(f(text[0]) + (rest + tail)) == g(text[0]) + Units(rest + tail);
      assert g(text[0]) + (FlatMap(g, text[1..]) + Units(tail)) == FlatMap(g, text) + Units(tail);
    }
  }

  lemma UnitsOfText(text: string, tail: seq<u8>)
    ensures Units(FlatMap(CharBytes, text) + tail) == EncodeUtf16(text) + Units(tail)
  {
    forall c: char, rest: seq<u8>
      ensures Units(CharBytes(c) + rest) == EncodeChar(c) + Units(rest)
    {
      UnitsOfChar(c, rest);
    }
    UnitsOfChunks(CharBytes, EncodeChar, text, tail);
  }

  lemma {:induction false} UntilZeroStops(units: seq<u16>, tail: seq<u16>)
    requires 0 !in units && tail != [] && tail[0] == 0
    ensures UntilZero(units + tail) == units
  {
    if units == [] {
      assert units + tail == tail;
    } else {
      assert units[0] in units;
      assert (units + tail)[1..] == units[1..] + tail;
      UntilZeroStops(units[1..], tail);
    }
  }

  lemma {:induction false} NoNulNoZero(text: string)
    requires !HasNul(text)
    ensures 0 !in EncodeUtf16(text)
  {
    if text == [] {
    } else {
      assert forall c <- text[1..] :: c in text;
      NoNulNoZero(text[1..]);
      assert text[0] in text;
    }
  }

  /** Everything after the first NUL stays after it on the wire. */
  lemma {:induction false} CrlfUntilNul(prev: char, text: string)
    ensures !HasNul(ToCrlf(prev, UntilNul(text)))
    ensures HasNul(text) ==> ToCrlf(prev, UntilNul(text)) + ['\0'] <= ToCrlf(prev, text)
    ensures !HasNul(text) ==> UntilNul(text) == text
    decreases |text|
  {
    if text != [] && text[0] != '\0' {
      CrlfUntilNul(text[0], text[1..]);
      assert UntilNul(text)[1..] == UntilNul(text[1..]);
      assert HasNul(text) <==> HasNul(text[1..]);
      if HasNul(text) {
        assert ToCrlf(prev, UntilNul(text)) + ['\0']
            == WithCr(prev, text[0]) + (ToCrlf(text[0], UntilNul(text[1..])) + ['\0']);
      }
    }
  }

  /** Adding the missing CRs does not change what the reader sees. */
  lemma {:induction false} CrlfToLfAfterToCrlf(prev: char, text: string)
    requires prev == '\r' ==> text == [] || text[0] != '\n'
    ensures CrlfToLf(ToCrlf(prev, text)) == CrlfToLf(text)
    decreases |text|
  {
    if text == [] {
    } else {
      var wire := ToCrlf(prev, text);
      if text[0] == '\r' && |text| > 1 && text[1] == '\n' {
        CrlfToLfAfterToCrlf('\n', text[2..]);
        assert text[1..][1..] == text[2..];
        assert ToCrlf('\r', text[1..]) == ['\n'] + ToCrlf('\n', text[2..]);
        assert wire[2..] == ToCrlf('\n', text[2..]);
      } else {
        CrlfToLfAfterToCrlf(text[0], text[1..]);
        var rest := ToCrlf(text[0], text[1..]);
        assert wire == WithCr(prev, text[0]) + rest;
        if text[0] == '\n' {
          assert wire[2..] == rest;
        } else {
          assert wire[1..] == rest;
          assert |text| > 1 ==> rest[0] == WithCr(text[0], text[1])[0];
        }
      }
    }
  }

  lemma UntilZeroAtNul(kept: string, rest: string)
    requires !HasNul(kept)
    ensures UntilZero(EncodeUtf16(kept + (['\0'] + rest)) + [0]) == EncodeUtf16(kept)
  {
    NoNulNoZero(kept);
    FlatMapConcat(EncodeChar, kept, ['\0'] + rest);
    assert (['\0'] + rest)[1..] == rest;
    var tail := [0] + EncodeUtf16(rest) + [0];
    assert EncodeUtf16(kept + (['\0'] + rest)) + [0] == EncodeUtf16(kept) + tail;
    UntilZeroStops(EncodeUtf16(kept), tail);
  }

  /** The reader stops exactly where the text had its first NUL. */
  lemma WireUntilZero(text: string)
    ensures UntilZero(EncodeUtf16(ToCrlf('\0', text)) + [0]) == EncodeUtf16(ToCrlf('\0', UntilNul(text)))
  {
    var kept, wire := ToCrlf('\0', UntilNul(text)), ToCrlf('\0', text);
    CrlfUntilNul('\0', text);
    if HasNul(text) {
      var rest := wire[|kept| + 1..];
      assert wire == kept + (['\0'] + rest);
      UntilZeroAtNul(kept, rest);
    } else {
      NoNulNoZero(kept);
      UntilZeroStops(EncodeUtf16(kept), [0]);
    }
  }

  /** The round trip of every text: up to its first NUL, with each CRLF read as LF. */
  lemma TextRoundTrip(text: string)
    ensures DecodeUnicodeText(Encoded(text)) == CrlfToLf(UntilNul(text))
  {
    UnitsOfText(ToCrlf('\0', text), [0, 0]);
    assert Units([0, 0]) == [0] by {
      assert [0, 0][2..] == [];
    }
    WireUntilZero(text);
    Utf16RoundTrip(ToCrlf('\0', UntilNul(text)));
    CrlfToLfAfterToCrlf('\0', UntilNul(text));
  }

  lemma {:induction false} CrlfToLfShrinks(text: string)
    ensures |CrlfToLf(text)| <= |text|
    ensures CrlfToLf(text) == text <==> !HasCrlf(text)
    ensures |CrlfToLf(text)| == |text| ==> !HasCrlf(text)
    decreases |text|
  {
    if text == [] {
    } else {
      if text[0] == '\r' && |text| > 1 && text[1] == '\n' {
        CrlfToLfShrinks(text[2..]);
      } else {
        CrlfToLfShrinks(text[1..]);
        assert HasCrlf(text) <==> HasCrlf(text[1..]) by {
          if HasCrlf(text) {
            var i :| 0 <= i < |text| - 1 && text[i] == '\r' && text[i + 1] == '\n';
            assert text[1..][i - 1] == '\r' && text[1..][i] == '\n';
          }
          if HasCrlf(text[1..]) {
            var i :| 0 <= i < |text| - 2 && text[1..][i] == '\r' && text[1..][i + 1] == '\n';
            assert text[i + 1] == '\r' && text[i + 2] == '\n';
          }
        }
      }
    }
  }

  /** Exactly the texts without NUL and without CRLF come back unchanged. */
  lemma TextUnchanged(text: string)
    ensures DecodeUnicodeText(Encoded(text)) == text <==> !HasNul(text) && !HasCrlf(text)
  {
    TextRoundTrip(text);
    CrlfToLfShrinks(UntilNul(text));
    CrlfUntilNul('\0', text);
    UntilNulShorter(text);
  }

  lemma {:induction false} UntilNulShorter(text: string)
    ensures |UntilNul(text)| <= |text|
    ensures HasNul(text) ==> |UntilNul(text)| < |text|
  {
    if text != [] && text[0] != '\0' {
      UntilNulShorter(text[1..]);
    }
  }
}
