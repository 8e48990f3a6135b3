/**
 Local contents on their way to a remote that reads formats as this side does: which formats are
 offered, what each is answered with, and what the answer is read back as.
 */
module ClipboardExchange {
  import opened Prelude
  import opened ClipboardText
  import opened ClipboardFormats

  // ----- what is offered --------------------------------------------------------------------

  ghost predicate HasText(contents: Contents) {
    exists item <- contents :: item.TextItem?
  }

  ghost predicate HasPng(contents: Contents) {
    exists item <- contents :: item.PngItem?
  }

  ghost predicate HasTiff(contents: Contents) {
    exists item <- contents :: item.TiffItem?
  }

  lemma {:induction false} FoundWhenPresent(contents: Contents)
    ensures FindText(contents).Some? <==> HasText(contents)
    ensures FindPng(contents).Some? <==> HasPng(contents)
    ensures FindTiff(contents).Some? <==> HasTiff(contents)
  {
    if contents == [] {
    } else {
      FoundWhenPresent(contents[1..]);
      assert contents[0] in contents;
      assert forall item <- contents :: item == contents[0] || item in contents[1..];
      assert forall item <- contents[1..] :: item in contents;
    }
  }

  /**
   Text is offered as Unicode text; a PNG under its registered name and as a DIB; a TIFF only when
   there is no PNG. Each only when the preference allows it, and nothing else is offered.
   */
  lemma OutboundMeaning(contents: Contents, prefs: Prefs, f: ClipFormat)
    ensures f in Outbound(contents, prefs) <==>
      || (f == ClipFormat(13, None) && prefs != Off && HasText(contents))
      || (f == ClipFormat(0xC0F0, Some("image/png")) && prefs == TextAndImages && HasPng(contents))
      || (f == ClipFormat(8, None) && prefs == TextAndImages && HasPng(contents))
      || (f == ClipFormat(6, None) && prefs == TextAndImages && HasTiff(contents) && !HasPng(contents))
  {
    FoundWhenPresent(contents);
  }

  // ----- what is answered -------------------------------------------------------------------

  /** The first item of its sort. */
  ghost predicate IsFirst(contents: Contents, item: Item) {
    exists i :: 0 <= i < |contents| && contents[i] == item
                && forall j :: 0 <= j < i ==> ItemKind(contents[j]) != ItemKind(item)
  }

  lemma {:induction false} FoundIsFirst(contents: Contents, item: Item)
    requires IsFirst(contents, item)
    ensures match item
            case TextItem(t) => FindText(contents) == Some(t)
            case PngItem(b) => FindPng(contents) == Some(b)
            case TiffItem(b) => FindTiff(contents) == Some(b)
  {
    var i :| 0 <= i < |contents| && contents[i] == item && forall j :: 0 <= j < i ==> ItemKind(contents[j]) != ItemKind(item);
    if i > 0 {
      assert contents[1..][i - 1] == item;
      assert forall j :: 0 <= j < i - 1 ==> contents[1..][j] == contents[j + 1];
      FoundIsFirst(contents[1..], item);
    }
  }

  /** Bytes within the limit are answered, and others refused with their size. */
  function Limited(data: seq<u8>): Result<seq<u8>, ClipError> {
    if |data| > 0x200_0000 then Err(TooLarge(|data|)) else Ok(data)
  }

  /** The first item of each sort is answered in its own format, byte for byte but for the text encoding. */
  lemma AnswerIsTheItem(conv: Converters, contents: Contents, prefs: Prefs, item: Item)
    requires IsFirst(contents, item) && ItemKind(item).AllowedBy(prefs)
    ensures match item
            case TextItem(t) => EncodeOutbound(conv, 13, contents, prefs) == Limited(Encoded(t))
            case PngItem(b) => EncodeOutbound(conv, 0xC0F0, contents, prefs) == Limited(b)
            case TiffItem(b) => !HasPng(contents) ==> EncodeOutbound(conv, 6, contents, prefs) == Limited(b)
  {
    FoundWhenPresent(contents);
    FoundIsFirst(contents, item);
    var format := match item
      case TextItem(_) => ClipFormat(13, None)
      case PngItem(_) => ClipFormat(0xC0F0, Some("image/png"))
      case TiffItem(_) => ClipFormat(6, None);
    if item.TiffItem? && HasPng(contents) {
    } else {
      OutboundMeaning(contents, prefs, format);
      assert format in Outbound(contents, prefs);
      assert Lists(Outbound(contents, prefs), format.id);
    }
  }

  // ----- there and back ---------------------------------------------------------------------

  /** What a remote of the same kind makes of the answer for `id`, read as `kind`. */
  function Received(conv: Converters, id: u32, kind: FormatKind, contents: Contents, prefs: Prefs): Result<Item, ClipError> {
    match EncodeOutbound(conv, id, contents, prefs)
    case Ok(data) => DecodeInbound(conv, kind, data)
    case Err(e) => Err(e)
  }

  /**
   An item that is offered and whose encoding is within the limit arrives as itself: text up to its
   first NUL with each CRLF as LF, a TIFF unchanged, a PNG unchanged if it starts with the signature
   and refused otherwise.
   */
  lemma OfferedItemArrives(conv: Converters, contents: Contents, prefs: Prefs, item: Item)
    requires IsFirst(contents, item) && ItemKind(item).AllowedBy(prefs)
    ensures match item
            case TextItem(t) =>
              |Encoded(t)| <= 0x200_0000 ==>
                Received(conv, 13, UnicodeText, contents, prefs) == Ok(TextItem(CrlfToLf(UntilNul(t))))
            case PngItem(b) =>
              |b| <= 0x200_0000 ==>
                Received(conv, 0xC0F0, Png, contents, prefs)
                == if [0x89, 0x50, 0x4E, 0x47, 0x0D, 0x0A, 0x1A, 0x0A] <= b then Ok(item) else Err(InvalidImage)
            case TiffItem(b) =>
              |b| <= 0x200_0000 && !HasPng(contents) ==> Received(conv, 6, Tiff, contents, prefs) == Ok(item)
  {
    AnswerIsTheItem(conv, contents, prefs, item);
    if item.TextItem? {
      TextRoundTrip(item.text);
    }
  }

  lemma DibIsOffered(contents: Contents, prefs: Prefs, item: Item)
    requires item.PngItem? && IsFirst(contents, item) && Png.AllowedBy(prefs)
    ensures Lists(Outbound(contents, prefs), 8) && FindPng(contents) == Some(item.bytes)
  {
    FoundIsFirst(contents, item);
    FoundWhenPresent(contents);
    OutboundMeaning(contents, prefs, ClipFormat(8, None));
    assert ClipFormat(8, None) in Outbound(contents, prefs);
  }

  /** A PNG offered as a DIB arrives converted there and back, when both conversions succeed and fit the limit. */
  lemma DibArrives(conv: Converters, contents: Contents, prefs: Prefs, item: Item)
    requires item.PngItem? && IsFirst(contents, item) && Png.AllowedBy(prefs)
    requires |item.bytes| <= 0x200_0000 && [0x89, 0x50, 0x4E, 0x47, 0x0D, 0x0A, 0x1A, 0x0A] <= item.bytes
    ensures Received(conv, 8, Dib, contents, prefs) ==
              match conv.pngToDib(item.bytes)
              case None => Err(InvalidImage)
              case Some(dib) =>
                if |dib| > 0x200_0000 then Err(TooLarge(|dib|))
                else match conv.dibToPng(dib) case None => Err(InvalidImage) case Some(png) => Ok(PngItem(png))
  {
    DibIsOffered(contents, prefs, item);
  }

  // ----- text without Unicode ---------------------------------------------------------------

  lemma {:induction false} UntilZeroByteMeaning(bytes: seq<u8>, n: nat)
    requires n <= |bytes| && (n == |bytes| || bytes[n] == 0) && 0 !in bytes[..n]
    ensures UntilZeroByte(bytes) == bytes[..n]
  {
    if n == 0 {
    } else {
      assert bytes[..n][0] == bytes[0] && bytes[..n][1..] == bytes[1..][..n - 1];
      UntilZeroByteMeaning(bytes[1..], n - 1);
      assert [bytes[0]] + bytes[1..][..n - 1] == bytes[..n];
    }
  }

  /** ANSI text ends at its first zero byte; it is UTF-8 if it can be, and otherwise a character per byte. */
  lemma AnsiTextMeaning(conv: Converters, bytes: seq<u8>, n: nat)
    requires n <= |bytes| <= 0x200_0000 && (n == |bytes| || bytes[n] == 0) && 0 !in bytes[..n]
    ensures conv.fromUtf8(bytes[..n]).Some? ==>
      DecodeInbound(conv, AnsiText, bytes) == Ok(TextItem(CrlfToLf(conv.fromUtf8(bytes[..n]).value)))
    ensures conv.fromUtf8(bytes[..n]).None? ==>
      exists text: string ::
        && DecodeInbound(conv, AnsiText, bytes) == Ok(TextItem(CrlfToLf(text)))
        && |text| == n && forall i :: 0 <= i < n ==> text[i] as int == bytes[i]
  {
    UntilZeroByteMeaning(bytes, n);
    if conv.fromUtf8(bytes[..n]).None? {
      var text := Latin1(bytes[..n]);
      assert DecodeInbound(conv, AnsiText, bytes) == Ok(TextItem(CrlfToLf(text)));
    }
  }
}
