/** Which clipboard formats are offered, fetched and answered, under the profile's preference. */
module ClipboardFormats {
  import opened Prelude
  import opened ClipboardText

  const CF_TEXT: u32 := 1
  const CF_TIFF: u32 := 6
  const CF_DIB: u32 := 8
  const CF_UNICODETEXT: u32 := 13
  const LOCAL_PNG_FORMAT_ID: u32 := 0xC0F0
  const PNG_FORMAT_NAME: string := "image/png"
  const MAX_CLIPBOARD_BYTES: nat := 32 * 1024 * 1024

  datatype FormatKind = UnicodeText | AnsiText | Png | Tiff | Dib {
    predicate IsImage() {
      Png? || Tiff? || Dib?
    }

    predicate AllowedBy(prefs: Prefs) {
      match prefs
      case Off => false
      case TextOnly => !IsImage()
      case TextAndImages => true
    }
  }

  datatype Prefs = Off | TextOnly | TextAndImages

  datatype ClipFormat = ClipFormat(id: u32, name: Option<string>) {
    /** Registered formats are matched by name, standard ones by id. */
    function Kind(): Option<FormatKind> {
      match name
      case Some(n) => if n == PNG_FORMAT_NAME then Some(Png) else None
      case None =>
        if id == CF_UNICODETEXT then Some(UnicodeText)
        else if id == CF_TEXT then Some(AnsiText)
        else if id == CF_TIFF then Some(Tiff)
        else if id == CF_DIB then Some(Dib)
        else None
    }
  }

  datatype Item = TextItem(text: string) | PngItem(bytes: seq<u8>) | TiffItem(tiff: seq<u8>)

  type Contents = seq<Item>

  datatype ClipError = TooLarge(size: nat) | InvalidImage | Unavailable(id: u32) | RemoteError

  /** Foreign conversions; `None` is an image that cannot be converted. */
  datatype Converters = Converters(
    pngToDib: seq<u8> -> Option<seq<u8>>,
    dibToPng: seq<u8> -> Option<seq<u8>>,
    fromUtf8: seq<u8> -> Option<string>)

  const PNG_SIGNATURE: seq<u8> := [0x89, 0x50, 0x4E, 0x47, 0x0D, 0x0A, 0x1A, 0x0A]

  function CheckSize(data: seq<u8>): Result<seq<u8>, ClipError> {
    if |data| > MAX_CLIPBOARD_BYTES then Err(TooLarge(|data|)) else Ok(data)
  }

  function PngPassthrough(png: seq<u8>): Result<seq<u8>, ClipError> {
    if |png| > MAX_CLIPBOARD_BYTES then Err(TooLarge(|png|))
    else if PNG_SIGNATURE <= png then Ok(png)
    else Err(InvalidImage)
  }

  function Utf8Size(c: char): nat {
    var n := c as int;
    if n < 0x80 then 1 else if n < 0x800 then 2 else if n < 0x1_0000 then 3 else 4
  }

  function Utf8Length(text: string): nat {
    if text == [] then 0 else Utf8Size(text[0]) + Utf8Length(text[1..])
  }

  function ItemKind(item: Item): FormatKind {
    match item
    case TextItem(_) => UnicodeText
    case PngItem(_) => Png
    case TiffItem(_) => Tiff
  }

  function ItemSize(item: Item): nat {
    match item
    case TextItem(t) => Utf8Length(t)
    case PngItem(b) => |b|
    case TiffItem(b) => |b|
  }

  predicate Kept(item: Item, prefs: Prefs) {
    ItemKind(item).AllowedBy(prefs) && ItemSize(item) <= MAX_CLIPBOARD_BYTES
  }

  // ----- what is advertised -----------------------------------------------------------------

  /** The items that may be offered, in order. */
  function Filter(contents: Contents, prefs: Prefs): Contents {
    if contents == [] then
      []
    else
      Filter(contents[..|contents| - 1], prefs)
        + if Kept(contents[|contents| - 1], prefs) then [contents[|contents| - 1]] else []
  }

  /** One rejection per allowed item that is too large. */
  function Oversized(contents: Contents, prefs: Prefs): seq<ClipError> {
    if contents == [] then
      []
    else
      var item := contents[|contents| - 1];
      Oversized(contents[..|contents| - 1], prefs)
        + if ItemKind(item).AllowedBy(prefs) && ItemSize(item) > MAX_CLIPBOARD_BYTES then [TooLarge(ItemSize(item))] else []
  }

  method FilterLocal(contents: Contents, prefs: Prefs) returns (kept: Contents, rejected: seq<ClipError>)
    ensures kept == Filter(contents, prefs)
    ensures rejected == Oversized(contents, prefs)
  {
    kept, rejected := [], [];
    for i := 0 to |contents|
      invariant kept == Filter(contents[..i], prefs)
      invariant rejected == Oversized(contents[..i], prefs)
    {
      assert contents[..i + 1][..i] == contents[..i];
      var item := contents[i];
      if ItemKind(item).AllowedBy(prefs) {
        if ItemSize(item) > MAX_CLIPBOARD_BYTES {
          rejected := rejected + [TooLarge(ItemSize(item))];
        } else {
          kept := kept + [item];
        }
      }
    }
    assert contents[..|contents|] == contents;
  }

  lemma FilterAppend(init: Contents, last: Item, prefs: Prefs)
    ensures Filter(init + [last], prefs) == Filter(init, prefs) + if Kept(last, prefs) then [last] else []
  {
    assert (init + [last])[..|init|] == init;
  }

  /** Exactly the allowed items that fit are kept. */
  lemma {:induction false} FilterMembers(contents: Contents, prefs: Prefs, item: Item)
    ensures item in Filter(contents, prefs) <==> item in contents && Kept(item, prefs)
  {
    if contents == [] {
    } else {
      var init, last := contents[..|contents| - 1], contents[|contents| - 1];
      FilterMembers(init, prefs, item);
      assert contents == init + [last];
      FilterAppend(init, last, prefs);
    }
  }

  /** What is advertised needs no second filtering. */
  lemma {:induction false} FilterIdempotent(contents: Contents, prefs: Prefs)
    ensures Filter(Filter(contents, prefs), prefs) == Filter(contents, prefs)
  {
    if contents == [] {
    } else {
      var init, last := contents[..|contents| - 1], contents[|contents| - 1];
      FilterIdempotent(init, prefs);
      assert contents == init + [last];
      FilterAppend(init, last, prefs);
      FilterAppend(Filter(init, prefs), last, prefs);
      assert Filter(init, prefs) + [] == Filter(init, prefs);
    }
  }

  function FindText(contents: Contents): Option<string> {
    if contents == [] then None
    else if contents[0].TextItem? then Some(contents[0].text)
    else FindText(contents[1..])
  }

  function FindPng(contents: Contents): Option<seq<u8>> {
    if contents == [] then None
    else if contents[0].PngItem? then Some(contents[0].bytes)
    else FindPng(contents[1..])
  }

  function FindTiff(contents: Contents): Option<seq<u8>> {
    if contents == [] then None
    else if contents[0].TiffItem? then Some(contents[0].tiff)
    else FindTiff(contents[1..])
  }

  lemma {:induction false} FoundInContents(contents: Contents)
    ensures FindText(contents).Some? ==> TextItem(FindText(contents).value) in contents
    ensures FindPng(contents).Some? ==> PngItem(FindPng(contents).value) in contents
    ensures FindTiff(contents).Some? ==> TiffItem(FindTiff(contents).value) in contents
  {
    if contents == [] {
    } else {
      FoundInContents(contents[1..]);
      assert contents[0] in contents && forall item <- contents[1..] :: item in contents;
    }
  }

  /** The format list offered for local contents. */
  function Outbound(contents: Contents, prefs: Prefs): seq<ClipFormat> {
    (if UnicodeText.AllowedBy(prefs) && FindText(contents).Some? then [ClipFormat(CF_UNICODETEXT, None)] else [])
    + (if !Png.AllowedBy(prefs) then []
       else if FindPng(contents).Some? then
         [ClipFormat(LOCAL_PNG_FORMAT_ID, Some(PNG_FORMAT_NAME)), ClipFormat(CF_DIB, None)]
       else if FindTiff(contents).Some? then [ClipFormat(CF_TIFF, None)]
       else [])
  }

  predicate Lists(formats: seq<ClipFormat>, id: u32) {
    exists i :: 0 <= i < |formats| && formats[i].id == id
  }

  /** The bytes for a listed format. */
  function OutboundData(conv: Converters, id: u32, contents: Contents): Result<seq<u8>, ClipError> {
    if id == CF_UNICODETEXT && FindText(contents).Some? then
      Ok(Encoded(FindText(contents).value))
    else if id == LOCAL_PNG_FORMAT_ID && FindPng(contents).Some? then
      Ok(FindPng(contents).value)
    else if id == CF_DIB && FindPng(contents).Some? then
      match PngPassthrough(FindPng(contents).value)
      case Err(e) => Err(e)
      case Ok(png) => if conv.pngToDib(png).None? then Err(InvalidImage) else Ok(conv.pngToDib(png).value)
    else if id == CF_TIFF && FindTiff(contents).Some? then
      Ok(FindTiff(contents).value)
    else
      Err(Unavailable(id))
  }

  /** The answer to a format data request. */
  function EncodeOutbound(conv: Converters, id: u32, contents: Contents, prefs: Prefs): Result<seq<u8>, ClipError> {
    if !Lists(Outbound(contents, prefs), id) then
      Err(Unavailable(id))
    else
      match OutboundData(conv, id, contents)
      case Err(e) => Err(e)
      case Ok(data) => CheckSize(data)
  }

  /** The item an answer for `id` is taken from. */
  ghost predicate AnswersFrom(conv: Converters, id: u32, item: Item, data: seq<u8>) {
    match item
    case TextItem(t) => id == CF_UNICODETEXT && data == Encoded(t)
    case PngItem(b) => (id == LOCAL_PNG_FORMAT_ID && data == b) || (id == CF_DIB && conv.pngToDib(b) == Some(data))
    case TiffItem(b) => id == CF_TIFF && data == b
  }

  /**
   A listed format is never answered "unavailable"; a format that is not listed always is; and a
   successful answer is made from an item of the contents whose kind the preference allows, within
   the size limit.
   */
  lemma AnswersMatchTheList(conv: Converters, id: u32, contents: Contents, prefs: Prefs)
    ensures var r := EncodeOutbound(conv, id, contents, prefs);
      && (r == Err(Unavailable(id)) <==> !Lists(Outbound(contents, prefs), id))
      && (r.Ok? ==> |r.value| <= MAX_CLIPBOARD_BYTES
                    && exists item :: item in contents && ItemKind(item).AllowedBy(prefs)
                                      && AnswersFrom(conv, id, item, r.value))
  {
    FoundInContents(contents);
    var r := EncodeOutbound(conv, id, contents, prefs);
    var formats := Outbound(contents, prefs);
    if Lists(formats, id) {
      var i :| 0 <= i < |formats| && formats[i].id == id;
      if r.Ok? {
        var item := if id == CF_UNICODETEXT then TextItem(FindText(contents).value)
          else if id == CF_TIFF then TiffItem(FindTiff(contents).value)
          else PngItem(FindPng(contents).value);
        assert item in contents && ItemKind(item).AllowedBy(prefs) && AnswersFrom(conv, id, item, r.value);
      }
    }
  }

  // ----- what is fetched --------------------------------------------------------------------

  function FindKind(formats: seq<ClipFormat>, kind: FormatKind): Option<ClipFormat> {
    if formats == [] then None
    else if formats[0].Kind() == Some(kind) then Some(formats[0])
    else FindKind(formats[1..], kind)
  }

  /** The first allowed kind of a preference list that the remote offers. */
  function FirstOffered(formats: seq<ClipFormat>, group: seq<FormatKind>, prefs: Prefs): seq<(ClipFormat, FormatKind)> {
    if group == [] then
      []
    else if group[0].AllowedBy(prefs) && FindKind(formats, group[0]).Some? then
      [(FindKind(formats, group[0]).value, group[0])]
    else
      FirstOffered(formats, group[1..], prefs)
  }

  const TEXT_PREFERENCE: seq<FormatKind> := [UnicodeText, AnsiText]
  const IMAGE_PREFERENCE: seq<FormatKind> := [Png, Tiff, Dib]

  /** At most one text format, then at most one image format. */
  function SelectInbound(formats: seq<ClipFormat>, prefs: Prefs): seq<(ClipFormat, FormatKind)> {
    FirstOffered(formats, TEXT_PREFERENCE, prefs) + FirstOffered(formats, IMAGE_PREFERENCE, prefs)
  }

  lemma {:induction false} FindKindMeaning(formats: seq<ClipFormat>, kind: FormatKind)
    ensures FindKind(formats, kind).Some? ==>
      FindKind(formats, kind).value in formats && FindKind(formats, kind).value.Kind() == Some(kind)
    ensures FindKind(formats, kind).None? ==> forall f <- formats :: f.Kind() != Some(kind)
  {
    if formats == [] {
    } else {
      FindKindMeaning(formats[1..], kind);
    }
  }

  ghost predicate Offered(formats: seq<ClipFormat>, kind: FormatKind, prefs: Prefs) {
    kind.AllowedBy(prefs) && exists f <- formats :: f.Kind() == Some(kind)
  }

  /** `kind` is the first of its preference list that is offered and allowed. */
  ghost predicate IsBest(formats: seq<ClipFormat>, group: seq<FormatKind>, prefs: Prefs, kind: FormatKind) {
    exists i :: 0 <= i < |group| && group[i] == kind && Offered(formats, kind, prefs)
                && forall j :: 0 <= j < i ==> !Offered(formats, group[j], prefs)
  }

  lemma {:induction false} FirstOfferedMeaning(formats: seq<ClipFormat>, group: seq<FormatKind>, prefs: Prefs)
    ensures var r := FirstOffered(formats, group, prefs);
      && |r| <= 1
      && (r == [] <==> forall k <- group :: !Offered(formats, k, prefs))
      && (r != [] ==> r[0].0 in formats && r[0].0.Kind() == Some(r[0].1) && r[0].1 in group
                      && IsBest(formats, group, prefs, r[0].1))
  {
    if group == [] {
    } else {
      FindKindMeaning(formats, group[0]);
      var rest := FirstOffered(formats, group[1..], prefs);
      FirstOfferedMeaning(formats, group[1..], prefs);
      if Offered(formats, group[0], prefs) {
        assert IsBest(formats, group, prefs, group[0]);
      } else if rest != [] {
        var i :| 0 <= i < |group[1..]| && group[1..][i] == rest[0].1
                 && forall j :: 0 <= j < i ==> !Offered(formats, group[1..][j], prefs);
        assert group[i + 1] == rest[0].1;
        assert forall j :: 0 < j < i + 1 ==> group[j] == group[1..][j - 1];
      }
    }
  }

  /**
   The fetch list: at most one text entry and then at most one image entry, each an offered format
   of the best offered and allowed kind of its preference list; an entry is missing only when no
   kind of its list is both offered and allowed.
   */
  lemma SelectMeaning(formats: seq<ClipFormat>, prefs: Prefs)
    ensures var r := SelectInbound(formats, prefs);
      && |r| <= 2
      && (forall i :: 0 <= i < |r| ==> r[i].0 in formats && r[i].0.Kind() == Some(r[i].1))
      && (forall i :: 0 <= i < |r| ==>
            IsBest(formats, if r[i].1.IsImage() then IMAGE_PREFERENCE else TEXT_PREFERENCE, prefs, r[i].1))
      && (|r| == 2 ==> !r[0].1.IsImage() && r[1].1.IsImage())
      && ((forall i :: 0 <= i < |r| ==> r[i].1.IsImage()) <==> forall k <- TEXT_PREFERENCE :: !Offered(formats, k, prefs))
      && ((forall i :: 0 <= i < |r| ==> !r[i].1.IsImage()) <==> forall k <- IMAGE_PREFERENCE :: !Offered(formats, k, prefs))
  {
    FirstOfferedMeaning(formats, TEXT_PREFERENCE, prefs);
    FirstOfferedMeaning(formats, IMAGE_PREFERENCE, prefs);
    var t, m := FirstOffered(formats, TEXT_PREFERENCE, prefs), FirstOffered(formats, IMAGE_PREFERENCE, prefs);
    var r := SelectInbound(formats, prefs);
    assert t != [] ==> r[0] == t[0] && !r[0].1.IsImage();
    assert m != [] ==> r[|t|] == m[0] && r[|t|].1.IsImage();
  }

  function UntilZeroByte(bytes: seq<u8>): seq<u8> {
    if bytes == [] || bytes[0] == 0 then [] else [bytes[0]] + UntilZeroByte(bytes[1..])
  }

  function Latin1(bytes: seq<u8>): string {
    seq(|bytes|, i requires 0 <= i < |bytes| => bytes[i] as char)
  }

  function DecodeAnsiText(conv: Converters, bytes: seq<u8>): string {
    var kept := UntilZeroByte(bytes);
    CrlfToLf(if conv.fromUtf8(kept).Some? then conv.fromUtf8(kept).value else Latin1(kept))
  }

  /** Fetched bytes as a local item. */
  function DecodeInbound(conv: Converters, kind: FormatKind, data: seq<u8>): Result<Item, ClipError> {
    if |data| > MAX_CLIPBOARD_BYTES then
      Err(TooLarge(|data|))
    else
      match kind
      case UnicodeText => Ok(TextItem(DecodeUnicodeText(data)))
      case AnsiText => Ok(TextItem(DecodeAnsiText(conv, data)))
      case Tiff => Ok(TiffItem(data))
      case Png =>
        (match PngPassthrough(data) case Ok(png) => Ok(PngItem(png)) case Err(e) => Err(e))
      case Dib =>
        if conv.dibToPng(data).Some? then Ok(PngItem(conv.dibToPng(data).value)) else Err(InvalidImage)
  }
}
