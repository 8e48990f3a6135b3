/**
 Where echo prevention ends. A write older than the last eight is a local change like any other, and
 contents the remote sent are offered back to it when a preference changes or focus is regained.
 */
module ClipboardEchoes {
  import opened Prelude
  import opened ClipboardFormats
  import opened ClipboardSpec
  import opened ClipboardHistory
  import Fetching = ClipboardFetch

  lemma RunNext(conv: Converters, s: State, inputs: seq<(Input, int)>, input: Input, now: int)
    ensures Run(conv, s, inputs + [(input, now)]).0 == Step(conv, Run(conv, s, inputs).0, input, now).s
  {
    assert (inputs + [(input, now)])[..|inputs|] == inputs;
  }

  // ----- forgotten writes -------------------------------------------------------------------

  /** The initial request, and then our own writes 1 to `n`. */
  function WritesUpTo(n: nat): seq<(Input, int)> {
    if n == 0 then [(InitialFormatListRequested, 0)] else WritesUpTo(n - 1) + [(LocalWritten(n), n)]
  }

  function UpTo(n: nat): seq<int> {
    seq(n, i requires 0 <= i < n => i + 1)
  }

  lemma {:induction false} WrittenUpTo(n: nat)
    ensures Written(WritesUpTo(n)) == UpTo(n)
  {
    if n == 0 {
      assert WritesUpTo(0)[..0] == [];
    } else {
      WrittenUpTo(n - 1);
      assert WritesUpTo(n)[..|WritesUpTo(n)| - 1] == WritesUpTo(n - 1);
    }
  }

  /** Ready, focused, and no local change or unacknowledged write yet. */
  ghost predicate Talks(s: State) {
    s.ready && s.focused && s.prefs == TextOnly && s.lastChange.None? && s.unackedWrite.None?
  }

  lemma WriteKeepsTalking(conv: Converters, s: State, n: int)
    requires Talks(s)
    ensures Talks(Step(conv, s, LocalWritten(n), n).s)
  {
  }

  lemma StartsTalking(conv: Converters)
    ensures Talks(Run(conv, Initial(TextOnly, true), WritesUpTo(0)).0)
  {
    RunNext(conv, Initial(TextOnly, true), [], InitialFormatListRequested, 0);
    assert [] + WritesUpTo(0) == WritesUpTo(0);
  }

  lemma {:induction false} AfterWrites(conv: Converters, n: nat)
    ensures Talks(Run(conv, Initial(TextOnly, true), WritesUpTo(n)).0)
  {
    if n == 0 {
      StartsTalking(conv);
    } else {
      var s0 := Initial(TextOnly, true);
      AfterWrites(conv, n - 1);
      RunNext(conv, s0, WritesUpTo(n - 1), LocalWritten(n), n);
      WriteKeepsTalking(conv, Run(conv, s0, WritesUpTo(n - 1)).0, n);
    }
  }

  lemma NotAmongTheLast(h: History, contents: Contents)
    requires h.writes == UpTo(9) && h.unacknowledged.None?
    ensures !Ours(h, 1, contents)
  {
    assert LastEight(UpTo(9)) == [2, 3, 4, 5, 6, 7, 8, 9];
  }

  /** After nine of our own writes, a change with the count of the first one is offered to the remote. */
  lemma NinthWriteForgetsTheFirst(conv: Converters, contents: Contents)
    ensures var s := Run(conv, Initial(TextOnly, true), WritesUpTo(9)).0;
      && 1 in Written(WritesUpTo(9))
      && TakenUp(s, Step(conv, s, LocalChanged(1, contents), 10), contents)
  {
    AfterWrites(conv, 9);
    WrittenUpTo(9);
    assert UpTo(9)[0] == 1;
    var (s, h) := Run(conv, Initial(TextOnly, true), WritesUpTo(9));
    EveryRunTracks(conv, TextOnly, true, WritesUpTo(9));
    NotAmongTheLast(h, contents);
    OtherChangeIsTakenUp(conv, TextOnly, true, WritesUpTo(9), 1, contents, 10);
  }

  // ----- offered back -----------------------------------------------------------------------

  /** The inputs, local changes aside, on which the latest local contents are offered. */
  predicate Reoffers(s: State, input: Input) {
    && s.local.Some?
    && match input
       case InitialFormatListRequested => s.focused && s.prefs != Off
       case Focus(focused) => focused && s.pendingLocal
       case PrefsChanged(prefs) => prefs != s.prefs && prefs != Off && s.ready && s.focused
       case _ => false
  }

  /** The last action offers what is advertised, and that is `contents` filtered. */
  ghost predicate Offers(w: Work, contents: Contents) {
    && w.s.advertised == Filter(contents, w.s.prefs)
    && w.out != [] && w.out[|w.out| - 1] == SendFormatList(Outbound(w.s.advertised, w.s.prefs))
  }

  /** No list, or an empty one. */
  ghost predicate OffersNothing(out: seq<Action>) {
    forall a <- out :: a.SendFormatList? ==> a.formats == []
  }

  lemma AdvertiseOffers(s: State, now: int)
    ensures Offers(Advertise(s, now), LocalContents(s))
    ensures s.local.None? ==> OffersNothing(Advertise(s, now).out)
  {
  }

  lemma FetchOffersNothing(conv: Converters, s: State, input: Input, now: int)
    requires input.RemoteFormatList? || input.RemoteData?
    ensures OffersNothing(Step(conv, s, input, now).out)
  {
  }

  /**
   Whoever the latest local contents come from, our own write included, they are offered on exactly
   these inputs; every other input but a local change offers nothing.
   */
  lemma LocalIsOfferedExactly(conv: Converters, s: State, input: Input, now: int)
    requires !input.LocalChanged?
    ensures var w := Step(conv, s, input, now);
      if Reoffers(s, input) then Offers(w, s.local.value.contents) else OffersNothing(w.out)
  {
    match input {
      case InitialFormatListRequested => AdvertiseOffers(s.(ready := true), now);
      case Focus(_) => AdvertiseOffers(s.(focused := true), now);
      case PrefsChanged(prefs) => AdvertiseOffers(s.(prefs := prefs), now);
      case RemoteFormatList(_) => FetchOffersNothing(conv, s, input, now);
      case RemoteData(_) => FetchOffersNothing(conv, s, input, now);
      case _ =>
    }
  }

  /** A remote image is fetched and written, and its change is reported with the count of the write. */
  function WrittenImage(image: seq<u8>): seq<(Input, int)> {
    [(InitialFormatListRequested, 0)] + [(RemoteFormatList([Fetching.TIFF_FORMAT]), 10_000)] + [(RemoteData(Some(image)), 10_001)]
    + [(LocalWritten(42), 10_002)] + [(LocalChanged(42, [TiffItem(image)]), 10_003)]
  }

  lemma ImageFetched(conv: Converters, image: seq<u8>)
    requires |image| <= MAX_CLIPBOARD_BYTES
    ensures var inputs := [(InitialFormatListRequested, 0)] + [(RemoteFormatList([Fetching.TIFF_FORMAT]), 10_000)];
      var s := Run(conv, Initial(TextAndImages, true), inputs).0;
      && s.ready && s.focused && s.prefs == TextAndImages && !s.pendingLocal && s.ownWrites == [] && s.lastChange.None?
      && s.local.None? && s.fetch == Some(Fetch([], [], 10_000)) && s.inflight == Some(Inflight(Tiff, 10_000, false))
  {
    var s0, first := Initial(TextAndImages, true), [(InitialFormatListRequested, 0)];
    RunNext(conv, s0, [], InitialFormatListRequested, 0);
    assert [] + first == first;
    var s1 := Run(conv, s0, first).0;
    RunNext(conv, s0, first, RemoteFormatList([Fetching.TIFF_FORMAT]), 10_000);
    Fetching.AsksAtOnce(conv, Fetching.SILENT, s1, Fetching.TIFF_FORMAT, Tiff, 10_000);
  }

  /** A state that can talk, whose latest local contents are the image. */
  ghost predicate Holds(s: State, image: seq<u8>) {
    s.ready && s.focused && s.local.Some? && s.local.value.contents == [TiffItem(image)]
  }

  lemma FetchedIsWritten(conv: Converters, s: State, image: seq<u8>)
    requires |image| <= MAX_CLIPBOARD_BYTES
    requires s.ready && s.focused && s.local.None? && s.ownWrites == [] && s.lastChange.None?
    requires s.fetch == Some(Fetch([], [], 10_000)) && s.inflight == Some(Inflight(Tiff, 10_000, false))
    ensures var w := Step(conv, s, RemoteData(Some(image)), 10_001);
      && w.out == [WritePasteboard([TiffItem(image)])]
      && w.s.ready && w.s.focused && w.s.local.None? && w.s.lastChange.None? && w.s.prefs == s.prefs && w.s.ownWrites == []
  {
    assert DecodeAnswer(conv, Tiff, Some(image)) == Ok(TiffItem(image));
    assert [] + [TiffItem(image)] == [TiffItem(image)];
  }

  lemma ReportedIsHeld(conv: Converters, s: State, image: seq<u8>)
    requires s.ready && s.focused && s.lastChange.None? && s.ownWrites == []
    ensures var written := Step(conv, s, LocalWritten(42), 10_002).s;
      var w := Step(conv, written, LocalChanged(42, [TiffItem(image)]), 10_003);
      Holds(w.s, image) && w.s.prefs == s.prefs && w.out == []
  {
    var written := Step(conv, s, LocalWritten(42), 10_002).s;
    assert written.ownWrites == [42];
  }

  lemma ImageWritten(conv: Converters, image: seq<u8>)
    requires |image| <= MAX_CLIPBOARD_BYTES
    ensures var s := Run(conv, Initial(TextAndImages, true), WrittenImage(image)).0;
      Holds(s, image) && s.prefs == TextAndImages
  {
    var s0 := Initial(TextAndImages, true);
    var asked := [(InitialFormatListRequested, 0)] + [(RemoteFormatList([Fetching.TIFF_FORMAT]), 10_000)];
    var received := asked + [(RemoteData(Some(image)), 10_001)];
    ImageFetched(conv, image);
    RunNext(conv, s0, asked, RemoteData(Some(image)), 10_001);
    FetchedIsWritten(conv, Run(conv, s0, asked).0, image);
    RunNext(conv, s0, received, LocalWritten(42), 10_002);
    RunNext(conv, s0, received + [(LocalWritten(42), 10_002)], LocalChanged(42, [TiffItem(image)]), 10_003);
    ReportedIsHeld(conv, Run(conv, s0, received).0, image);
  }

  lemma ImageIsOffered(image: seq<u8>)
    requires |image| <= MAX_CLIPBOARD_BYTES
    ensures Outbound(Filter([TiffItem(image)], TextAndImages), TextAndImages) == [Fetching.TIFF_FORMAT]
  {
    var items: Contents := [TiffItem(image)];
    FilterAppend([], items[0], TextAndImages);
    assert [] + items == items && items[1..] == [];
    assert Filter(items, TextAndImages) == items;
    assert FindText(items[1..]).None? && FindPng(items[1..]).None?;
    assert FindText(items).None? && FindPng(items).None? && FindTiff(items).Some?;
  }

  /** The remote's own image is offered back to it once images are disallowed and allowed again. */
  lemma WrittenImageIsOfferedBack(conv: Converters, image: seq<u8>)
    requires |image| <= MAX_CLIPBOARD_BYTES
    ensures var s := Run(conv, Initial(TextAndImages, true), WrittenImage(image)).0;
      var t := Step(conv, s, PrefsChanged(TextOnly), 10_004).s;
      var out := Step(conv, t, PrefsChanged(TextAndImages), 10_005).out;
      out != [] && out[|out| - 1] == SendFormatList([Fetching.TIFF_FORMAT])
  {
    ImageWritten(conv, image);
    var s := Run(conv, Initial(TextAndImages, true), WrittenImage(image)).0;
    var t := Step(conv, s, PrefsChanged(TextOnly), 10_004).s;
    LocalIsOfferedExactly(conv, t, PrefsChanged(TextAndImages), 10_005);
    ImageIsOffered(image);
  }
}
