/**
 Giving up: a request that is not answered in time, and a clipboard that is turned off. Turned off in
 a focused session it is quiet from then on; in a session out of focus a fetch in progress goes on,
 and its answer is still written.
 */
module ClipboardOff {
  import opened Prelude
  import opened ClipboardFormats
  import opened ClipboardSpec
  import opened ClipboardHistory
  import Echoes = ClipboardEchoes
  import Fetching = ClipboardFetch

  // ----- unanswered requests ----------------------------------------------------------------

  /** A request unanswered for five seconds is given up with its fetch, and the next list is asked for at once. */
  lemma TimeoutFreesTheWire(conv: Converters, s: State, now: int, formats: seq<ClipFormat>, later: int)
    requires s.inflight.Some? && s.inflight.value.since + 5000 <= now
    requires s.ready && s.focused && s.prefs != Off && !IsEcho(s, formats, later) && SelectInbound(formats, s.prefs) != []
    ensures var given := Step(conv, s, Tick, now);
      && given.out == [] && given.s.fetch.None? && given.s.inflight.None?
      && Step(conv, given.s, RemoteFormatList(formats), later).out == [RequestRemoteData(SelectInbound(formats, s.prefs)[0].0)]
  {
  }

  /** A younger request is left alone, and so is a state without one. */
  lemma NoTimeoutNoChange(conv: Converters, s: State, now: int)
    requires s.inflight.Some? ==> now < s.inflight.value.since + 5000
    ensures Step(conv, s, Tick, now) == Work(s, [])
  {
  }

  // ----- turned off -------------------------------------------------------------------------

  /** Turning the clipboard off gives up a fetch exactly in a session that is ready and has the focus. */
  lemma OffGivesUpExactly(conv: Converters, s: State, now: int)
    requires s.prefs != Off
    ensures var w := Step(conv, s, PrefsChanged(Off), now);
      && (w.s.fetch.None? <==> s.fetch.None? || (s.ready && s.focused))
      && (s.ready && s.focused ==>
            && w.out == [SendFormatList([])] && w.s.advertised == []
            && (w.s.inflight.Some? ==> w.s.inflight.value.stale))
  {
  }

  ghost predicate TurnedOff(s: State) {
    s.prefs == Off && s.fetch.None?
  }

  /** Nothing is asked for or written, nothing is offered, and every request for data is refused. */
  ghost predicate Quiet(out: seq<Action>) {
    forall a <- out ::
      && !a.RequestRemoteData? && !a.WritePasteboard?
      && (a.SendFormatList? ==> a.formats == [])
      && (a.SendData? ==> a.data == Err(Unavailable(a.id)))
  }

  lemma {:induction false} NothingKeptWhenOff(contents: Contents)
    ensures Filter(contents, Off) == [] && Oversized(contents, Off) == []
  {
    if contents == [] {
    } else {
      NothingKeptWhenOff(contents[..|contents| - 1]);
    }
  }

  lemma AdvertiseWhenOff(s: State, now: int)
    requires s.prefs == Off
    ensures Advertise(s, now).out == [SendFormatList([])] && Advertise(s, now).s.prefs == Off && Advertise(s, now).s.fetch.None?
  {
    NothingKeptWhenOff(LocalContents(s));
    assert [] + [SendFormatList([])] == [SendFormatList([])];
  }

  lemma StepWhenOff(conv: Converters, s: State, input: Input, now: int)
    requires TurnedOff(s) && (input.PrefsChanged? ==> input.prefs == Off)
    ensures var w := Step(conv, s, input, now); TurnedOff(w.s) && Quiet(w.out)
  {
    match input {
      case Focus(_) => AdvertiseWhenOff(s.(focused := true), now);
      case RemoteDataRequest(id) => assert Outbound(s.advertised, Off) == [];
      case _ =>
    }
  }

  /** No input turns the clipboard on again. */
  ghost predicate StaysOff(inputs: seq<(Input, int)>) {
    forall i <- inputs :: i.0.PrefsChanged? ==> i.0.prefs == Off
  }

  /** Once it is off with no fetch in progress, a clipboard is quiet through any run that leaves it off. */
  lemma {:induction false} OffIsQuiet(conv: Converters, s: State, inputs: seq<(Input, int)>, input: Input, now: int)
    requires TurnedOff(s) && StaysOff(inputs) && (input.PrefsChanged? ==> input.prefs == Off)
    ensures var t := Run(conv, s, inputs).0; TurnedOff(t) && Quiet(Step(conv, t, input, now).out)
  {
    if inputs != [] {
      var init, last := inputs[..|inputs| - 1], inputs[|inputs| - 1];
      assert last in inputs && forall i <- init :: i in inputs;
      OffIsQuiet(conv, s, init, last.0, last.1);
      StepWhenOff(conv, Run(conv, s, init).0, last.0, last.1);
    }
    StepWhenOff(conv, Run(conv, s, inputs).0, input, now);
  }

  // ----- turned off out of focus ------------------------------------------------------------

  /** An image is asked for, the session loses the focus, and its clipboard is turned off. */
  function AskedThenOff(): seq<(Input, int)> {
    [(InitialFormatListRequested, 0)] + [(RemoteFormatList([Fetching.TIFF_FORMAT]), 10_000)]
    + [(Focus(false), 10_001)] + [(PrefsChanged(Off), 10_002)]
  }

  lemma AnswerIsWritten(conv: Converters, s: State, image: seq<u8>)
    requires |image| <= MAX_CLIPBOARD_BYTES && s.local.None?
    requires s.fetch == Some(Fetch([], [], 10_000)) && s.inflight == Some(Inflight(Tiff, 10_000, false))
    ensures Step(conv, s, RemoteData(Some(image)), 10_003).out == [WritePasteboard([TiffItem(image)])]
  {
    assert DecodeAnswer(conv, Tiff, Some(image)) == Ok(TiffItem(image));
    assert [] + [TiffItem(image)] == [TiffItem(image)];
  }

  /** The image that arrives afterwards is written to the pasteboard although the clipboard is off. */
  lemma WrittenWhileOff(conv: Converters, image: seq<u8>)
    requires |image| <= MAX_CLIPBOARD_BYTES
    ensures var s := Run(conv, Initial(TextAndImages, true), AskedThenOff()).0;
      && s.prefs == Off
      && Step(conv, s, RemoteData(Some(image)), 10_003).out == [WritePasteboard([TiffItem(image)])]
  {
    var s0 := Initial(TextAndImages, true);
    var asked := [(InitialFormatListRequested, 0)] + [(RemoteFormatList([Fetching.TIFF_FORMAT]), 10_000)];
    Echoes.ImageFetched(conv, image);
    Echoes.RunNext(conv, s0, asked, Focus(false), 10_001);
    Echoes.RunNext(conv, s0, asked + [(Focus(false), 10_001)], PrefsChanged(Off), 10_002);
    AnswerIsWritten(conv, Run(conv, s0, AskedThenOff()).0, image);
  }
}
