/**
 Echo prevention, told from the outside: which local changes are our own writes and which remote
 lists are echoes follows from the inputs received and the actions sent, and from nothing else.
 */
module ClipboardHistory {
  import opened Prelude
  import opened ClipboardFormats
  import opened ClipboardSpec

  /**
   What an observer of inputs and actions knows: the change counts of our own writes in order, the
   contents of a pasteboard write that was not acknowledged yet, the change count of the latest local
   change, and the last format list with the time it was sent.
   */
  datatype History = History(
    writes: seq<int>,
    unacknowledged: Option<Contents>,
    lastChange: Option<int>,
    sent: Option<(seq<ClipFormat>, int)>)

  const NOTHING_YET: History := History([], None, None, None)

  /** The contents of the last pasteboard write among the actions, or `before`. */
  ghost function LastWrite(out: seq<Action>, before: Option<Contents>): Option<Contents> {
    if out == [] then before
    else if out[|out| - 1].WritePasteboard? then Some(out[|out| - 1].contents)
    else LastWrite(out[..|out| - 1], before)
  }

  /** The last format list among the actions, or `before`. */
  ghost function LastSent(out: seq<Action>, now: int, before: Option<(seq<ClipFormat>, int)>): Option<(seq<ClipFormat>, int)> {
    if out == [] then before
    else if out[|out| - 1].SendFormatList? then Some((out[|out| - 1].formats, now))
    else LastSent(out[..|out| - 1], now, before)
  }

  ghost function Remember(h: History, input: Input, out: seq<Action>, now: int): History {
    History(if input.LocalWritten? then h.writes + [input.writeCount] else h.writes,
            LastWrite(out, if input.LocalWritten? then None else h.unacknowledged),
            if input.LocalChanged? then Some(input.changeCount) else h.lastChange,
            LastSent(out, now, h.sent))
  }

  /** The last eight of a list. */
  function LastEight(counts: seq<int>): seq<int> {
    if |counts| > 8 then counts[|counts| - 8..] else counts
  }

  /** The change is one of our own writes, as far as they are remembered. */
  predicate Ours(h: History, changeCount: int, contents: Contents) {
    changeCount in LastEight(h.writes) || h.unacknowledged == Some(contents)
  }

  /** How many formats of a list are of a kind. */
  function CountKind(formats: seq<ClipFormat>, kind: Option<FormatKind>): nat {
    if formats == [] then 0
    else CountKind(formats[..|formats| - 1], kind) + if formats[|formats| - 1].Kind() == kind then 1 else 0
  }

  /** The lists have the same kinds, each as often. */
  ghost predicate SameCounts(a: seq<ClipFormat>, b: seq<ClipFormat>) {
    forall kind :: CountKind(a, kind) == CountKind(b, kind)
  }

  /** The list has the same kinds as the one sent at most half a second before. */
  ghost predicate Echoes(h: History, formats: seq<ClipFormat>, now: int) {
    && h.sent.Some? && now <= h.sent.value.1 + 500
    && SameCounts(h.sent.value.0, formats)
  }

  // ----- the state is that history ----------------------------------------------------------

  ghost predicate Tracks(h: History, s: State) {
    && s.ownWrites == LastEight(h.writes)
    && s.unackedWrite == h.unacknowledged
    && s.lastChange == h.lastChange
    && s.lastSent == match h.sent case None => None case Some((formats, at)) => Some((KindsOf(formats), at))
  }

  /** Nothing an observer of writes and lists would notice. */
  ghost predicate Unnoticed(out: seq<Action>) {
    forall a <- out :: !a.WritePasteboard? && !a.SendFormatList?
  }

  lemma {:induction false} UnnoticedLast(out: seq<Action>, now: int, write: Option<Contents>, sent: Option<(seq<ClipFormat>, int)>)
    requires Unnoticed(out)
    ensures LastWrite(out, write) == write && LastSent(out, now, sent) == sent
  {
    if out == [] {
    } else {
      assert out[|out| - 1] in out && forall a <- out[..|out| - 1] :: a in out;
      UnnoticedLast(out[..|out| - 1], now, write, sent);
    }
  }

  lemma SentLast(out: seq<Action>, formats: seq<ClipFormat>, now: int, write: Option<Contents>, sent: Option<(seq<ClipFormat>, int)>)
    requires Unnoticed(out)
    ensures LastWrite(out + [SendFormatList(formats)], write) == write
    ensures LastSent(out + [SendFormatList(formats)], now, sent) == Some((formats, now))
  {
    assert (out + [SendFormatList(formats)])[..|out|] == out;
    UnnoticedLast(out, now, write, sent);
  }

  /** A step that sends nothing noticed and changes nothing remembered. */
  lemma QuietTracks(h: History, s: State, input: Input, w: Work, now: int)
    requires Tracks(h, s) && !input.LocalWritten? && !input.LocalChanged? && Unnoticed(w.out)
    requires w.s.ownWrites == s.ownWrites && w.s.unackedWrite == s.unackedWrite
    requires w.s.lastChange == s.lastChange && w.s.lastSent == s.lastSent
    ensures Tracks(Remember(h, input, w.out, now), w.s)
  {
    UnnoticedLast(w.out, now, h.unacknowledged, h.sent);
  }

  /** After sending a list, everything else remembered is as it was. */
  ghost predicate SentOne(s: State, w: Work, formats: seq<ClipFormat>, now: int) {
    && w.s.ownWrites == s.ownWrites && w.s.unackedWrite == s.unackedWrite && w.s.lastChange == s.lastChange
    && w.s.lastSent == Some((KindsOf(formats), now))
    && w.out != [] && w.out[|w.out| - 1] == SendFormatList(formats) && Unnoticed(w.out[..|w.out| - 1])
  }

  lemma AdvertiseSends(s: State, now: int)
    ensures SentOne(s, Advertise(s, now), Outbound(Filter(LocalContents(s), s.prefs), s.prefs), now)
  {
    var rejected := Rejections(Oversized(LocalContents(s), s.prefs));
    assert Unnoticed(rejected);
    var w := Advertise(s, now);
    assert w.out[..|w.out| - 1] == rejected;
  }

  lemma SentTracks(h: History, s: State, input: Input, w: Work, formats: seq<ClipFormat>, now: int)
    requires Tracks(h, s) && !input.LocalWritten?
    requires SentOne(s, w, formats, now) || (input.LocalChanged? && SentOne(s.(lastChange := Some(input.changeCount)), w, formats, now))
    requires input.LocalChanged? ==> w.s.lastChange == Some(input.changeCount)
    ensures Tracks(Remember(h, input, w.out, now), w.s)
  {
    var init := w.out[..|w.out| - 1];
    assert w.out == init + [SendFormatList(formats)];
    SentLast(init, formats, now, h.unacknowledged, h.sent);
  }

  lemma NextStepTracks(h: History, s: State, input: Input, out: seq<Action>, now: int)
    requires Tracks(h, s) && !input.LocalWritten? && !input.LocalChanged? && Unnoticed(out)
    ensures var w := NextFetchStep(s, now);
      Tracks(Remember(h, input, out + w.out, now), w.s)
  {
    var w := NextFetchStep(s, now);
    if w.out == [] {
      assert out + w.out == out;
    } else {
      assert (out + w.out)[..|out|] == out;
    }
    UnnoticedLast(out, now, h.unacknowledged, h.sent);
  }

  lemma RemoteListTracks(h: History, s: State, formats: seq<ClipFormat>, now: int)
    requires Tracks(h, s)
    ensures var w := OnRemoteList(s, formats, now); Tracks(Remember(h, RemoteFormatList(formats), w.out, now), w.s)
  {
    var input, w := RemoteFormatList(formats), OnRemoteList(s, formats, now);
    var waiting := Supersede(s).(fetch := Some(Fetch(SelectInbound(formats, s.prefs), [], now)));
    NextStepTracks(h, waiting, input, [], now);
    assert [] + NextFetchStep(waiting, now).out == NextFetchStep(waiting, now).out;
    if w != NextFetchStep(waiting, now) {
      QuietTracks(h, s, input, w, now);
    }
  }

  lemma RemoteDataTracks(conv: Converters, h: History, s: State, data: Option<seq<u8>>, now: int)
    requires Tracks(h, s)
    ensures var w := OnRemoteData(conv, s, data, now); Tracks(Remember(h, RemoteData(data), w.out, now), w.s)
  {
    var input := RemoteData(data);
    if s.inflight.None? {
      QuietTracks(h, s, input, Work(s, []), now);
    } else {
      var idle := s.(inflight := None);
      NextStepTracks(h, idle, input, [], now);
      assert [] + NextFetchStep(idle, now).out == NextFetchStep(idle, now).out;
      var answer := DecodeAnswer(conv, s.inflight.value.kind, data);
      if !s.inflight.value.stale && answer.Err? {
        NextStepTracks(h, idle, input, [Rejected(answer.error)], now);
      } else if !s.inflight.value.stale && s.fetch.Some? {
        var added := idle.(fetch := Some(s.fetch.value.(items := s.fetch.value.items + [answer.value])));
        NextStepTracks(h, added, input, [], now);
        assert [] + NextFetchStep(added, now).out == NextFetchStep(added, now).out;
      }
    }
  }

  lemma WrittenTracks(h: History, s: State, count: int, now: int)
    requires Tracks(h, s)
    ensures Tracks(Remember(h, LocalWritten(count), [], now), OnLocalWritten(s, count))
  {
    var all := h.writes + [count];
    if |h.writes| >= 8 {
      assert LastEight(all) == (LastEight(h.writes) + [count])[1..];
    }
  }

  lemma LocalChangeTracks(h: History, s: State, count: int, contents: Contents, now: int)
    requires Tracks(h, s)
    ensures var w := OnLocalChange(s, count, contents, now); Tracks(Remember(h, LocalChanged(count, contents), w.out, now), w.s)
  {
    var seen := s.(lastChange := Some(count), local := Some(Snapshot(contents, now)));
    var w := OnLocalChange(s, count, contents, now);
    if w.out != [] {
      AdvertiseSends(seen, now);
      SentTracks(h, s, LocalChanged(count, contents), w, Outbound(Filter(contents, s.prefs), s.prefs), now);
    }
  }

  lemma InitialTracks(h: History, s: State, now: int)
    requires Tracks(h, s)
    ensures var w := OnInitialRequest(s, now); Tracks(Remember(h, InitialFormatListRequested, w.out, now), w.s)
  {
    var ready, w := s.(ready := true), OnInitialRequest(s, now);
    AdvertiseSends(ready, now);
    if CanSync(ready) && s.local.Some? {
      SentTracks(h, s, InitialFormatListRequested, w, Outbound(Filter(LocalContents(s), s.prefs), s.prefs), now);
    } else {
      SentTracks(h, s, InitialFormatListRequested, w, [], now);
    }
  }

  lemma PrefsTracks(h: History, s: State, prefs: Prefs, now: int)
    requires Tracks(h, s)
    ensures var w := OnPrefs(s, prefs, now); Tracks(Remember(h, PrefsChanged(prefs), w.out, now), w.s)
  {
    var changed, w := s.(prefs := prefs), OnPrefs(s, prefs, now);
    AdvertiseSends(changed, now);
    if w.out == [] {
      QuietTracks(h, s, PrefsChanged(prefs), w, now);
    } else {
      SentTracks(h, s, PrefsChanged(prefs), w, if prefs == Off then [] else Outbound(Filter(LocalContents(s), prefs), prefs), now);
    }
  }

  lemma StepTracks(conv: Converters, h: History, s: State, input: Input, now: int)
    requires Tracks(h, s)
    ensures var w := Step(conv, s, input, now); Tracks(Remember(h, input, w.out, now), w.s)
  {
    match input {
      case InitialFormatListRequested => InitialTracks(h, s, now);
      case RemoteFormatList(formats) => RemoteListTracks(h, s, formats, now);
      case RemoteData(data) => RemoteDataTracks(conv, h, s, data, now);
      case LocalChanged(count, contents) => LocalChangeTracks(h, s, count, contents, now);
      case LocalWritten(count) => WrittenTracks(h, s, count, now);
      case PrefsChanged(prefs) => PrefsTracks(h, s, prefs, now);
      case Focus(focused) =>
        if focused && s.pendingLocal {
          AdvertiseSends(s.(focused := true), now);
          SentTracks(h, s, input, Step(conv, s, input, now), Outbound(Filter(LocalContents(s), s.prefs), s.prefs), now);
        } else {
          QuietTracks(h, s, input, Step(conv, s, input, now), now);
        }
      case _ => QuietTracks(h, s, input, Step(conv, s, input, now), now);
    }
  }

  // ----- runs -------------------------------------------------------------------------------

  ghost function Run(conv: Converters, s: State, inputs: seq<(Input, int)>): (State, History) {
    if inputs == [] then
      (s, NOTHING_YET)
    else
      var (before, h) := Run(conv, s, inputs[..|inputs| - 1]);
      var (input, now) := inputs[|inputs| - 1];
      var w := Step(conv, before, input, now);
      (w.s, Remember(h, input, w.out, now))
  }

  /** The change counts a run reported as our own writes, in order. */
  function Written(inputs: seq<(Input, int)>): seq<int> {
    if inputs == [] then []
    else
      Written(inputs[..|inputs| - 1])
        + match inputs[|inputs| - 1].0 case LocalWritten(count) => [count] case _ => []
  }

  /** In every reachable state the remembered counts are the last eight the run reported. */
  lemma {:induction false} EveryRunTracks(conv: Converters, prefs: Prefs, focused: bool, inputs: seq<(Input, int)>)
    ensures var (s, h) := Run(conv, Initial(prefs, focused), inputs);
      Tracks(h, s) && h.writes == Written(inputs) && s.ownWrites == LastEight(Written(inputs))
  {
    if inputs == [] {
    } else {
      var init := inputs[..|inputs| - 1];
      EveryRunTracks(conv, prefs, focused, init);
      var (s, h) := Run(conv, Initial(prefs, focused), init);
      StepTracks(conv, h, s, inputs[|inputs| - 1].0, inputs[|inputs| - 1].1);
    }
  }

  // ----- our own writes ---------------------------------------------------------------------

  lemma OursIsOwn(h: History, s: State, count: int, contents: Contents)
    requires Tracks(h, s)
    ensures IsOwn(s, count, contents) <==> Ours(h, count, contents)
  {
  }

  /** Nothing happens but that the contents are noted as the latest local ones. */
  ghost predicate Ignores(s: State, w: Work, count: int, contents: Contents, now: int) {
    w == Work(s.(lastChange := Some(count), local := Some(Snapshot(contents, now))), [])
  }

  lemma OwnIsIgnored(s: State, count: int, contents: Contents, now: int)
    requires s.lastChange != Some(count) && IsOwn(s, count, contents)
    ensures Ignores(s, OnLocalChange(s, count, contents, now), count, contents, now)
  {
  }

  lemma OtherIsTakenUp(s: State, count: int, contents: Contents, now: int)
    requires s.lastChange != Some(count) && !IsOwn(s, count, contents)
    ensures TakenUp(s, OnLocalChange(s, count, contents, now), contents)
  {
  }

  /**
   A new local change that is our own write sends nothing and leaves the advertisement, what is
   pending and any fetch alone, whatever it holds; it is only noted as the latest local contents.
   */
  lemma OwnChangeIsIgnored(conv: Converters, prefs: Prefs, focused: bool, inputs: seq<(Input, int)>,
                           count: int, contents: Contents, now: int)
    requires var (s, h) := Run(conv, Initial(prefs, focused), inputs);
      h.lastChange != Some(count) && Ours(h, count, contents)
    ensures var (s, h) := Run(conv, Initial(prefs, focused), inputs);
      Ignores(s, Step(conv, s, LocalChanged(count, contents), now), count, contents, now)
  {
    EveryRunTracks(conv, prefs, focused, inputs);
    var (s, h) := Run(conv, Initial(prefs, focused), inputs);
    OursIsOwn(h, s, count, contents);
    OwnIsIgnored(s, count, contents, now);
  }

  /** What a change that is not ours leads to: the filtered contents offered, or a debt while out of focus. */
  ghost predicate TakenUp(s: State, w: Work, contents: Contents) {
    if s.prefs == Off then
      w.out == [] && w.s.pendingLocal == s.pendingLocal
    else if s.ready && s.focused then
      && w.s.advertised == Filter(contents, s.prefs) && !w.s.pendingLocal && w.s.fetch.None?
      && w.out != [] && w.out[|w.out| - 1] == SendFormatList(Outbound(w.s.advertised, s.prefs))
    else
      w.out == [] && w.s.pendingLocal
  }

  /** A new local change that is not our own write, as far as those are remembered, is always taken up. */
  lemma OtherChangeIsTakenUp(conv: Converters, prefs: Prefs, focused: bool, inputs: seq<(Input, int)>,
                             count: int, contents: Contents, now: int)
    requires var (s, h) := Run(conv, Initial(prefs, focused), inputs);
      h.lastChange != Some(count) && !Ours(h, count, contents)
    ensures var (s, h) := Run(conv, Initial(prefs, focused), inputs);
      TakenUp(s, Step(conv, s, LocalChanged(count, contents), now), contents)
  {
    EveryRunTracks(conv, prefs, focused, inputs);
    var (s, h) := Run(conv, Initial(prefs, focused), inputs);
    OursIsOwn(h, s, count, contents);
    OtherIsTakenUp(s, count, contents, now);
  }

  // ----- echoes -----------------------------------------------------------------------------

  lemma {:induction false} KindsAreCounts(formats: seq<ClipFormat>, kind: Option<FormatKind>)
    ensures KindsOf(formats)[kind] == CountKind(formats, kind)
  {
    if formats == [] {
    } else {
      var init, last := formats[..|formats| - 1], formats[|formats| - 1];
      KindsAreCounts(init, kind);
      var kinds := seq(|formats|, i requires 0 <= i < |formats| => formats[i].Kind());
      var before := seq(|init|, i requires 0 <= i < |init| => init[i].Kind());
      assert kinds == before + [last.Kind()];
    }
  }

  lemma SameKinds(a: seq<ClipFormat>, b: seq<ClipFormat>)
    ensures KindsOf(a) == KindsOf(b) <==> SameCounts(a, b)
  {
    forall kind
      ensures KindsOf(a)[kind] == CountKind(a, kind) && KindsOf(b)[kind] == CountKind(b, kind)
    {
      KindsAreCounts(a, kind);
      KindsAreCounts(b, kind);
    }
    if SameCounts(a, b) {
      forall kind ensures KindsOf(a)[kind] == KindsOf(b)[kind] {
        assert CountKind(a, kind) == CountKind(b, kind);
      }
      assert KindsOf(a) == KindsOf(b);
    } else {
      var kind :| CountKind(a, kind) != CountKind(b, kind);
      assert KindsOf(a)[kind] != KindsOf(b)[kind];
    }
  }

  lemma EchoIsHistory(h: History, s: State, formats: seq<ClipFormat>, now: int)
    requires Tracks(h, s)
    ensures IsEcho(s, formats, now) <==> Echoes(h, formats, now)
  {
    if h.sent.Some? {
      var (last, at) := h.sent.value;
      SameKinds(last, formats);
    }
  }

  /** The fetch in progress is given up, and what is wanted of the new list is fetched. */
  ghost predicate StartsOver(s: State, w: Work, wanted: seq<Wanted>, now: int) {
    && (w.s.inflight.Some? ==> w.s.inflight.value.stale == s.inflight.Some?)
    && if wanted == [] then
         w.s.fetch.None? && w.out == []
       else if s.inflight.Some? then
         w.s.fetch == Some(Fetch(wanted, [], now)) && w.out == []
       else
         w.s.fetch == Some(Fetch(wanted[1..], [], now)) && w.out == [RequestRemoteData(wanted[0].0)]
  }

  lemma AcceptedStartsOver(s: State, formats: seq<ClipFormat>, now: int)
    requires Accepts(s, formats, now)
    ensures StartsOver(s, OnRemoteList(s, formats, now), SelectInbound(formats, s.prefs), now)
  {
  }

  /**
   A remote list is ignored while out of focus, before the initial request, without permission, or
   when it echoes the last list sent; any other one gives up the fetch in progress, and starts a new
   one when it offers something wanted.
   */
  lemma RemoteListMeaning(conv: Converters, prefs: Prefs, focused: bool, inputs: seq<(Input, int)>,
                          formats: seq<ClipFormat>, now: int)
    ensures var (s, h) := Run(conv, Initial(prefs, focused), inputs);
      var w := Step(conv, s, RemoteFormatList(formats), now);
      if !s.ready || !s.focused || s.prefs == Off || Echoes(h, formats, now) then w == Work(s, [])
      else StartsOver(s, w, SelectInbound(formats, s.prefs), now)
  {
    EveryRunTracks(conv, prefs, focused, inputs);
    var (s, h) := Run(conv, Initial(prefs, focused), inputs);
    EchoIsHistory(h, s, formats, now);
    if Accepts(s, formats, now) {
      AcceptedStartsOver(s, formats, now);
    }
  }
}
