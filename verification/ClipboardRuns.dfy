/**
 The clipboard protocol over whole runs: the advertisement stays coherent with the local pasteboard,
 and remote fetches pair every response with its request. Two sentences of the module's own
 documentation do not hold of the code; each is replaced by the exact condition.
 */
module ClipboardRuns {
  import opened Prelude
  import opened ClipboardFormats
  import opened ClipboardSpec
  import History = ClipboardHistory

  // ----- the advertisement ------------------------------------------------------------------

  /** The last format list in `out`, or `before`; each remembered with the preference in force. */
  ghost function LastList(out: seq<Action>, prefs: Prefs, before: Option<(seq<ClipFormat>, Prefs)>)
    : Option<(seq<ClipFormat>, Prefs)>
  {
    if out == [] then before
    else if out[|out| - 1].SendFormatList? then Some((out[|out| - 1].formats, prefs))
    else LastList(out[..|out| - 1], prefs, before)
  }

  /**
   What an observer of inputs and actions remembers: whether the latest local change was our own
   write, the last list sent, and the history both follow from.
   */
  datatype Seen = Seen(own: bool, list: Option<(seq<ClipFormat>, Prefs)>, history: History.History)

  ghost function Observe(conv: Converters, o: Seen, s: State, input: Input, now: int): Seen {
    var w := Step(conv, s, input, now);
    Seen(if input.LocalChanged? && o.history.lastChange != Some(input.changeCount)
         then History.Ours(o.history, input.changeCount, input.contents) else o.own,
         LastList(w.out, w.s.prefs, o.list),
         History.Remember(o.history, input, w.out, now))
  }

  /** The advertisement is the latest local contents, filtered, unless something is owed or excused. */
  ghost predicate Coherent(o: Seen, s: State) {
    && (s.ready && s.focused ==> !s.pendingLocal)
    && (s.prefs != Off && s.local.Some? && !o.own && !s.pendingLocal ==>
          s.advertised == Filter(s.local.value.contents, s.prefs))
  }

  /** The last list sent offers exactly what is advertised, under the preference it was sent with. */
  ghost predicate ListMatches(list: Option<(seq<ClipFormat>, Prefs)>, s: State) {
    match list
    case None => s.advertised == []
    case Some((formats, prefs)) => formats == Outbound(s.advertised, prefs)
  }

  lemma LastListAppend(out: seq<Action>, formats: seq<ClipFormat>, prefs: Prefs, before: Option<(seq<ClipFormat>, Prefs)>)
    ensures LastList(out + [SendFormatList(formats)], prefs, before) == Some((formats, prefs))
  {
    var all := out + [SendFormatList(formats)];
    assert all[|all| - 1] == SendFormatList(formats);
  }

  lemma AdvertiseMatches(s: State, now: int, before: Option<(seq<ClipFormat>, Prefs)>)
    ensures var w := Advertise(s, now); ListMatches(LastList(w.out, w.s.prefs, before), w.s)
  {
    var kept := Filter(LocalContents(s), s.prefs);
    LastListAppend(Rejections(Oversized(LocalContents(s), s.prefs)), Outbound(kept, s.prefs), s.prefs, before);
  }

  lemma EmptyMatches(s: State, now: int, before: Option<(seq<ClipFormat>, Prefs)>)
    requires s.advertised == []
    ensures var w := SendList(s, [], now); ListMatches(LastList(w.out, w.s.prefs, before), w.s)
  {
    LastListAppend([], [], s.prefs, before);
    assert [] + [SendFormatList([])] == [SendFormatList([])];
  }

  predicate NoList(out: seq<Action>) {
    forall a <- out :: !a.SendFormatList?
  }

  lemma {:induction false} LastListNone(out: seq<Action>, prefs: Prefs, before: Option<(seq<ClipFormat>, Prefs)>)
    requires NoList(out)
    ensures LastList(out, prefs, before) == before
  {
    if out == [] {
    } else {
      assert out[|out| - 1] in out;
      assert forall a <- out[..|out| - 1] :: a in out;
      LastListNone(out[..|out| - 1], prefs, before);
    }
  }

  lemma SilentMatches(s: State, w: Work, before: Option<(seq<ClipFormat>, Prefs)>)
    requires ListMatches(before, s) && NoList(w.out) && w.s.advertised == s.advertised
    ensures ListMatches(LastList(w.out, w.s.prefs, before), w.s)
  {
    LastListNone(w.out, w.s.prefs, before);
  }

  /** Fetching sends no list and leaves the advertisement alone. */
  predicate OnlyFetches(s: State, w: Work) {
    NoList(w.out) && w.s == s.(fetch := w.s.fetch, inflight := w.s.inflight, unackedWrite := w.s.unackedWrite)
  }

  lemma NextStepOnlyFetches(s: State, now: int)
    ensures OnlyFetches(s, NextFetchStep(s, now))
  {
  }

  lemma RemoteListOnlyFetches(s: State, formats: seq<ClipFormat>, now: int)
    ensures OnlyFetches(s, OnRemoteList(s, formats, now))
  {
    NextStepOnlyFetches(Supersede(s).(fetch := Some(Fetch(SelectInbound(formats, s.prefs), [], now))), now);
  }

  lemma RemoteDataOnlyFetches(conv: Converters, s: State, data: Option<seq<u8>>, now: int)
    ensures OnlyFetches(s, OnRemoteData(conv, s, data, now))
  {
    var idle := s.(inflight := None);
    NextStepOnlyFetches(idle, now);
    if s.inflight.Some? && s.fetch.Some? {
      var r := DecodeAnswer(conv, s.inflight.value.kind, data);
      if r.Ok? {
        NextStepOnlyFetches(idle.(fetch := Some(s.fetch.value.(items := s.fetch.value.items + [r.value]))), now);
      }
    }
  }

  lemma StepCoherent(conv: Converters, o: Seen, s: State, input: Input, now: int)
    requires Coherent(o, s) && History.Tracks(o.history, s)
    ensures Coherent(Observe(conv, o, s, input, now), Step(conv, s, input, now).s)
  {
    match input {
      case RemoteFormatList(formats) => RemoteListOnlyFetches(s, formats, now);
      case RemoteData(data) => RemoteDataOnlyFetches(conv, s, data, now);
      case LocalChanged(count, contents) => History.OursIsOwn(o.history, s, count, contents);
      case _ =>
    }
  }

  lemma InitialRequestMatches(s: State, now: int, before: Option<(seq<ClipFormat>, Prefs)>)
    ensures var w := OnInitialRequest(s, now); ListMatches(LastList(w.out, w.s.prefs, before), w.s)
  {
    var ready := s.(ready := true);
    AdvertiseMatches(ready, now, before);
    EmptyMatches(ready.(pendingLocal := s.local.Some? && s.prefs != Off, advertised := []), now, before);
  }

  lemma LocalChangeMatches(s: State, count: int, contents: Contents, now: int, before: Option<(seq<ClipFormat>, Prefs)>)
    requires ListMatches(before, s)
    ensures var w := OnLocalChange(s, count, contents, now); ListMatches(LastList(w.out, w.s.prefs, before), w.s)
  {
    var w := OnLocalChange(s, count, contents, now);
    var seen := s.(lastChange := Some(count), local := Some(Snapshot(contents, now)));
    if w.out == [] {
      SilentMatches(s, w, before);
    } else {
      AdvertiseMatches(seen, now, before);
    }
  }

  lemma PrefsMatch(s: State, prefs: Prefs, now: int, before: Option<(seq<ClipFormat>, Prefs)>)
    requires ListMatches(before, s)
    ensures var w := OnPrefs(s, prefs, now); ListMatches(LastList(w.out, w.s.prefs, before), w.s)
  {
    var w := OnPrefs(s, prefs, now);
    var changed := s.(prefs := prefs);
    if w.out == [] {
      SilentMatches(s, w, before);
    } else if prefs == Off {
      EmptyMatches(Supersede(changed).(advertised := []), now, before);
    } else {
      AdvertiseMatches(changed, now, before);
    }
  }

  lemma StepListMatches(conv: Converters, list: Option<(seq<ClipFormat>, Prefs)>, s: State, input: Input, now: int)
    requires ListMatches(list, s)
    ensures var w := Step(conv, s, input, now); ListMatches(LastList(w.out, w.s.prefs, list), w.s)
  {
    match input {
      case InitialFormatListRequested => InitialRequestMatches(s, now, list);
      case RemoteFormatList(formats) =>
        RemoteListOnlyFetches(s, formats, now);
        SilentMatches(s, OnRemoteList(s, formats, now), list);
      case RemoteData(data) =>
        RemoteDataOnlyFetches(conv, s, data, now);
        SilentMatches(s, OnRemoteData(conv, s, data, now), list);
      case LocalChanged(count, contents) => LocalChangeMatches(s, count, contents, now, list);
      case Focus(focused) =>
        if focused && s.pendingLocal {
          AdvertiseMatches(s.(focused := true), now, list);
        }
      case PrefsChanged(prefs) => PrefsMatch(s, prefs, now, list);
      case _ => SilentMatches(s, Step(conv, s, input, now), list);
    }
  }

  ghost function Run(conv: Converters, s: State, inputs: seq<(Input, int)>): (State, Seen) {
    if inputs == [] then
      (s, Seen(false, None, History.NOTHING_YET))
    else
      var (before, o) := Run(conv, s, inputs[..|inputs| - 1]);
      var (input, now) := inputs[|inputs| - 1];
      (Step(conv, before, input, now).s, Observe(conv, o, before, input, now))
  }

  /**
   In every reachable state: ready and focused means no local change is pending; if moreover the
   preference is not Off and the latest local change is not our own write, what is advertised is
   that change filtered under the current preference; and the last list sent offers exactly what is
   advertised.
   */
  lemma {:induction false} EveryRunIsCoherent(conv: Converters, prefs: Prefs, focused: bool, inputs: seq<(Input, int)>)
    ensures var (s, o) := Run(conv, Initial(prefs, focused), inputs);
      Coherent(o, s) && ListMatches(o.list, s) && History.Tracks(o.history, s)
  {
    if inputs == [] {
    } else {
      EveryRunIsCoherent(conv, prefs, focused, inputs[..|inputs| - 1]);
      var (s, o) := Run(conv, Initial(prefs, focused), inputs[..|inputs| - 1]);
      var (input, now) := inputs[|inputs| - 1];
      History.StepTracks(conv, o.history, s, input, now);
      StepCoherent(conv, o, s, input, now);
      StepListMatches(conv, o.list, s, input, now);
    }
  }

  /**
   While the preference is the one the last list was sent under, no format on that list is ever
   answered "unavailable"; under any preference a successful answer is allowed by it.
   */
  lemma ListedFormatsAreAnswered(conv: Converters, prefs: Prefs, focused: bool, inputs: seq<(Input, int)>, id: u32, now: int)
    ensures var (s, o) := Run(conv, Initial(prefs, focused), inputs);
      var out := Step(conv, s, RemoteDataRequest(id), now).out;
      && |out| == 1 && out[0].SendData? && out[0].id == id
      && (o.list.Some? && o.list.value.1 == s.prefs ==>
            (out[0].data == Err(Unavailable(id)) <==> !Lists(o.list.value.0, id)))
      && (out[0].data.Ok? ==> exists item :: item in s.advertised && ItemKind(item).AllowedBy(s.prefs)
                                             && AnswersFrom(conv, id, item, out[0].data.value))
  {
    EveryRunIsCoherent(conv, prefs, focused, inputs);
    var (s, o) := Run(conv, Initial(prefs, focused), inputs);
    AnswersMatchTheList(conv, id, s.advertised, s.prefs);
  }

  /**
   Nothing is advertised before the initial request: not quite. In a state that is not ready, a list
   goes out exactly on that request, or on gaining focus while a local change is pending.
   */
  lemma ListsBeforeReady(conv: Converters, s: State, input: Input, now: int)
    requires !s.ready
    ensures !NoList(Step(conv, s, input, now).out)
      <==> input == InitialFormatListRequested || (input == Focus(true) && s.pendingLocal)
  {
    var w := Step(conv, s, input, now);
    if input == InitialFormatListRequested || (input == Focus(true) && s.pendingLocal) {
      assert w.out[|w.out| - 1].SendFormatList? && w.out[|w.out| - 1] in w.out;
    } else if input.RemoteFormatList? {
      RemoteListOnlyFetches(s, input.formats, now);
    } else if input.RemoteData? {
      RemoteDataOnlyFetches(conv, s, input.data, now);
    }
  }

  /** And such a state is reachable: text copied while unfocused, then focus, with no request yet. */
  lemma AdvertisesUnasked(conv: Converters)
    ensures var inputs := [(LocalChanged(1, [TextItem("x")]), 0)];
      var s := Run(conv, Initial(TextOnly, false), inputs).0;
      && !s.ready
      && Step(conv, s, Focus(true), 1).out == [SendFormatList([ClipFormat(CF_UNICODETEXT, None)])]
  {
    var items: Contents := [TextItem("x")];
    var start := Initial(TextOnly, false);
    var inputs: seq<(Input, int)> := [(LocalChanged(1, items), 0)];
    assert inputs[..0] == [] && Run(conv, start, []).0 == start;
    var s := Run(conv, start, inputs).0;
    assert s == OnLocalChange(start, 1, items, 0).s;
    assert items[..0] == [] && "x"[1..] == "";
    assert Utf8Length("x") == 1;
    assert Kept(items[0], TextOnly);
    assert Filter(items, TextOnly) == items;
    assert Oversized(items, TextOnly) == [];
    assert Outbound(items, TextOnly) == [ClipFormat(CF_UNICODETEXT, None)];
  }
}
