/**
 Remote fetches over whole runs. CLIPRDR responses carry no format id, so everything rests on one
 request being in flight at a time. An observer of the wire keeps, beside the code, which accepted
 remote list the outstanding request belongs to and what was answered for the latest list.
 */
module ClipboardFetch {
  import opened Prelude
  import opened ClipboardFormats
  import opened ClipboardSpec

  /** A remote list that became the clipboard: what it made us want, and when. */
  datatype Accepted = Accepted(wanted: seq<Wanted>, at: int)

  datatype Answer = Answer(format: ClipFormat, result: Result<Item, ClipError>)

  /** `asked` is the outstanding request: the number of its list, and its format. */
  datatype Wire = Wire(
    lists: seq<Accepted>,
    asked: Option<(nat, ClipFormat)>,
    answers: seq<Answer>,
    outstanding: int)

  const SILENT: Wire := Wire([], None, [], 0)

  function Requests(out: seq<Action>): seq<ClipFormat> {
    if out == [] then
      []
    else
      Requests(out[..|out| - 1]) + match out[|out| - 1] case RequestRemoteData(f) => [f] case _ => []
  }

  /** The answer belongs to the latest accepted list. */
  predicate ForLatest(wire: Wire) {
    wire.asked.Some? && wire.asked.value.0 + 1 == |wire.lists|
  }

  /** The answers to the latest list once the outstanding request is answered. */
  ghost function AnswersAfter(conv: Converters, wire: Wire, data: Option<seq<u8>>): seq<Answer> {
    if !ForLatest(wire) then
      wire.answers
    else
      var format := wire.asked.value.1;
      var result := match format.Kind() case Some(k) => DecodeAnswer(conv, k, data) case None => Err(RemoteError);
      wire.answers + [Answer(format, result)]
  }

  ghost function Watch(conv: Converters, wire: Wire, s: State, input: Input, now: int): Wire {
    var w := Step(conv, s, input, now);
    var sent := Requests(w.out);
    var accepted := input.RemoteFormatList? && Accepts(s, input.formats, now);
    var lists := if accepted then wire.lists + [Accepted(SelectInbound(input.formats, s.prefs), now)] else wire.lists;
    var answers :=
      if accepted then []
      else if input.RemoteData? then AnswersAfter(conv, wire, input.data)
      else wire.answers;
    Wire(lists,
         if sent != [] then Some((Max(|lists| - 1, 0), sent[0])) else if input.RemoteData? then None else wire.asked,
         answers,
         wire.outstanding + |sent| - if input.RemoteData? then 1 else 0)
  }

  /** A step of a run without a fetch timeout and with one response per request. */
  predicate Orderly(wire: Wire, s: State, input: Input, now: int) {
    && (input.RemoteData? ==> wire.outstanding > 0)
    && (input.Tick? ==> !TimedOut(s, now))
  }

  /** The items decoded from the successful answers, in order. */
  function Items(answers: seq<Answer>): Contents {
    if answers == [] then
      []
    else
      Items(answers[..|answers| - 1]) + match answers[|answers| - 1].result case Ok(item) => [item] case Err(_) => []
  }

  ghost predicate AnswersFor(answers: seq<Answer>, wanted: seq<Wanted>) {
    |answers| <= |wanted| && forall i :: 0 <= i < |answers| ==> answers[i].format == wanted[i].0
  }

  /** Every wanted format is of the kind it is wanted as. */
  ghost predicate Kinded(wanted: seq<Wanted>) {
    forall i :: 0 <= i < |wanted| ==> wanted[i].0.Kind() == Some(wanted[i].1)
  }

  ghost predicate Listed(wire: Wire) {
    && (forall i :: 0 <= i < |wire.lists| ==> Kinded(wire.lists[i].wanted))
    && (wire.asked.Some? ==> wire.asked.value.0 < |wire.lists|)
    && (wire.answers != [] ==> |wire.lists| > 0)
  }

  /** The code's in-flight record is exactly the outstanding request. */
  ghost predicate Paired(wire: Wire, s: State) {
    && wire.outstanding == (if s.inflight.Some? then 1 else 0)
    && (wire.asked.Some? <==> s.inflight.Some?)
    && (s.inflight.Some? ==> wire.asked.value.1.Kind() == Some(s.inflight.value.kind))
  }

  /** A pending fetch has a request in flight, and is exactly as far as the answers say. */
  ghost predicate OnTrack(wire: Wire, s: State) {
    match s.fetch
    case None => s.inflight.Some? ==> s.inflight.value.stale
    case Some(f) =>
      && |wire.lists| > 0 && s.inflight.Some? && wire.asked.Some?
      && var latest := wire.lists[|wire.lists| - 1];
      && f.announced == latest.at
      && AnswersFor(wire.answers, latest.wanted)
      && f.items == Items(wire.answers)
      && if s.inflight.value.stale then
           wire.answers == [] && f.queue == latest.wanted && !ForLatest(wire)
         else
           && ForLatest(wire) && |wire.answers| < |latest.wanted|
           && wire.asked.value.1 == latest.wanted[|wire.answers|].0
           && f.queue == latest.wanted[|wire.answers| + 1..]
  }

  ghost predicate Inv(wire: Wire, s: State) {
    Listed(wire) && Paired(wire, s) && OnTrack(wire, s)
  }

  /** What a pasteboard write is made of. */
  ghost predicate WriteIsLatest(wire: Wire, s: State, contents: Contents) {
    && |wire.lists| > 0
    && var latest := wire.lists[|wire.lists| - 1];
    && |wire.answers| == |latest.wanted| && AnswersFor(wire.answers, latest.wanted)
    && contents == Items(wire.answers) && contents != []
    && (s.local.Some? ==> s.local.value.at <= latest.at)
  }

  ghost predicate WritesAreLatest(wire: Wire, w: Work) {
    forall a <- w.out :: a.WritePasteboard? ==> WriteIsLatest(wire, w.s, a.contents)
  }

  lemma RequestsOfNone(out: seq<Action>)
    requires forall a <- out :: !a.RequestRemoteData?
    ensures Requests(out) == []
  {
    if out != [] {
      assert out[|out| - 1] in out;
      assert forall a <- out[..|out| - 1] :: a in out;
      RequestsOfNone(out[..|out| - 1]);
    }
  }

  lemma RequestsAppend(out: seq<Action>, a: Action)
    ensures Requests(out + [a]) == Requests(out) + match a case RequestRemoteData(f) => [f] case _ => []
  {
    assert (out + [a])[..|out|] == out;
  }

  predicate Calm(out: seq<Action>) {
    forall a <- out :: !a.RequestRemoteData? && !a.WritePasteboard?
  }

  lemma QuietOut(conv: Converters, s: State, input: Input, now: int)
    requires !input.RemoteFormatList? && !input.RemoteData?
    ensures Calm(Step(conv, s, input, now).out)
  {
    match input {
      case InitialFormatListRequested => assert Calm(Advertise(s.(ready := true), now).out);
      case LocalChanged(count, contents) =>
        assert Calm(Advertise(s.(lastChange := Some(count), local := Some(Snapshot(contents, now))), now).out);
      case Focus(focused) => assert Calm(Advertise(s.(focused := true), now).out);
      case PrefsChanged(prefs) => assert Calm(Advertise(s.(prefs := prefs), now).out);
      case _ =>
    }
  }

  /** Steps that neither ask, accept nor answer leave the wire as it is. */
  lemma QuietStep(conv: Converters, wire: Wire, s: State, input: Input, now: int)
    requires !input.RemoteFormatList? && !input.RemoteData?
    ensures Watch(conv, wire, s, input, now) == wire
    ensures Calm(Step(conv, s, input, now).out)
  {
    QuietOut(conv, s, input, now);
    RequestsOfNone(Step(conv, s, input, now).out);
  }

  /** Such steps leave the fetch and its request alone, or give up the fetch and mark its request stale. */
  lemma QuietFetch(conv: Converters, s: State, input: Input, now: int)
    requires !input.RemoteFormatList? && !input.RemoteData? && !(input.Tick? && TimedOut(s, now))
    ensures var s' := Step(conv, s, input, now).s;
      || (s'.fetch == s.fetch && s'.inflight == s.inflight)
      || (s'.fetch == None && s'.inflight == Supersede(s).inflight)
  {
    match input {
      case InitialFormatListRequested => AdvertiseSupersedes(s.(ready := true), now);
      case LocalChanged(count, contents) =>
        AdvertiseSupersedes(s.(lastChange := Some(count), local := Some(Snapshot(contents, now))), now);
      case Focus(_) => AdvertiseSupersedes(s.(focused := true), now);
      case PrefsChanged(prefs) => AdvertiseSupersedes(s.(prefs := prefs), now);
      case _ =>
    }
  }

  lemma AdvertiseSupersedes(s: State, now: int)
    ensures Advertise(s, now).s.fetch == None && Advertise(s, now).s.inflight == Supersede(s).inflight
  {
  }

  lemma SupersedeKeeps(wire: Wire, s: State, s': State)
    requires Inv(wire, s)
    requires || (s'.fetch == s.fetch && s'.inflight == s.inflight)
             || (s'.fetch == None && s'.inflight == Supersede(s).inflight)
    ensures Inv(wire, s')
  {
  }

  lemma QuietKeeps(conv: Converters, wire: Wire, s: State, input: Input, now: int)
    requires Inv(wire, s) && Orderly(wire, s, input, now)
    requires !input.RemoteFormatList? && !input.RemoteData?
    ensures Inv(wire, Step(conv, s, input, now).s)
  {
    QuietFetch(conv, s, input, now);
    SupersedeKeeps(wire, s, Step(conv, s, input, now).s);
  }

  // ----- steps that fetch -------------------------------------------------------------------

  lemma SelectKinded(formats: seq<ClipFormat>, prefs: Prefs)
    ensures Kinded(SelectInbound(formats, prefs))
  {
    SelectMeaning(formats, prefs);
  }

  /** The wire after the code, with nothing in flight, took the next fetch step. */
  ghost function AfterNext(wire: Wire, w: Work): Wire {
    var sent := Requests(w.out);
    wire.(asked := if sent != [] then Some((Max(|wire.lists| - 1, 0), sent[0])) else None, outstanding := |sent|)
  }

  /** Nothing in flight, and the fetch, if any, stands right behind the answers. */
  ghost predicate Between(wire: Wire, s: State) {
    && Listed(wire) && s.inflight.None?
    && (s.fetch.Some? ==>
          && |wire.lists| > 0
          && var latest := wire.lists[|wire.lists| - 1];
          && s.fetch.value.announced == latest.at
          && AnswersFor(wire.answers, latest.wanted)
          && s.fetch.value.items == Items(wire.answers)
          && s.fetch.value.queue == latest.wanted[|wire.answers|..])
  }

  lemma NextAsks(wire: Wire, s: State, now: int)
    requires Between(wire, s) && s.fetch.Some? && s.fetch.value.queue != []
    ensures var w := NextFetchStep(s, now);
      Inv(AfterNext(wire, w), w.s) && WritesAreLatest(AfterNext(wire, w), w)
  {
    var w, f := NextFetchStep(s, now), s.fetch.value;
    var latest := wire.lists[|wire.lists| - 1];
    RequestsAppend([], RequestRemoteData(f.queue[0].0));
    assert [] + w.out == w.out;
    assert f.queue[0] == latest.wanted[|wire.answers|];
    assert f.queue[1..] == latest.wanted[|wire.answers| + 1..];
  }

  lemma NextStepKeeps(wire: Wire, s: State, now: int)
    requires Between(wire, s)
    ensures var w := NextFetchStep(s, now);
      Inv(AfterNext(wire, w), w.s) && WritesAreLatest(AfterNext(wire, w), w)
  {
    if s.fetch.Some? && s.fetch.value.queue != [] {
      NextAsks(wire, s, now);
    } else {
      RequestsOfNone(NextFetchStep(s, now).out);
    }
  }

  lemma RemoteListKeeps(conv: Converters, wire: Wire, s: State, formats: seq<ClipFormat>, now: int)
    requires Inv(wire, s)
    ensures var w := Step(conv, s, RemoteFormatList(formats), now);
      var wire' := Watch(conv, wire, s, RemoteFormatList(formats), now);
      Inv(wire', w.s) && WritesAreLatest(wire', w)
  {
    var w := OnRemoteList(s, formats, now);
    var wire' := Watch(conv, wire, s, RemoteFormatList(formats), now);
    if Accepts(s, formats, now) {
      var queue := SelectInbound(formats, s.prefs);
      SelectKinded(formats, s.prefs);
      var listed := wire.(lists := wire.lists + [Accepted(queue, now)], answers := []);
      assert Listed(listed);
      if queue != [] && s.inflight.None? {
        var waiting := Supersede(s).(fetch := Some(Fetch(queue, [], now)));
        assert queue[0..] == queue;
        NextStepKeeps(listed, waiting, now);
        assert wire' == AfterNext(listed, w);
      } else {
        RequestsOfNone(w.out);
      }
    } else {
      RequestsOfNone(w.out);
    }
  }

  lemma ItemsAppend(answers: seq<Answer>, a: Answer)
    ensures Items(answers + [a]) == Items(answers) + match a.result case Ok(item) => [item] case Err(_) => []
  {
    assert (answers + [a])[..|answers|] == answers;
  }

  /** The state between receiving the answer and the next fetch step. */
  ghost function Received(conv: Converters, s: State, data: Option<seq<u8>>): State
    requires s.inflight.Some?
  {
    var idle := s.(inflight := None);
    if s.inflight.value.stale || s.fetch.None? then
      idle
    else
      match DecodeAnswer(conv, s.inflight.value.kind, data)
      case Ok(item) => idle.(fetch := Some(s.fetch.value.(items := s.fetch.value.items + [item])))
      case Err(_) => idle
  }

  lemma RemoteDataIsNextStep(conv: Converters, s: State, data: Option<seq<u8>>, now: int)
    requires s.inflight.Some?
    ensures var w, next := OnRemoteData(conv, s, data, now), NextFetchStep(Received(conv, s, data), now);
      && w.s == next.s && Requests(w.out) == Requests(next.out)
      && (forall a <- w.out :: a.WritePasteboard? ==> a in next.out)
  {
    var w, next := OnRemoteData(conv, s, data, now), NextFetchStep(Received(conv, s, data), now);
    if w.out != next.out {
      var e := w.out[0];
      assert w.out == [e] + next.out;
      if next.out == [] {
        RequestsOfNone(w.out);
      } else {
        assert next.out == [next.out[0]] && next.out[..0] == [];
        assert w.out[..1] == [e];
        RequestsOfNone([e]);
      }
    }
  }

  lemma AskedNeedsFetch(conv: Converters, wire: Wire, s: State, data: Option<seq<u8>>, now: int)
    requires Inv(wire, s) && s.inflight.Some?
    ensures Requests(OnRemoteData(conv, s, data, now).out) != [] ==> |wire.lists| > 0
  {
    RemoteDataIsNextStep(conv, s, data, now);
    if s.fetch.None? {
      RequestsOfNone(NextFetchStep(Received(conv, s, data), now).out);
    }
  }

  lemma ReceivedListed(conv: Converters, wire: Wire, s: State, data: Option<seq<u8>>, now: int)
    requires Inv(wire, s) && s.inflight.Some?
    ensures var wire' := Watch(conv, wire, s, RemoteData(data), now);
      Listed(wire') && wire'.lists == wire.lists && wire'.answers == AnswersAfter(conv, wire, data)
  {
    AskedNeedsFetch(conv, wire, s, data, now);
  }

  lemma ReceivedOnTrack(conv: Converters, wire: Wire, s: State, data: Option<seq<u8>>)
    requires Inv(wire, s) && s.inflight.Some? && s.fetch.Some?
    ensures var latest, answers, f := wire.lists[|wire.lists| - 1], AnswersAfter(conv, wire, data), Received(conv, s, data).fetch;
      && f.Some? && f.value.announced == latest.at
      && AnswersFor(answers, latest.wanted)
      && f.value.items == Items(answers)
      && f.value.queue == latest.wanted[|answers|..]
  {
    var latest := wire.lists[|wire.lists| - 1];
    if s.inflight.value.stale {
      assert latest.wanted[0..] == latest.wanted;
    } else {
      var format := wire.asked.value.1;
      var a := Answer(format, DecodeAnswer(conv, s.inflight.value.kind, data));
      assert AnswersAfter(conv, wire, data) == wire.answers + [a];
      ItemsAppend(wire.answers, a);
      assert Items(wire.answers) + [] == Items(wire.answers);
    }
  }

  lemma ReceivedIdle(conv: Converters, s: State, data: Option<seq<u8>>)
    requires s.inflight.Some?
    ensures Received(conv, s, data).inflight.None?
    ensures Received(conv, s, data).fetch.Some? <==> s.fetch.Some?
  {
  }

  lemma BetweenFrom(wire: Wire, s: State, answers: seq<Answer>)
    requires Listed(wire) && s.inflight.None? && wire.answers == answers
    requires s.fetch.Some? ==>
               && |wire.lists| > 0
               && var latest := wire.lists[|wire.lists| - 1];
               && s.fetch.value.announced == latest.at && AnswersFor(answers, latest.wanted)
               && s.fetch.value.items == Items(answers) && s.fetch.value.queue == latest.wanted[|answers|..]
    ensures Between(wire, s)
  {
  }

  lemma ReceivedBetween(conv: Converters, wire: Wire, s: State, data: Option<seq<u8>>, now: int)
    requires Inv(wire, s) && s.inflight.Some?
    ensures Between(Watch(conv, wire, s, RemoteData(data), now), Received(conv, s, data))
  {
    ReceivedListed(conv, wire, s, data, now);
    ReceivedIdle(conv, s, data);
    if s.fetch.Some? {
      ReceivedOnTrack(conv, wire, s, data);
    }
    BetweenFrom(Watch(conv, wire, s, RemoteData(data), now), Received(conv, s, data), AnswersAfter(conv, wire, data));
  }

  lemma WatchedData(conv: Converters, wire: Wire, s: State, data: Option<seq<u8>>, now: int)
    requires Inv(wire, s) && wire.outstanding > 0
    ensures var wire' := Watch(conv, wire, s, RemoteData(data), now);
      wire' == AfterNext(wire', NextFetchStep(Received(conv, s, data), now))
  {
    RemoteDataIsNextStep(conv, s, data, now);
    RequestsAreFew(Received(conv, s, data), now);
  }

  lemma RequestsAreFew(s: State, now: int)
    ensures |Requests(NextFetchStep(s, now).out)| <= 1
  {
    var out := NextFetchStep(s, now).out;
    if out != [] {
      assert out[..|out| - 1] == [];
    }
  }

  lemma InvIsOfFetch(wire: Wire, w: Work, next: Work)
    requires Inv(wire, next.s) && WritesAreLatest(wire, next) && w.s == next.s
    requires forall a <- w.out :: a.WritePasteboard? ==> a in next.out
    ensures Inv(wire, w.s) && WritesAreLatest(wire, w)
  {
  }

  lemma RemoteDataKeeps(conv: Converters, wire: Wire, s: State, data: Option<seq<u8>>, now: int)
    requires Inv(wire, s) && wire.outstanding > 0
    ensures var w := Step(conv, s, RemoteData(data), now);
      var wire' := Watch(conv, wire, s, RemoteData(data), now);
      Inv(wire', w.s) && WritesAreLatest(wire', w)
  {
    var wire' := Watch(conv, wire, s, RemoteData(data), now);
    var next := NextFetchStep(Received(conv, s, data), now);
    RemoteDataIsNextStep(conv, s, data, now);
    ReceivedBetween(conv, wire, s, data, now);
    NextStepKeeps(wire', Received(conv, s, data), now);
    WatchedData(conv, wire, s, data, now);
    InvIsOfFetch(wire', Step(conv, s, RemoteData(data), now), next);
  }

  /** What the state does next once `answers` are in: ask for the next wanted format, write, or end. */
  ghost function NextActions(answers: seq<Answer>, latest: Accepted, local: Option<Snapshot>): seq<Action> {
    if |answers| < |latest.wanted| then
      [RequestRemoteData(latest.wanted[|answers|].0)]
    else if Items(answers) != [] && (local.Some? ==> local.value.at <= latest.at) then
      [WritePasteboard(Items(answers))]
    else
      []
  }

  lemma NextStepActs(wire: Wire, s: State, now: int)
    requires Between(wire, s) && s.fetch.Some?
    ensures NextFetchStep(s, now).out == NextActions(wire.answers, wire.lists[|wire.lists| - 1], s.local)
  {
    var latest := wire.lists[|wire.lists| - 1];
    if |wire.answers| < |latest.wanted| {
      assert s.fetch.value.queue[0] == latest.wanted[|wire.answers|];
    }
  }

  lemma ReportsFailure(conv: Converters, s: State, data: Option<seq<u8>>, now: int)
    requires s.inflight.Some? && s.fetch.Some?
    ensures var r := DecodeAnswer(conv, s.inflight.value.kind, data);
      OnRemoteData(conv, s, data, now).out
        == (if !s.inflight.value.stale && r.Err? then [Rejected(r.error)] else [])
           + NextFetchStep(Received(conv, s, data), now).out
  {
    var next := NextFetchStep(Received(conv, s, data), now).out;
    assert [] + next == next;
  }

  /** The failure, if the last answer is one. */
  ghost function Failure(answers: seq<Answer>): seq<Action> {
    if answers != [] && answers[|answers| - 1].result.Err? then [Rejected(answers[|answers| - 1].result.error)] else []
  }

  lemma FailureIsReported(conv: Converters, wire: Wire, s: State, data: Option<seq<u8>>)
    requires Inv(wire, s) && s.inflight.Some? && s.fetch.Some?
    ensures var r := DecodeAnswer(conv, s.inflight.value.kind, data);
      (if ForLatest(wire) then Failure(AnswersAfter(conv, wire, data)) else [])
        == if !s.inflight.value.stale && r.Err? then [Rejected(r.error)] else []
  {
  }

  lemma ActsOnResponse(conv: Converters, wire: Wire, s: State, data: Option<seq<u8>>, now: int)
    requires Inv(wire, s) && s.inflight.Some? && s.fetch.Some?
    ensures NextFetchStep(Received(conv, s, data), now).out
         == NextActions(AnswersAfter(conv, wire, data), wire.lists[|wire.lists| - 1], s.local)
  {
    var wire' := Watch(conv, wire, s, RemoteData(data), now);
    ReceivedListed(conv, wire, s, data, now);
    ReceivedIdle(conv, s, data);
    ReceivedBetween(conv, wire, s, data, now);
    NextStepActs(wire', Received(conv, s, data), now);
  }

  /**
   Every response while a fetch is pending moves it on: a failed answer is reported, and then the next
   wanted format is asked for; after the last one the decoded items are written, unless there are none
   or a newer local change came in between.
   */
  lemma ResponseMovesOn(conv: Converters, wire: Wire, s: State, data: Option<seq<u8>>, now: int)
    requires Inv(wire, s) && s.inflight.Some? && s.fetch.Some?
    ensures var answers := AnswersAfter(conv, wire, data);
      Step(conv, s, RemoteData(data), now).out
        == (if ForLatest(wire) then Failure(answers) else []) + NextActions(answers, wire.lists[|wire.lists| - 1], s.local)
  {
    ActsOnResponse(conv, wire, s, data, now);
    FailureIsReported(conv, wire, s, data);
    ReportsFailure(conv, s, data, now);
  }

  lemma StepKeeps(conv: Converters, wire: Wire, s: State, input: Input, now: int)
    requires Inv(wire, s) && Orderly(wire, s, input, now)
    ensures var w, wire' := Step(conv, s, input, now), Watch(conv, wire, s, input, now);
      Inv(wire', w.s) && WritesAreLatest(wire', w)
  {
    match input {
      case RemoteFormatList(formats) => RemoteListKeeps(conv, wire, s, formats, now);
      case RemoteData(data) => RemoteDataKeeps(conv, wire, s, data, now);
      case _ =>
        QuietStep(conv, wire, s, input, now);
        QuietKeeps(conv, wire, s, input, now);
    }
  }

  // ----- runs -------------------------------------------------------------------------------

  ghost function Run(conv: Converters, s: State, inputs: seq<(Input, int)>): (State, Wire) {
    if inputs == [] then
      (s, SILENT)
    else
      var (before, wire) := Run(conv, s, inputs[..|inputs| - 1]);
      var (input, now) := inputs[|inputs| - 1];
      (Step(conv, before, input, now).s, Watch(conv, wire, before, input, now))
  }

  /** No fetch timeout, and one response per request. */
  ghost predicate OrderlyRun(conv: Converters, s: State, inputs: seq<(Input, int)>) {
    inputs == [] ||
      (var (before, wire) := Run(conv, s, inputs[..|inputs| - 1]);
       && OrderlyRun(conv, s, inputs[..|inputs| - 1])
       && Orderly(wire, before, inputs[|inputs| - 1].0, inputs[|inputs| - 1].1))
  }

  /**
   In every orderly run at most one request is outstanding and it is the one the code believes is in
   flight, and a pending fetch always has a request in flight.
   */
  lemma {:induction false} OneRequestInFlight(conv: Converters, prefs: Prefs, focused: bool, inputs: seq<(Input, int)>)
    requires OrderlyRun(conv, Initial(prefs, focused), inputs)
    ensures var (s, wire) := Run(conv, Initial(prefs, focused), inputs);
      && Inv(wire, s)
      && 0 <= wire.outstanding <= 1
      && (s.fetch.Some? ==> wire.outstanding == 1)
  {
    if inputs == [] {
    } else {
      var init := inputs[..|inputs| - 1];
      OneRequestInFlight(conv, prefs, focused, init);
      var (s, wire) := Run(conv, Initial(prefs, focused), init);
      StepKeeps(conv, wire, s, inputs[|inputs| - 1].0, inputs[|inputs| - 1].1);
    }
  }

  /**
   In every orderly run a pasteboard write holds exactly the successfully decoded answers to the
   latest accepted list, one per wanted format and in that order, and never overrides a local
   snapshot stamped after the list was announced.
   */
  lemma WritesHoldTheLatestList(conv: Converters, prefs: Prefs, focused: bool, inputs: seq<(Input, int)>, input: Input, now: int)
    requires OrderlyRun(conv, Initial(prefs, focused), inputs)
    requires var (s, wire) := Run(conv, Initial(prefs, focused), inputs); Orderly(wire, s, input, now)
    ensures var (s, wire) := Run(conv, Initial(prefs, focused), inputs);
      WritesAreLatest(Watch(conv, wire, s, input, now), Step(conv, s, input, now))
  {
    OneRequestInFlight(conv, prefs, focused, inputs);
    var (s, wire) := Run(conv, Initial(prefs, focused), inputs);
    StepKeeps(conv, wire, s, input, now);
  }

  /** The in-flight record survives a step exactly when the step is not a timeout. */
  lemma OnlyTimeoutsUnpair(conv: Converters, wire: Wire, s: State, input: Input, now: int)
    requires Inv(wire, s) && (input.RemoteData? ==> wire.outstanding > 0)
    ensures Paired(Watch(conv, wire, s, input, now), Step(conv, s, input, now).s)
      <==> !(input.Tick? && TimedOut(s, now))
  {
    if input.Tick? && TimedOut(s, now) {
      QuietStep(conv, wire, s, input, now);
    } else {
      StepKeeps(conv, wire, s, input, now);
    }
  }

  lemma RunNext(conv: Converters, s: State, inputs: seq<(Input, int)>, input: Input, now: int)
    ensures var (before, wire) := Run(conv, s, inputs);
      Run(conv, s, inputs + [(input, now)]) == (Step(conv, before, input, now).s, Watch(conv, wire, before, input, now))
  {
    assert (inputs + [(input, now)])[..|inputs|] == inputs;
  }

  const TEXT_FORMAT: ClipFormat := ClipFormat(CF_UNICODETEXT, None)
  const TIFF_FORMAT: ClipFormat := ClipFormat(CF_TIFF, None)

  lemma SelectSingle(f: ClipFormat, kind: FormatKind)
    requires f.Kind() == Some(kind) && (kind.UnicodeText? || kind.Tiff?)
    ensures SelectInbound([f], TextAndImages) == [(f, kind)]
  {
    FindKindOne(f, UnicodeText);
    FindKindOne(f, AnsiText);
    FindKindOne(f, Png);
    FindKindOne(f, Tiff);
    assert TEXT_PREFERENCE[1..] == [AnsiText] && IMAGE_PREFERENCE[1..] == [Tiff, Dib];
    if kind == Tiff {
      assert FirstOffered([f], [AnsiText], TextAndImages) == FirstOffered([f], [AnsiText][1..], TextAndImages);
      assert FirstOffered([f], [Tiff, Dib], TextAndImages) == [(f, Tiff)];
    } else {
      FindKindOne(f, Dib);
      assert [Tiff, Dib][1..] == [Dib];
      assert FirstOffered([f], [Dib], TextAndImages) == FirstOffered([f], [Dib][1..], TextAndImages);
      assert FirstOffered([f], [Tiff, Dib], TextAndImages) == FirstOffered([f], [Dib], TextAndImages);
    }
  }

  lemma FindKindOne(f: ClipFormat, kind: FormatKind)
    ensures FindKind([f], kind) == if f.Kind() == Some(kind) then Some(f) else None
  {
    assert [f][1..] == [];
  }

  lemma AcceptedAsks(s: State, formats: seq<ClipFormat>, want: Wanted, now: int)
    requires Accepts(s, formats, now) && s.inflight.None? && SelectInbound(formats, s.prefs) == [want]
    ensures OnRemoteList(s, formats, now)
         == Work(s.(fetch := Some(Fetch([], [], now)), inflight := Some(Inflight(want.1, now, false))), [RequestRemoteData(want.0)])
  {
    assert [want][1..] == [];
  }

  /** A fresh list accepted with nothing in flight asks for its one format. */
  lemma AsksAtOnce(conv: Converters, wire: Wire, s: State, f: ClipFormat, kind: FormatKind, now: int)
    requires CanSync(s) && s.prefs == TextAndImages && s.inflight.None?
    requires s.lastSent.None? || now - s.lastSent.value.1 > ECHO_WINDOW
    requires f.Kind() == Some(kind) && (kind.UnicodeText? || kind.Tiff?)
    ensures Step(conv, s, RemoteFormatList([f]), now)
         == Work(s.(fetch := Some(Fetch([], [], now)), inflight := Some(Inflight(kind, now, false))), [RequestRemoteData(f)])
    ensures Watch(conv, wire, s, RemoteFormatList([f]), now).outstanding == wire.outstanding + 1
  {
    SelectSingle(f, kind);
    assert !IsEcho(s, [f], now);
    AcceptedAsks(s, [f], (f, kind), now);
    var out := [RequestRemoteData(f)];
    assert Requests(out) == [f] by {
      RequestsAppend([], RequestRemoteData(f));
      assert [] + out == out;
    }
  }

  const ASK_TEXT: seq<(Input, int)> := [(InitialFormatListRequested, 0), (RemoteFormatList([TEXT_FORMAT]), 10_000)]

  lemma TextAsked(conv: Converters)
    ensures var (s, wire) := Run(conv, Initial(TextAndImages, true), ASK_TEXT);
      && CanSync(s) && s.prefs == TextAndImages && s.local.None? && s.fetch.Some?
      && s.lastSent.Some? && s.lastSent.value.1 == 0
      && s.inflight == Some(Inflight(UnicodeText, 10_000, false)) && wire.outstanding == 1
  {
    var s0 := Initial(TextAndImages, true);
    var first: seq<(Input, int)> := [(InitialFormatListRequested, 0)];
    RunNext(conv, s0, [], InitialFormatListRequested, 0);
    assert [] + first == first;
    QuietStep(conv, SILENT, s0, InitialFormatListRequested, 0);
    var (s1, w1) := Run(conv, s0, first);
    AsksAtOnce(conv, w1, s1, TEXT_FORMAT, UnicodeText, 10_000);
    RunNext(conv, s0, first, RemoteFormatList([TEXT_FORMAT]), 10_000);
    assert first + [(RemoteFormatList([TEXT_FORMAT]), 10_000)] == ASK_TEXT;
  }

  const LATE: seq<(Input, int)> := ASK_TEXT + [(Tick, 15_000)] + [(RemoteFormatList([TIFF_FORMAT]), 16_000)]

  lemma TextGivenUp(conv: Converters)
    ensures var (s, wire) := Run(conv, Initial(TextAndImages, true), ASK_TEXT + [(Tick, 15_000)]);
      && CanSync(s) && s.prefs == TextAndImages && s.local.None? && s.inflight.None?
      && s.lastSent.Some? && s.lastSent.value.1 == 0 && wire.outstanding == 1
  {
    var s0 := Initial(TextAndImages, true);
    TextAsked(conv);
    var (s2, w2) := Run(conv, s0, ASK_TEXT);
    QuietStep(conv, w2, s2, Tick, 15_000);
    RunNext(conv, s0, ASK_TEXT, Tick, 15_000);
  }

  lemma TiffAskedToo(conv: Converters)
    ensures var (s, wire) := Run(conv, Initial(TextAndImages, true), LATE);
      && s.local.None? && s.fetch == Some(Fetch([], [], 16_000))
      && s.inflight == Some(Inflight(Tiff, 16_000, false)) && wire.outstanding == 2
  {
    var s0 := Initial(TextAndImages, true);
    TextGivenUp(conv);
    var (s3, w3) := Run(conv, s0, ASK_TEXT + [(Tick, 15_000)]);
    AsksAtOnce(conv, w3, s3, TIFF_FORMAT, Tiff, 16_000);
    RunNext(conv, s0, ASK_TEXT + [(Tick, 15_000)], RemoteFormatList([TIFF_FORMAT]), 16_000);
  }

  /**
   A run in which a timeout unpairs: text is asked for, the request times out, a TIFF is asked for,
   and the late text answer is then taken for the TIFF.
   */
  lemma LateAnswerIsMistaken(conv: Converters, text: seq<u8>)
    requires |text| <= MAX_CLIPBOARD_BYTES
    ensures var (s, wire) := Run(conv, Initial(TextAndImages, true), LATE);
      && wire.outstanding == 2
      && Step(conv, s, RemoteData(Some(text)), 16_001).out == [WritePasteboard([TiffItem(text)])]
  {
    TiffAskedToo(conv);
    assert DecodeAnswer(conv, Tiff, Some(text)) == Ok(TiffItem(text));
    assert [] + [TiffItem(text)] == [TiffItem(text)];
  }
}
