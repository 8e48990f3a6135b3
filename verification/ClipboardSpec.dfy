/**
 The clipboard protocol of one session as a state machine: what each input does and which actions
 the session must execute. Instants are integers in milliseconds; the clock never runs backwards.
 */
module ClipboardSpec {
  import opened Prelude
  import opened ClipboardFormats

  const FETCH_TIMEOUT: int := 5000
  const ECHO_WINDOW: int := 500
  const OWN_WRITES_KEPT: nat := 8

  datatype Input =
    | InitialFormatListRequested
    | RemoteFormatList(formats: seq<ClipFormat>)
    | RemoteData(data: Option<seq<u8>>)
    | RemoteDataRequest(formatId: u32)
    | LocalChanged(changeCount: int, contents: Contents)
    | LocalWritten(writeCount: int)
    | Focus(focused: bool)
    | PrefsChanged(prefs: Prefs)
    | Tick

  datatype Action =
    | SendFormatList(formats: seq<ClipFormat>)
    | RequestRemoteData(format: ClipFormat)
    | SendData(id: u32, data: Result<seq<u8>, ClipError>)
    | WritePasteboard(contents: Contents)
    | Rejected(error: ClipError)

  type Wanted = (ClipFormat, FormatKind)

  datatype Snapshot = Snapshot(contents: Contents, at: int)

  datatype Fetch = Fetch(queue: seq<Wanted>, items: Contents, announced: int)

  datatype Inflight = Inflight(kind: FormatKind, since: int, stale: bool)

  /** The kinds of an advertisement; the code keeps them sorted, which identifies the multiset. */
  type Kinds = multiset<Option<FormatKind>>

  datatype State = State(
    prefs: Prefs,
    focused: bool,
    ready: bool,
    local: Option<Snapshot>,
    lastChange: Option<int>,
    pendingLocal: bool,
    advertised: Contents,
    lastSent: Option<(Kinds, int)>,
    ownWrites: seq<int>,
    unackedWrite: Option<Contents>,
    fetch: Option<Fetch>,
    inflight: Option<Inflight>)

  datatype Work = Work(s: State, out: seq<Action>)

  function Initial(prefs: Prefs, focused: bool): State {
    State(prefs, focused, false, None, None, false, [], None, [], None, None, None)
  }

  function KindsOf(formats: seq<ClipFormat>): Kinds {
    multiset(seq(|formats|, i requires 0 <= i < |formats| => formats[i].Kind()))
  }

  predicate CanSync(s: State) {
    s.ready && s.focused && s.prefs != Off
  }

  function SendList(s: State, formats: seq<ClipFormat>, now: int): Work {
    Work(s.(lastSent := Some((KindsOf(formats), now))), [SendFormatList(formats)])
  }

  function Supersede(s: State): State {
    s.(fetch := None, inflight := match s.inflight case Some(i) => Some(i.(stale := true)) case None => None)
  }

  function Rejections(errors: seq<ClipError>): seq<Action> {
    seq(|errors|, i requires 0 <= i < |errors| => Rejected(errors[i]))
  }

  function LocalContents(s: State): Contents {
    match s.local case Some(l) => l.contents case None => []
  }

  /** The local contents become what the remote is offered, and any fetch from it is given up. */
  function Advertise(s: State, now: int): Work {
    var kept := Filter(LocalContents(s), s.prefs);
    var sent := SendList(Supersede(s.(advertised := kept, pendingLocal := false)), Outbound(kept, s.prefs), now);
    sent.(out := Rejections(Oversized(LocalContents(s), s.prefs)) + sent.out)
  }

  function OnInitialRequest(s: State, now: int): Work {
    var ready := s.(ready := true);
    if CanSync(ready) && ready.local.Some? then
      Advertise(ready, now)
    else
      SendList(ready.(pendingLocal := s.local.Some? && s.prefs != Off, advertised := []), [], now)
  }

  predicate IsOwn(s: State, changeCount: int, contents: Contents) {
    changeCount in s.ownWrites || s.unackedWrite == Some(contents)
  }

  function OnLocalChange(s: State, changeCount: int, contents: Contents, now: int): Work {
    if s.lastChange == Some(changeCount) then
      Work(s, [])
    else
      var seen := s.(lastChange := Some(changeCount), local := Some(Snapshot(contents, now)));
      if IsOwn(s, changeCount, contents) || s.prefs == Off then Work(seen, [])
      else if !CanSync(seen) then Work(seen.(pendingLocal := true), [])
      else Advertise(seen, now)
  }

  function OnLocalWritten(s: State, count: int): State {
    var writes := s.ownWrites + [count];
    s.(unackedWrite := None, ownWrites := if |writes| > OWN_WRITES_KEPT then writes[1..] else writes)
  }

  function OnPrefs(s: State, prefs: Prefs, now: int): Work {
    if prefs == s.prefs then
      Work(s, [])
    else
      var changed := s.(prefs := prefs);
      if !(s.ready && s.focused) then Work(changed.(pendingLocal := s.local.Some?), [])
      else if prefs == Off then SendList(Supersede(changed).(advertised := []), [], now)
      else if s.local.Some? then Advertise(changed, now)
      else Work(changed, [])
  }

  /** A remote list that only repeats our last advertisement shortly after it was sent. */
  predicate IsEcho(s: State, formats: seq<ClipFormat>, now: int) {
    s.lastSent.Some? && Max(now - s.lastSent.value.1, 0) <= ECHO_WINDOW && s.lastSent.value.0 == KindsOf(formats)
  }

  /** The remote list becomes the clipboard. */
  predicate Accepts(s: State, formats: seq<ClipFormat>, now: int) {
    CanSync(s) && !IsEcho(s, formats, now)
  }

  function OnRemoteList(s: State, formats: seq<ClipFormat>, now: int): Work {
    if !Accepts(s, formats, now) then
      Work(s, [])
    else
      var fresh' := Supersede(s);
      var queue := SelectInbound(formats, s.prefs);
      if queue == [] then
        Work(fresh', [])
      else
        var waiting := fresh'.(fetch := Some(Fetch(queue, [], now)));
        if waiting.inflight.Some? then Work(waiting, []) else NextFetchStep(waiting, now)
  }

  /** One step of a fetch with nothing in flight: ask for the next format, or end with a write. */
  function NextFetchStep(s: State, now: int): Work {
    match s.fetch
    case None => Work(s, [])
    case Some(f) =>
      if f.queue != [] then
        Work(s.(fetch := Some(f.(queue := f.queue[1..])), inflight := Some(Inflight(f.queue[0].1, now, false))),
             [RequestRemoteData(f.queue[0].0)])
      else
        var done := s.(fetch := None);
        if f.items == [] || (s.local.Some? && s.local.value.at > f.announced) then
          Work(done, [])
        else
          Work(done.(unackedWrite := Some(f.items)), [WritePasteboard(f.items)])
  }

  function DecodeAnswer(conv: Converters, kind: FormatKind, data: Option<seq<u8>>): Result<Item, ClipError> {
    match data case None => Err(RemoteError) case Some(d) => DecodeInbound(conv, kind, d)
  }

  function OnRemoteData(conv: Converters, s: State, data: Option<seq<u8>>, now: int): Work {
    match s.inflight
    case None => Work(s, [])
    case Some(i) =>
      var idle := s.(inflight := None);
      if i.stale then
        NextFetchStep(idle, now)
      else
        match DecodeAnswer(conv, i.kind, data)
        case Ok(item) =>
          NextFetchStep(match idle.fetch
                        case Some(f) => idle.(fetch := Some(f.(items := f.items + [item])))
                        case None => idle, now)
        case Err(e) =>
          var next := NextFetchStep(idle, now);
          next.(out := [Rejected(e)] + next.out)
  }

  predicate TimedOut(s: State, now: int) {
    s.inflight.Some? && now - s.inflight.value.since >= FETCH_TIMEOUT
  }

  function Step(conv: Converters, s: State, input: Input, now: int): Work {
    match input
    case InitialFormatListRequested => OnInitialRequest(s, now)
    case RemoteFormatList(formats) => OnRemoteList(s, formats, now)
    case RemoteData(data) => OnRemoteData(conv, s, data, now)
    case RemoteDataRequest(id) => Work(s, [SendData(id, EncodeOutbound(conv, id, s.advertised, s.prefs))])
    case LocalChanged(count, contents) => OnLocalChange(s, count, contents, now)
    case LocalWritten(count) => Work(OnLocalWritten(s, count), [])
    case Focus(focused) =>
      if focused && s.pendingLocal then Advertise(s.(focused := true), now) else Work(s.(focused := focused), [])
    case PrefsChanged(prefs) => OnPrefs(s, prefs, now)
    case Tick => Work(if TimedOut(s, now) then s.(inflight := None, fetch := None) else s, [])
  }
}
