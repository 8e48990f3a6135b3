/** The clipboard state of one session, updated in place, refined to `ClipboardSpec.Step`. */
module ClipboardSync {
  import opened Prelude
  import opened ClipboardFormats
  import opened ClipboardSpec

  class Sync {
    const conv: Converters
    var prefs: Prefs
    var focused: bool
    var ready: bool
    var local: Option<Snapshot>
    var lastChange: Option<int>
    var pendingLocal: bool
    var advertised: Contents
    var lastSent: Option<(Kinds, int)>
    var ownWrites: seq<int>
    var unackedWrite: Option<Contents>
    var fetch: Option<Fetch>
    var inflight: Option<Inflight>

    function Value(): State
      reads this
    {
      State(prefs, focused, ready, local, lastChange, pendingLocal, advertised, lastSent, ownWrites,
            unackedWrite, fetch, inflight)
    }

    constructor (conv: Converters, prefs: Prefs, focused: bool)
      ensures Value() == Initial(prefs, focused) && this.conv == conv
    {
      this.conv := conv;
      this.prefs, this.focused, ready := prefs, focused, false;
      local, lastChange, pendingLocal := None, None, false;
      advertised, lastSent := [], None;
      ownWrites, unackedWrite := [], None;
      fetch, inflight := None, None;
    }

    method Send(formats: seq<ClipFormat>, now: int) returns (out: seq<Action>)
      modifies this
      ensures Work(Value(), out) == SendList(old(Value()), formats, now)
    {
      lastSent := Some((KindsOf(formats), now));
      out := [SendFormatList(formats)];
    }

    method SupersedeFetch()
      modifies this
      ensures Value() == Supersede(old(Value()))
    {
      fetch := None;
      if inflight.Some? {
        inflight := Some(inflight.value.(stale := true));
      }
    }

    method AdvertiseLocal(now: int) returns (out: seq<Action>)
      modifies this
      ensures Work(Value(), out) == Advertise(old(Value()), now)
    {
      var contents := if local.Some? then local.value.contents else [];
      var kept, rejected := FilterLocal(contents, prefs);
      var formats := Outbound(kept, prefs);
      advertised := kept;
      pendingLocal := false;
      SupersedeFetch();
      var sent := Send(formats, now);
      out := Rejections(rejected) + sent;
    }

    method InitialRequest(now: int) returns (out: seq<Action>)
      modifies this
      ensures Work(Value(), out) == OnInitialRequest(old(Value()), now)
    {
      ready := true;
      if CanSync(Value()) && local.Some? {
        out := AdvertiseLocal(now);
        return;
      }
      pendingLocal := local.Some? && prefs != Off;
      advertised := [];
      out := Send([], now);
    }

    method LocalChange(changeCount: int, contents: Contents, now: int) returns (out: seq<Action>)
      modifies this
      ensures Work(Value(), out) == OnLocalChange(old(Value()), changeCount, contents, now)
    {
      if lastChange == Some(changeCount) {
        return [];
      }
      lastChange := Some(changeCount);
      var own := changeCount in ownWrites || unackedWrite == Some(contents);
      local := Some(Snapshot(contents, now));
      if own || prefs == Off {
        return [];
      }
      if !CanSync(Value()) {
        pendingLocal := true;
        return [];
      }
      out := AdvertiseLocal(now);
    }

    method Written(count: int)
      modifies this
      ensures Value() == OnLocalWritten(old(Value()), count)
    {
      unackedWrite := None;
      ownWrites := ownWrites + [count];
      if |ownWrites| > OWN_WRITES_KEPT {
        ownWrites := ownWrites[1..];
      }
    }

    method ChangePrefs(next: Prefs, now: int) returns (out: seq<Action>)
      modifies this
      ensures Work(Value(), out) == OnPrefs(old(Value()), next, now)
    {
      if next == prefs {
        return [];
      }
      prefs := next;
      if !(ready && focused) {
        pendingLocal := local.Some?;
        return [];
      }
      if next == Off {
        SupersedeFetch();
        advertised := [];
        out := Send([], now);
        return;
      }
      if local.Some? {
        out := AdvertiseLocal(now);
      } else {
        out := [];
      }
    }

    method RemoteList(formats: seq<ClipFormat>, now: int) returns (out: seq<Action>)
      modifies this
      ensures Work(Value(), out) == OnRemoteList(old(Value()), formats, now)
    {
      if !CanSync(Value()) || IsEcho(Value(), formats, now) {
        return [];
      }
      SupersedeFetch();
      var queue := SelectInbound(formats, prefs);
      if queue == [] {
        return [];
      }
      fetch := Some(Fetch(queue, [], now));
      if inflight.Some? {
        return [];
      }
      out := FetchNext(now);
    }

    method FetchNext(now: int) returns (out: seq<Action>)
      modifies this
      ensures Work(Value(), out) == NextFetchStep(old(Value()), now)
    {
      if fetch.None? {
        return [];
      }
      var f := fetch.value;
      if f.queue != [] {
        var (format, kind) := f.queue[0];
        fetch := Some(f.(queue := f.queue[1..]));
        inflight := Some(Inflight(kind, now, false));
        return [RequestRemoteData(format)];
      }
      fetch := None;
      var localNewer := local.Some? && local.value.at > f.announced;
      if f.items == [] || localNewer {
        return [];
      }
      unackedWrite := Some(f.items);
      return [WritePasteboard(f.items)];
    }

    method RemoteAnswer(data: Option<seq<u8>>, now: int) returns (out: seq<Action>)
      modifies this
      ensures Work(Value(), out) == OnRemoteData(conv, old(Value()), data, now)
    {
      if inflight.None? {
        return [];
      }
      var i := inflight.value;
      inflight := None;
      var rejected: seq<Action> := [];
      if !i.stale {
        var item := DecodeAnswer(conv, i.kind, data);
        if item.Ok? {
          if fetch.Some? {
            fetch := Some(fetch.value.(items := fetch.value.items + [item.value]));
          }
        } else {
          rejected := [Rejected(item.error)];
        }
      }
      out := FetchNext(now);
      out := rejected + out;
    }

    /** Any input: the fields and the actions are those of one specified step. */
    method Handle(input: Input, now: int) returns (out: seq<Action>)
      modifies this
      ensures Work(Value(), out) == Step(conv, old(Value()), input, now)
    {
      out := [];
      match input {
        case InitialFormatListRequested => out := InitialRequest(now);
        case RemoteFormatList(formats) => out := RemoteList(formats, now);
        case RemoteData(data) => out := RemoteAnswer(data, now);
        case RemoteDataRequest(id) => out := [SendData(id, EncodeOutbound(conv, id, advertised, prefs))];
        case LocalChanged(count, contents) => out := LocalChange(count, contents, now);
        case LocalWritten(count) => Written(count);
        case Focus(gained) =>
          focused := gained;
          if gained && pendingLocal {
            out := AdvertiseLocal(now);
          }
        case PrefsChanged(next) => out := ChangePrefs(next, now);
        case Tick =>
          if TimedOut(Value(), now) {
            inflight := None;
            fetch := None;
          }
      }
    }
  }
}
