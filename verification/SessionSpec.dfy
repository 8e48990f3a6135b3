/**
 Session windows and their actors, as lock-atomic steps. Every operation of the manager holds the
 lock only for short sections and calls the host outside them, so opens, closes, shutdowns and event
 pumps interleave section by section. `System` adds to the locked state what the running threads
 still owe; `Next` is every section any of them may run.
 */
module SessionSpec {
  import opened Prelude

  type Window = string

  datatype Profile = Profile(id: nat, settings: seq<int>)

  datatype SessionEvent = SessionEvent(payload: seq<int>)

  datatype UserAction = ClearCertificate | ToggleStats

  /** What a window shows; folding events into it is not modelled further. */
  type View = seq<int>

  datatype Folds = Folds(
    initial: Profile -> View,
    apply: (View, SessionEvent) -> View,
    act: (View, UserAction) -> View)

  datatype Slot = Slot(profile: Profile, view: View, live: Option<nat>, order: nat)

  datatype State = State(windows: map<Window, Slot>, nextGeneration: nat, nextOrder: nat)

  // ----- the locked sections ----------------------------------------------------------------

  function LiveIn(s: State, w: Window): Option<nat> {
    if w in s.windows then s.windows[w].live else None
  }

  function WithSlot(s: State, w: Window, slot: Slot): State {
    s.(windows := s.windows[w := slot])
  }

  /** First section of `open`: a live session of the window is taken out. */
  function TakeLive(s: State, w: Window): State {
    if w in s.windows then WithSlot(s, w, s.windows[w].(live := None)) else s
  }

  /** Second section of `open`: a new generation; the order survives a reconnect. */
  function InsertSlot(folds: Folds, s: State, w: Window, profile: Profile): State {
    var known := w in s.windows;
    var order := if known then s.windows[w].order else s.nextOrder + 1;
    State(s.windows[w := Slot(profile, folds.initial(profile), Some(s.nextGeneration + 1), order)],
          s.nextGeneration + 1,
          if known then s.nextOrder else s.nextOrder + 1)
  }

  function RemoveWindow(s: State, w: Window): State {
    s.(windows := s.windows - {w})
  }

  function DrainWindows(s: State): State {
    s.(windows := map[])
  }

  /** A pump delivers an event; it counts only for the generation that owns the window. */
  function ApplyEvent(folds: Folds, s: State, w: Window, generation: nat, e: SessionEvent): State {
    if LiveIn(s, w) == Some(generation) then
      WithSlot(s, w, s.windows[w].(view := folds.apply(s.windows[w].view, e)))
    else
      s
  }

  /** A pump's stream ended. */
  function EndPump(s: State, w: Window, generation: nat): State {
    if LiveIn(s, w) == Some(generation) then TakeLive(s, w) else s
  }

  function Act(folds: Folds, s: State, w: Window, a: UserAction): State {
    if w in s.windows then WithSlot(s, w, s.windows[w].(view := folds.act(s.windows[w].view, a))) else s
  }

  // ----- all threads together ---------------------------------------------------------------

  /** An `open` between its two sections, and the `session_ended` call it makes before spawning. */
  datatype Opening = Opening(window: Window, waits: Option<nat>)

  datatype System = System(
    s: State,
    opens: multiset<Opening>,
    /** Generations some thread will still call `session_ended` for. */
    owed: multiset<nat>,
    /** The calls of `session_ended` made so far, by generation. */
    ended: seq<nat>,
    /** Event streams still running, with their windows. */
    pumps: map<nat, Window>,
    /** Generations overwritten in their slot while live. */
    lost: set<nat>)

  datatype Section =
    | OpenTake(w: Window)
    | OpenInsert(opening: Opening, profile: Profile)
    | OpenFail(failed: Opening)
    | CloseTake(closed: Window)
    | ShutdownTake
    | EndCall(generation: nat)
    | PumpEvent(pump: nat, e: SessionEvent)
    | PumpStreamEnd(ending: nat)
    | PumpAbort(aborted: nat)
    | UserActs(on: Window, a: UserAction)

  const IDLE: System := System(State(map[], 0, 0), multiset{}, multiset{}, [], map[], {})

  function Debt(live: Option<nat>): multiset<nat> {
    match live case None => multiset{} case Some(g) => multiset{g}
  }

  /** The generations live in some window. */
  ghost function LiveGenerations(s: State): set<nat> {
    set w | w in s.windows && s.windows[w].live.Some? :: s.windows[w].live.value
  }

  /** Whether a section may run now. */
  ghost predicate Enabled(y: System, c: Section) {
    match c
    case OpenInsert(o, _) => o in y.opens && (o.waits.Some? ==> o.waits.value in y.ended)
    case OpenFail(o) => o in y.opens && (o.waits.Some? ==> o.waits.value in y.ended)
    case EndCall(g) => g in y.owed
    case PumpEvent(g, _) => g in y.pumps
    case PumpStreamEnd(g) => g in y.pumps
    case PumpAbort(g) => g in y.pumps && g !in LiveGenerations(y.s)
    case _ => true
  }

  ghost function Next(folds: Folds, y: System, c: Section): System {
    match c
    case OpenTake(w) =>
      var live := LiveIn(y.s, w);
      y.(s := TakeLive(y.s, w), opens := y.opens + multiset{Opening(w, live)}, owed := y.owed + Debt(live))
    case OpenInsert(o, profile) =>
      var overwritten := LiveIn(y.s, o.window);
      var after := InsertSlot(folds, y.s, o.window, profile);
      y.(s := after, opens := y.opens - multiset{o}, pumps := y.pumps[after.nextGeneration := o.window],
         lost := y.lost + if overwritten.Some? then {overwritten.value} else {})
    case OpenFail(o) => y.(opens := y.opens - multiset{o})
    case CloseTake(w) => y.(s := RemoveWindow(y.s, w), owed := y.owed + Debt(LiveIn(y.s, w)))
    case ShutdownTake => y.(s := DrainWindows(y.s), owed := y.owed + multiset(LiveGenerations(y.s)))
    case EndCall(g) => y.(owed := y.owed - multiset{g}, ended := y.ended + [g])
    case PumpEvent(g, e) => if g in y.pumps then y.(s := ApplyEvent(folds, y.s, y.pumps[g], g, e)) else y
    case PumpStreamEnd(g) =>
      if g !in y.pumps then
        y
      else
        var w := y.pumps[g];
        y.(s := EndPump(y.s, w, g), pumps := y.pumps - {g},
           owed := y.owed + if LiveIn(y.s, w) == Some(g) then multiset{g} else multiset{})
    case PumpAbort(g) => y.(pumps := y.pumps - {g})
    case UserActs(w, a) => y.(s := Act(folds, y.s, w, a))
  }

  /** A run: every section enabled when it happens. */
  ghost predicate Possible(folds: Folds, y: System, run: seq<Section>) {
    run == [] ||
      (var init := run[..|run| - 1];
       Possible(folds, y, init) && Enabled(After(folds, y, init), run[|run| - 1]))
  }

  ghost function After(folds: Folds, y: System, run: seq<Section>): System {
    if run == [] then y else Next(folds, After(folds, y, run[..|run| - 1]), run[|run| - 1])
  }
}
