/**
 Caps Lock is never a key on the wire: its state is reported, and once the remote has been told at
 all, what it was told last is what the last modifier flags said.
 */
module KeyboardCaps {
  import opened Prelude
  import opened Utf16
  import opened Keymap
  import opened Modifiers
  import opened KeyboardSpec
  import opened KeyboardRuns

  // ----- everything else is silent about Caps Lock ------------------------------------------

  /** Events follow, none of them a report, and the state believed reported is the same. */
  ghost predicate Silent(w: Work, r: Work) {
    && w.out <= r.out && r.s.caps == w.s.caps
    && forall e <- r.out[|w.out|..] :: !e.SyncToggles?
  }

  lemma SilentThen(a: Work, b: Work, c: Work)
    requires Silent(a, b) && Silent(b, c)
    ensures Silent(a, c)
  {
    assert c.out[|a.out|..] == b.out[|a.out|..] + c.out[|b.out|..];
  }

  lemma PressIsSilent(w: Work, sc: Scancode)
    ensures Silent(w, Press(w, sc)) && Silent(w, Release(w, sc))
  {
  }

  lemma RecordedIsSilent(w: Work, key: ModifierKey)
    ensures Silent(w, PressRecorded(w, key))
  {
    PressIsSilent(w, ModifierScancode(key, w.s.keyboard, w.s.prefs));
  }

  lemma PressModifierIsSilent(w: Work, key: ModifierKey)
    ensures Silent(w, PressModifier(w, key))
  {
    RecordedIsSilent(w, key);
  }

  lemma ReleaseModifierIsSilent(w: Work, key: ModifierKey)
    ensures Silent(w, ReleaseModifier(w, key))
  {
    if key in w.s.cmdPending {
      var dropped := w.(s := w.s.(cmdPending := w.s.cmdPending - {key}, cmdConsumed := w.s.cmdConsumed - {key}));
      var sc := ModifierScancode(key, w.s.keyboard, w.s.prefs);
      PressIsSilent(dropped, sc);
      PressIsSilent(Press(dropped, sc), sc);
      SilentThen(dropped, Press(dropped, sc), Release(Press(dropped, sc), sc));
    } else if key in w.s.modSent {
      PressIsSilent(w.(s := w.s.(modSent := w.s.modSent - {key})), w.s.modSent[key]);
    }
  }

  lemma {:induction false} ReleaseEachIsSilent(w: Work, keys: seq<ModifierKey>)
    ensures Silent(w, ReleaseEach(w, keys))
  {
    if keys == [] {
    } else {
      var before := ReleaseEach(w, keys[..|keys| - 1]);
      ReleaseEachIsSilent(w, keys[..|keys| - 1]);
      ReleaseModifierIsSilent(before, keys[|keys| - 1]);
      SilentThen(w, before, ReleaseEach(w, keys));
    }
  }

  lemma {:induction false} PressEachIsSilent(w: Work, keys: seq<ModifierKey>)
    ensures Silent(w, PressEach(w, keys))
  {
    if keys == [] {
    } else {
      var before := PressEach(w, keys[..|keys| - 1]);
      PressEachIsSilent(w, keys[..|keys| - 1]);
      PressModifierIsSilent(before, keys[|keys| - 1]);
      SilentThen(w, before, PressEach(w, keys));
    }
  }

  lemma {:induction false} RecordEachIsSilent(w: Work, keys: seq<ModifierKey>)
    ensures Silent(w, RecordEach(w, keys))
  {
    if keys == [] {
    } else {
      var before := RecordEach(w, keys[..|keys| - 1]);
      RecordEachIsSilent(w, keys[..|keys| - 1]);
      RecordedIsSilent(before, keys[|keys| - 1]);
      SilentThen(w, before, RecordEach(w, keys));
    }
  }

  lemma {:induction false} ScancodesAreSilent(w: Work, scs: seq<Scancode>)
    ensures Silent(w, PressScancodes(w, scs)) && Silent(w, ReleaseScancodes(w, scs))
  {
    if scs == [] {
    } else {
      var n := |scs| - 1;
      ScancodesAreSilent(w, scs[..n]);
      PressIsSilent(PressScancodes(w, scs[..n]), scs[n]);
      PressIsSilent(ReleaseScancodes(w, scs[..n]), scs[n]);
      SilentThen(w, PressScancodes(w, scs[..n]), PressScancodes(w, scs));
      SilentThen(w, ReleaseScancodes(w, scs[..n]), ReleaseScancodes(w, scs));
    }
  }

  lemma UpdateIsSilent(w: Work, flags: Flags, changed: Option<u16>)
    ensures Silent(w, ApplyModifiers(w, flags, changed))
  {
    var held := Held(flags, changed, w.s.mods);
    var gone, come := Pick(Reversed(ALL_MODIFIERS), w.s.mods - held), Pick(ALL_MODIFIERS, held - w.s.mods);
    var released := ReleaseEach(w, gone);
    ReleaseEachIsSilent(w, gone);
    PressEachIsSilent(released, come);
    SilentThen(w, released, PressEach(released, come));
  }

  lemma FlushIsSilent(w: Work)
    ensures Silent(w, FlushCommand(w))
  {
    RecordEachIsSilent(w, Pick(ALL_MODIFIERS, w.s.cmdPending));
  }

  lemma {:induction false} TextIsSilent(text: string)
    ensures forall e <- TextEvents(text) :: !e.SyncToggles?
  {
    if text == [] {
    } else {
      TextIsSilent(text[1..]);
    }
  }

  lemma KeyDownIsSilent(s: State, kvk: u16, flags: Flags)
    ensures Silent(SyncCaps(Work(s, []), flags, false), OnKeyDownScancode(s, kvk, flags))
  {
    var synced := SyncCaps(Work(s, []), flags, false);
    var updated := ApplyModifiers(synced, flags, None);
    UpdateIsSilent(synced, flags, None);
    FlushIsSilent(updated);
    SilentThen(synced, updated, FlushCommand(updated));
    var found := ScancodeFor(kvk, updated.s.keyboard, updated.s.prefs.cmdAs);
    if found.Some? {
      PressIsSilent(FlushCommand(updated), found.value);
      SilentThen(synced, FlushCommand(updated), Press(FlushCommand(updated), found.value));
    }
  }

  // ----- one input --------------------------------------------------------------------------

  /** The flags an input brings, and whether Caps Lock is reported even if it is unchanged. */
  datatype Brought = Brought(flags: Flags, always: bool)

  /** Inputs with flags, except keys the text system takes and auto-repeats. */
  function Brings(s: State, input: Input): Option<Brought> {
    match input
    case FlagsChanged(kvk, flags) => Some(Brought(flags, kvk == KVK_CAPS_LOCK))
    case FocusGained(flags) => Some(Brought(flags, true))
    case KeyDownScancode(_, flags) => Some(Brought(flags, false))
    case KeyDown(kvk, flags, isRepeat, composing) =>
      if RoutedAsText(s.prefs, kvk, flags, composing) || isRepeat then None else Some(Brought(flags, false))
    case _ => None
  }

  /** The reports among the events, in order. */
  ghost function Reports(events: seq<InputEvent>): seq<InputEvent> {
    if events == [] then []
    else
      Reports(events[..|events| - 1]) + if events[|events| - 1].SyncToggles? then [events[|events| - 1]] else []
  }

  lemma {:induction false} ReportsConcat(a: seq<InputEvent>, b: seq<InputEvent>)
    ensures Reports(a + b) == Reports(a) + Reports(b)
  {
    if b == [] {
      assert a + b == a && Reports(a) + [] == Reports(a);
    } else {
      ReportsConcat(a, b[..|b| - 1]);
      assert (a + b)[..|a + b| - 1] == a + b[..|b| - 1];
    }
  }

  lemma {:induction false} NoReports(events: seq<InputEvent>)
    requires forall e <- events :: !e.SyncToggles?
    ensures Reports(events) == []
  {
    if events == [] {
    } else {
      assert events[|events| - 1] in events && forall e <- events[..|events| - 1] :: e in events;
      NoReports(events[..|events| - 1]);
    }
  }

  lemma SilentReports(w: Work, r: Work)
    requires Silent(w, r)
    ensures Reports(r.out) == Reports(w.out)
  {
    assert r.out == w.out + r.out[|w.out|..];
    ReportsConcat(w.out, r.out[|w.out|..]);
    NoReports(r.out[|w.out|..]);
    assert Reports(w.out) + [] == Reports(w.out);
  }

  /** What one input does about Caps Lock. */
  ghost predicate TellsCaps(before: Option<bool>, brought: Option<Brought>, after: Option<bool>, out: seq<InputEvent>) {
    match brought
    case None => after == before && Reports(out) == []
    case Some(b) =>
      var now := 16 in b.flags;
      && after == Some(now)
      && Reports(out) == if b.always || before == Some(!now) then [SyncToggles(now, true)] else []
  }

  lemma SyncTells(s: State, flags: Flags, always: bool, r: Work)
    requires Silent(SyncCaps(Work(s, []), flags, always), r)
    ensures TellsCaps(s.caps, Some(Brought(flags, always)), r.s.caps, r.out)
  {
    var synced := SyncCaps(Work(s, []), flags, always);
    SilentReports(synced, r);
    if synced.out != [] {
      assert synced.out[..0] == [];
    }
  }

  /**
   Caps Lock, bit 16 of the flags, is reported when it differs from what the last flags said, and in
   any case when its own key changes or focus is gained; no other input reports it.
   */
  lemma StepTells(s: State, input: Input)
    ensures TellsCaps(s.caps, Brings(s, input), Step(s, input).s.caps, Step(s, input).out)
  {
    match input {
      case FlagsChanged(kvk, flags) =>
        UpdateIsSilent(SyncCaps(Work(s, []), flags, kvk == KVK_CAPS_LOCK), flags, Some(kvk));
        SyncTells(s, flags, kvk == KVK_CAPS_LOCK, Step(s, input));
      case FocusGained(flags) =>
        UpdateIsSilent(SyncCaps(Work(s, []), flags, true), flags, None);
        SyncTells(s, flags, true, Step(s, input));
      case KeyDownScancode(kvk, flags) =>
        KeyDownIsSilent(s, kvk, flags);
        SyncTells(s, flags, false, Step(s, input));
      case KeyDown(kvk, flags, _, _) =>
        KeyDownIsSilent(s, kvk, flags);
        SyncTells(s, flags, false, OnKeyDownScancode(s, kvk, flags));
      case _ => OthersAreSilent(s, input);
    }
  }

  lemma OthersAreSilent(s: State, input: Input)
    requires Brings(s, input).None? && !input.KeyDown?
    ensures Silent(Work(s, []), Step(s, input)) && Reports(Step(s, input).out) == []
  {
    match input {
      case PreparePointerButton => FlushIsSilent(Work(s, []));
      case InsertText(text) => TextIsSilent(text);
      case CtrlAltDel =>
        var pressed := PressScancodes(Work(s, []), CTRL_ALT_DEL);
        ScancodesAreSilent(Work(s, []), CTRL_ALT_DEL);
        ScancodesAreSilent(pressed, Reversed(CTRL_ALT_DEL));
        SilentThen(Work(s, []), pressed, Step(s, input));
      case _ =>
    }
    SilentReports(Work(s, []), Step(s, input));
  }

  // ----- runs -------------------------------------------------------------------------------

  /** The Caps Lock state in the last flags a run brought. */
  ghost function LastSeen(s: State, inputs: seq<Input>): Option<bool> {
    if inputs == [] then None
    else
      var init := inputs[..|inputs| - 1];
      match Brings(Run(s, init).s, inputs[|inputs| - 1])
      case Some(b) => Some(16 in b.flags)
      case None => LastSeen(s, init)
  }

  /** The last report, if there is one, is of this state, with Num Lock on. */
  ghost predicate LastIs(reports: seq<InputEvent>, caps: Option<bool>) {
    reports != [] ==> caps.Some? && reports[|reports| - 1] == SyncToggles(caps.value, true)
  }

  lemma TellingKeepsLast(reports: seq<InputEvent>, before: Option<bool>, brought: Option<Brought>, after: Option<bool>,
                         out: seq<InputEvent>)
    requires LastIs(reports, before) && TellsCaps(before, brought, after, out)
    ensures LastIs(reports + Reports(out), after)
    ensures brought.Some? && brought.value.always ==> Reports(out) != []
  {
  }

  lemma RunNext(s: State, inputs: seq<Input>)
    requires inputs != []
    ensures var before, last := Run(s, inputs[..|inputs| - 1]), inputs[|inputs| - 1];
      && Run(s, inputs).s == Step(before.s, last).s
      && Reports(Run(s, inputs).out) == Reports(before.out) + Reports(Step(before.s, last).out)
  {
    var before := Run(s, inputs[..|inputs| - 1]);
    ReportsConcat(before.out, Step(before.s, inputs[|inputs| - 1]).out);
  }

  lemma {:induction false} SeenIsLast(s: State, inputs: seq<Input>)
    requires s.caps.None?
    ensures Run(s, inputs).s.caps == LastSeen(s, inputs)
  {
    if inputs == [] {
    } else {
      var before, last := Run(s, inputs[..|inputs| - 1]), inputs[|inputs| - 1];
      SeenIsLast(s, inputs[..|inputs| - 1]);
      StepTells(before.s, last);
    }
  }

  lemma {:induction false} ReportIsLast(s: State, inputs: seq<Input>)
    ensures LastIs(Reports(Run(s, inputs).out), Run(s, inputs).s.caps)
  {
    if inputs == [] {
    } else {
      var before, last := Run(s, inputs[..|inputs| - 1]), inputs[|inputs| - 1];
      var after := Step(before.s, last);
      ReportIsLast(s, inputs[..|inputs| - 1]);
      StepTells(before.s, last);
      RunNext(s, inputs);
      TellingKeepsLast(Reports(before.out), before.s.caps, Brings(before.s, last), after.s.caps, after.out);
    }
  }

  lemma {:induction false} FocusReports(s: State, inputs: seq<Input>, i: nat)
    requires i < |inputs| && inputs[i].FocusGained?
    ensures Reports(Run(s, inputs).out) != []
  {
    var before, last := Run(s, inputs[..|inputs| - 1]), inputs[|inputs| - 1];
    RunNext(s, inputs);
    if i == |inputs| - 1 {
      StepTells(before.s, last);
    } else {
      FocusReports(s, inputs[..|inputs| - 1], i);
    }
  }

  /**
   Over every run: once a report has been sent, the last one states what the last flags said, with
   Num Lock on; and one has been sent as soon as focus was gained.
   */
  lemma CapsIsReported(prefs: Prefs, keyboard: KeyboardType, inputs: seq<Input>)
    ensures var w := Run(Initial(prefs, keyboard), inputs);
      && w.s.caps == LastSeen(Initial(prefs, keyboard), inputs)
      && LastIs(Reports(w.out), w.s.caps)
      && (forall input <- inputs :: input.FocusGained? ==> Reports(w.out) != [])
  {
    var s := Initial(prefs, keyboard);
    SeenIsLast(s, inputs);
    ReportIsLast(s, inputs);
    forall input <- inputs | input.FocusGained? ensures Reports(Run(s, inputs).out) != [] {
      var i :| 0 <= i < |inputs| && inputs[i] == input;
      FocusReports(s, inputs, i);
    }
  }
}
