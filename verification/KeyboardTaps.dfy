/**
 A Command key that is held alone. It is deferred when it goes down, and when it is let go of without
 having been used it reaches the remote as one tap, in whatever modifier update that is noticed.
 */
module KeyboardTaps {
  import opened Prelude
  import opened Keymap
  import opened Modifiers
  import opened KeyboardSpec
  import opened KeyboardRuns
  import opened KeyboardMenu

  /** A press of `sc` directly followed by its release, at position `start` or later. */
  ghost predicate Taps(out: seq<InputEvent>, start: nat, sc: Scancode) {
    exists i: nat :: start <= i && i + 1 < |out| && out[i] == KeyEvent(sc, true) && out[i + 1] == KeyEvent(sc, false)
  }

  lemma TapsStay(out: seq<InputEvent>, more: seq<InputEvent>, start: nat, from: nat, sc: Scancode)
    requires Taps(out, start, sc) && out <= more && from <= start
    ensures Taps(more, from, sc)
  {
    var i: nat :| start <= i && i + 1 < |out| && out[i] == KeyEvent(sc, true) && out[i + 1] == KeyEvent(sc, false);
    assert more[i] == out[i] && more[i + 1] == out[i + 1];
  }

  // ----- the wire while modifiers are released ----------------------------------------------

  /** `key` is deferred, unused, and its scancode is not on the wire. */
  ghost predicate Unsent(s: State, key: ModifierKey) {
    && key in s.cmdPending && key !in s.cmdConsumed
    && ModifierScancode(key, s.keyboard, s.prefs) !in s.pressed
  }

  lemma ReleaseOnlyAppends(w: Work, k: ModifierKey)
    ensures w.out <= ReleaseModifier(w, k).out
  {
  }

  lemma PressOnlyAppends(w: Work, k: ModifierKey)
    ensures w.out <= PressModifier(w, k).out
  {
  }

  /** Releasing another modifier leaves an unsent key unsent. */
  lemma OthersLeaveUnsent(w: Work, k: ModifierKey, key: ModifierKey)
    requires Unsent(w.s, key) && k != key
    ensures Unsent(ReleaseModifier(w, k).s, key)
    ensures ModifierScancode(key, ReleaseModifier(w, k).s.keyboard, ReleaseModifier(w, k).s.prefs)
         == ModifierScancode(key, w.s.keyboard, w.s.prefs)
  {
  }

  lemma ReleaseTaps(w: Work, key: ModifierKey)
    requires Unsent(w.s, key)
    ensures Taps(ReleaseModifier(w, key).out, |w.out|, ModifierScancode(key, w.s.keyboard, w.s.prefs))
  {
    var sc, r := ModifierScancode(key, w.s.keyboard, w.s.prefs), ReleaseModifier(w, key);
    assert r.out == w.out + [KeyEvent(sc, true)] + [KeyEvent(sc, false)];
    assert r.out[|w.out|] == KeyEvent(sc, true) && r.out[|w.out| + 1] == KeyEvent(sc, false);
  }

  lemma {:induction false} ReleaseEachAppends(w: Work, keys: seq<ModifierKey>)
    ensures w.out <= ReleaseEach(w, keys).out
  {
    if keys == [] {
    } else {
      ReleaseEachAppends(w, keys[..|keys| - 1]);
      ReleaseOnlyAppends(ReleaseEach(w, keys[..|keys| - 1]), keys[|keys| - 1]);
    }
  }

  lemma {:induction false} PressEachAppends(w: Work, keys: seq<ModifierKey>)
    ensures w.out <= PressEach(w, keys).out
  {
    if keys == [] {
    } else {
      PressEachAppends(w, keys[..|keys| - 1]);
      PressOnlyAppends(PressEach(w, keys[..|keys| - 1]), keys[|keys| - 1]);
    }
  }

  lemma {:induction false} OtherReleasesLeaveUnsent(w: Work, keys: seq<ModifierKey>, key: ModifierKey)
    requires Unsent(w.s, key) && key !in keys
    ensures var r := ReleaseEach(w, keys).s;
      Unsent(r, key) && ModifierScancode(key, r.keyboard, r.prefs) == ModifierScancode(key, w.s.keyboard, w.s.prefs)
  {
    if keys == [] {
    } else {
      var n := |keys| - 1;
      assert keys[n] in keys && forall k <- keys[..n] :: k in keys;
      OtherReleasesLeaveUnsent(w, keys[..n], key);
      OthersLeaveUnsent(ReleaseEach(w, keys[..n]), keys[n], key);
    }
  }

  lemma LastTaps(w: Work, others: seq<ModifierKey>, key: ModifierKey)
    requires Unsent(w.s, key) && key !in others
    ensures Taps(ReleaseModifier(ReleaseEach(w, others), key).out, |w.out|, ModifierScancode(key, w.s.keyboard, w.s.prefs))
  {
    var before := ReleaseEach(w, others);
    OtherReleasesLeaveUnsent(w, others, key);
    ReleaseEachAppends(w, others);
    ReleaseTaps(before, key);
    var out := ReleaseModifier(before, key).out;
    TapsStay(out, out, |before.out|, |w.out|, ModifierScancode(key, w.s.keyboard, w.s.prefs));
  }

  lemma EarlierTaps(w: Work, before: Work, k: ModifierKey, sc: Scancode)
    requires Taps(before.out, |w.out|, sc)
    ensures Taps(ReleaseModifier(before, k).out, |w.out|, sc)
  {
    ReleaseOnlyAppends(before, k);
    TapsStay(before.out, ReleaseModifier(before, k).out, |w.out|, |w.out|, sc);
  }

  /** An unsent key among those released is tapped when its turn comes. */
  lemma {:induction false} ReleaseEachTaps(w: Work, keys: seq<ModifierKey>, key: ModifierKey)
    requires Unsent(w.s, key) && key in keys && Distinct(keys)
    ensures Taps(ReleaseEach(w, keys).out, |w.out|, ModifierScancode(key, w.s.keyboard, w.s.prefs))
  {
    var n := |keys| - 1;
    if keys[n] == key {
      assert key !in keys[..n];
      LastTaps(w, keys[..n], key);
    } else {
      assert key in keys[..n];
      ReleaseEachTaps(w, keys[..n], key);
      EarlierTaps(w, ReleaseEach(w, keys[..n]), keys[n], ModifierScancode(key, w.s.keyboard, w.s.prefs));
    }
  }

  // ----- modifier updates -------------------------------------------------------------------

  /**
   Any modifier update that lets go of an unused Command key, whatever else it changes, taps the key,
   unless its scancode is on the wire already.
   */
  lemma UpdateTaps(w: Work, flags: Flags, changed: Option<u16>, key: ModifierKey)
    requires Unsent(w.s, key) && key in w.s.mods && key !in Held(flags, changed, w.s.mods)
    ensures Taps(ApplyModifiers(w, flags, changed).out, |w.out|, ModifierScancode(key, w.s.keyboard, w.s.prefs))
  {
    var mods, held := w.s.mods, Held(flags, changed, w.s.mods);
    var gone, come := Pick(Reversed(ALL_MODIFIERS), mods - held), Pick(ALL_MODIFIERS, held - mods);
    AllModifiers();
    PickMeaning(Reversed(ALL_MODIFIERS), mods - held);
    assert key in Elements(gone);
    ReleaseEachTaps(w, gone, key);
    PressEachAppends(ReleaseEach(w, gone), come);
    TapsStay(ReleaseEach(w, gone).out, ApplyModifiers(w, flags, changed).out, |w.out|, |w.out|,
      ModifierScancode(key, w.s.keyboard, w.s.prefs));
  }

  lemma UnsentSplit(s: State, key: ModifierKey)
    requires key in s.cmdPending && key !in s.cmdConsumed
    ensures Unsent(s, key) || ModifierScancode(key, s.keyboard, s.prefs) in s.pressed
  {
  }

  /** The key's scancode reaches the remote as a tap, or is on the wire already. */
  ghost predicate Tapped(s: State, out: seq<InputEvent>, key: ModifierKey) {
    var sc := ModifierScancode(key, s.keyboard, s.prefs);
    sc in s.pressed || Taps(out, 0, sc)
  }

  /** The same for an update that starts with a Caps Lock report and may send more afterwards. */
  lemma SyncedUpdateTaps(s: State, force: bool, flags: Flags, changed: Option<u16>, key: ModifierKey, out: seq<InputEvent>)
    requires Inv(s) && key in s.cmdPending && key !in s.cmdConsumed
    requires key !in Held(flags, changed, s.mods)
    requires ApplyModifiers(SyncCaps(Work(s, []), flags, force), flags, changed).out <= out
    ensures Tapped(s, out, key)
  {
    var w := SyncCaps(Work(s, []), flags, force);
    UnsentSplit(s, key);
    if Unsent(s, key) {
      UpdateTaps(w, flags, changed, key);
      TapsStay(ApplyModifiers(w, flags, changed).out, out, |w.out|, 0, ModifierScancode(key, s.keyboard, s.prefs));
    }
  }

  lemma {:induction false} RecordEachAppends(w: Work, keys: seq<ModifierKey>)
    ensures w.out <= RecordEach(w, keys).out
  {
    if keys == [] {
    } else {
      RecordEachAppends(w, keys[..|keys| - 1]);
    }
  }

  lemma KeyDownBegins(s: State, kvk: u16, flags: Flags)
    ensures var w, r := ApplyModifiers(SyncCaps(Work(s, []), flags, false), flags, None), OnKeyDownScancode(s, kvk, flags);
      w.out <= r.out && r.s.mods == w.s.mods == Held(flags, None, s.mods)
  {
    var w := ApplyModifiers(SyncCaps(Work(s, []), flags, false), flags, None);
    RecordEachAppends(w, Pick(ALL_MODIFIERS, w.s.cmdPending));
    FlushKeepsMods(w);
  }

  lemma KeyDownTaps(s: State, kvk: u16, flags: Flags, key: ModifierKey)
    requires Inv(s) && key in s.cmdPending && key !in s.cmdConsumed
    requires key !in OnKeyDownScancode(s, kvk, flags).s.mods
    ensures Tapped(s, OnKeyDownScancode(s, kvk, flags).out, key)
  {
    KeyDownBegins(s, kvk, flags);
    SyncedUpdateTaps(s, false, flags, None, key, OnKeyDownScancode(s, kvk, flags).out);
  }

  /** Whatever input but a loss of focus lets go of an unused Command key, it taps the key. */
  lemma ReleaseIsTapped(s: State, input: Input, key: ModifierKey)
    requires Inv(s) && key in s.cmdPending && key !in s.cmdConsumed
    requires key !in Step(s, input).s.mods && !input.FocusLost?
    ensures Tapped(s, Step(s, input).out, key)
  {
    assert key in s.mods;
    match input {
      case FlagsChanged(kvk, flags) =>
        SyncedUpdateTaps(s, kvk == KVK_CAPS_LOCK, flags, Some(kvk), key, Step(s, input).out);
      case FocusGained(flags) => SyncedUpdateTaps(s, true, flags, None, key, Step(s, input).out);
      case KeyDownScancode(kvk, flags) => KeyDownTaps(s, kvk, flags, key);
      case KeyDown(kvk, flags, _, _) => KeyDownTaps(s, kvk, flags, key);
      case PreparePointerButton => FlushKeepsMods(Work(s, []));
      case CtrlAltDel => ModsOfCtrlAltDel(s);
      case _ =>
    }
  }

  /** A loss of focus only releases what is pressed: a deferred key is dropped without a tap. */
  lemma FocusLossPressesNothing(s: State)
    ensures forall e <- Step(s, FocusLost).out :: e.KeyEvent? && !e.down && e.scancode in s.pressed
    ensures Step(s, FocusLost).s.cmdPending == {}
  {
    var scs := Pick(AllScancodes(), s.pressed.Keys);
    PickMeaning(AllScancodes(), s.pressed.Keys);
    forall e <- KeyEvents(scs, false) ensures e.KeyEvent? && !e.down && e.scancode in s.pressed {
      assert e.scancode in Elements(scs);
    }
  }

  // ----- going down, and staying down -------------------------------------------------------

  /** `key` is deferred and unused. */
  ghost predicate Waiting(s: State, key: ModifierKey) {
    key in s.cmdPending && key !in s.cmdConsumed
  }

  lemma {:induction false} PressEachDefers(w: Work, keys: seq<ModifierKey>, key: ModifierKey)
    requires key.IsCommand() && (key in keys || Waiting(w.s, key))
    ensures Waiting(PressEach(w, keys).s, key)
  {
    if keys == [] {
    } else {
      var n := |keys| - 1;
      if keys[n] != key {
        assert key in keys ==> key in keys[..n];
        PressEachDefers(w, keys[..n], key);
      }
    }
  }

  lemma OthersKeepWaiting(w: Work, k: ModifierKey, key: ModifierKey)
    requires Waiting(w.s, key) && k != key
    ensures Waiting(ReleaseModifier(w, k).s, key)
  {
  }

  lemma {:induction false} ReleaseEachKeepsWaiting(w: Work, keys: seq<ModifierKey>, key: ModifierKey)
    requires Waiting(w.s, key) && key !in keys
    ensures Waiting(ReleaseEach(w, keys).s, key)
  {
    if keys == [] {
    } else {
      var n := |keys| - 1;
      assert keys[n] in keys && forall k <- keys[..n] :: k in keys;
      ReleaseEachKeepsWaiting(w, keys[..n], key);
      OthersKeepWaiting(ReleaseEach(w, keys[..n]), keys[n], key);
    }
  }

  /** After an update, a Command key that is held and was not, or was waiting, is waiting. */
  lemma UpdateDefers(w: Work, flags: Flags, changed: Option<u16>, key: ModifierKey)
    requires key.IsCommand() && key in Held(flags, changed, w.s.mods)
    requires key !in w.s.mods || Waiting(w.s, key)
    ensures Waiting(ApplyModifiers(w, flags, changed).s, key)
  {
    var mods, held := w.s.mods, Held(flags, changed, w.s.mods);
    var gone, come := Pick(Reversed(ALL_MODIFIERS), mods - held), Pick(ALL_MODIFIERS, held - mods);
    AllModifiers();
    PickMeaning(Reversed(ALL_MODIFIERS), mods - held);
    PickMeaning(ALL_MODIFIERS, held - mods);
    assert key !in Elements(gone);
    if key in mods {
      ReleaseEachKeepsWaiting(w, gone, key);
    } else {
      assert key in Elements(come);
    }
    PressEachDefers(ReleaseEach(w, gone), come, key);
  }

  lemma KeyDownDefers(s: State, kvk: u16, flags: Flags, key: ModifierKey)
    requires Inv(s) && key.IsCommand() && !Presses(s, kvk)
    requires key !in s.mods || Waiting(s, key)
    requires key in OnKeyDownScancode(s, kvk, flags).s.mods
    ensures Waiting(OnKeyDownScancode(s, kvk, flags).s, key)
  {
    KeyDownBegins(s, kvk, flags);
    UnsentKeyDown(s, kvk, flags);
    UpdateDefers(SyncCaps(Work(s, []), flags, false), flags, None, key);
  }

  /** A Command key going down, and one staying down unused, waits unless the input flushes it. */
  lemma StepDefers(s: State, input: Input, key: ModifierKey)
    requires Inv(s) && key.IsCommand() && !Flushes(s, input) && !input.MenuShortcutTaken?
    requires key !in s.mods || Waiting(s, key)
    requires key in Step(s, input).s.mods
    ensures Waiting(Step(s, input).s, key)
  {
    match input {
      case FlagsChanged(kvk, flags) =>
        UpdateDefers(SyncCaps(Work(s, []), flags, kvk == KVK_CAPS_LOCK), flags, Some(kvk), key);
      case FocusGained(flags) => UpdateDefers(SyncCaps(Work(s, []), flags, true), flags, None, key);
      case KeyDownScancode(kvk, flags) => KeyDownDefers(s, kvk, flags, key);
      case KeyDown(kvk, flags, isRepeat, composing) =>
        if !RoutedAsText(s.prefs, kvk, flags, composing) && !isRepeat {
          KeyDownDefers(s, kvk, flags, key);
        }
      case CtrlAltDel => CtrlAltDelLeavesNoTrace(s);
      case _ =>
    }
  }

  /** No combo goes to the menu during the run. */
  ghost predicate NoMenu(inputs: seq<Input>) {
    forall input <- inputs :: !input.MenuShortcutTaken?
  }

  lemma {:induction false} WaitingThroughout(s: State, inputs: seq<Input>, key: ModifierKey)
    requires Inv(s) && key.IsCommand() && Waiting(s, key) && HeldUnflushed(s, inputs, key) && NoMenu(inputs)
    ensures var r := Run(s, inputs).s; Inv(r) && Waiting(r, key)
  {
    if inputs == [] {
    } else {
      var init, last := inputs[..|inputs| - 1], inputs[|inputs| - 1];
      assert last in inputs && forall input <- init :: input in inputs;
      WaitingThroughout(s, init, key);
      StepGood(Run(s, init).s, last);
      StepDefers(Run(s, init).s, last, key);
    }
  }

  /**
   A Command key that goes down, is held through any run in which no key or pointer button is used
   with it and no combo goes to the menu, and is then let go of, has been tapped: whichever input
   notices, its press and its release are sent back to back, unless the wire holds its scancode.
   */
  lemma LoneCommandIsTapped(s: State, press: Input, inputs: seq<Input>, input: Input, key: ModifierKey)
    requires Inv(s) && key.IsCommand() && key !in s.mods
    requires key in Step(s, press).s.mods && !Flushes(s, press)
    requires HeldUnflushed(Step(s, press).s, inputs, key) && NoMenu(inputs)
    requires key !in Step(Run(Step(s, press).s, inputs).s, input).s.mods && !input.FocusLost?
    ensures var t := Run(Step(s, press).s, inputs).s;
      Tapped(t, Step(t, input).out, key)
  {
    var down := Step(s, press).s;
    StepGood(s, press);
    StepDefers(s, press, key);
    WaitingThroughout(down, inputs, key);
    ReleaseIsTapped(Run(down, inputs).s, input, key);
  }

  // ----- exactly the tap --------------------------------------------------------------------

  lemma OnlyOne<T(!new)>(keys: seq<T>, key: T)
    requires Distinct(keys) && Elements(keys) == {key}
    ensures keys == [key]
  {
    assert key in keys;
    var last := |keys| - 1;
    assert keys[0] in Elements(keys) && keys[last] in Elements(keys);
    assert last == 0;
  }

  lemma LoneUpdate(w: Work, flags: Flags, changed: Option<u16>, key: ModifierKey)
    requires key in w.s.mods && Held(flags, changed, w.s.mods) == w.s.mods - {key}
    ensures var r := ReleaseModifier(w, key);
      ApplyModifiers(w, flags, changed) == r.(s := r.s.(mods := w.s.mods - {key}))
  {
    var mods, held := w.s.mods, w.s.mods - {key};
    assert mods - held == {key} && held - mods == {};
    AllModifiers();
    PickMeaning(Reversed(ALL_MODIFIERS), {key});
    assert Elements(Reversed(ALL_MODIFIERS)) * {key} == {key};
    OnlyOne(Pick(Reversed(ALL_MODIFIERS), {key}), key);
    PickNothing(ALL_MODIFIERS);
    assert ReleaseEach(w, [key]) == ReleaseModifier(w, key) by {
      assert [key][..0] == [];
    }
  }

  /** Releasing an unused Command key taps it, or sends nothing when the wire holds its scancode. */
  lemma ReleaseOfWaiting(w: Work, key: ModifierKey)
    requires Balanced(w.s, multiset{}) && Bounded(w.s) && Waiting(w.s, key)
    ensures var r, sc := ReleaseModifier(w, key), ModifierScancode(key, w.s.keyboard, w.s.prefs);
      && r.s.pressed == w.s.pressed
      && r.out == w.out + if sc in w.s.pressed then [] else [KeyEvent(sc, true), KeyEvent(sc, false)]
  {
    var sc := ModifierScancode(key, w.s.keyboard, w.s.prefs);
    assert Count(w.s, sc) == Holders(w.s, sc) + multiset{}[sc];
    FewHolders(w.s, sc);
    if sc !in w.s.pressed {
      assert w.s.pressed[sc := 1] - {sc} == w.s.pressed;
    }
  }

  /** Caps Lock reports, and then exactly these events. */
  ghost predicate ReportsThen(out: seq<InputEvent>, events: seq<InputEvent>) {
    exists reports: seq<InputEvent> :: (forall e <- reports :: e.SyncToggles?) && out == reports + events
  }

  lemma ReportsFirst(reports: seq<InputEvent>, events: seq<InputEvent>)
    requires forall e <- reports :: e.SyncToggles?
    ensures ReportsThen(reports + events, events)
  {
  }

  /** Let go of on its own, an unused Command key sends its tap and nothing else but Caps Lock reports. */
  lemma LoneReleaseIsATap(s: State, key: ModifierKey, kvk: u16, flags: Flags)
    requires Inv(s) && Waiting(s, key) && Held(flags, Some(kvk), s.mods) == s.mods - {key}
    ensures var r, sc := Step(s, FlagsChanged(kvk, flags)), ModifierScancode(key, s.keyboard, s.prefs);
      && r.s.pressed == s.pressed && r.s.mods == s.mods - {key}
      && ReportsThen(r.out, if sc in s.pressed then [] else [KeyEvent(sc, true), KeyEvent(sc, false)])
  {
    var w := SyncCaps(Work(s, []), flags, kvk == KVK_CAPS_LOCK);
    SyncCapsGood(Work(s, []), Remote(s.pressed.Keys, {}), flags, kvk == KVK_CAPS_LOCK);
    LoneUpdate(w, flags, Some(kvk), key);
    ReleaseOfWaiting(w, key);
    var sc := ModifierScancode(key, s.keyboard, s.prefs);
    ReportsFirst(w.out, if sc in s.pressed then [] else [KeyEvent(sc, true), KeyEvent(sc, false)]);
  }
}
