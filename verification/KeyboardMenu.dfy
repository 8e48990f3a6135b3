/**
 A Command key whose combo went to the menu. While it is held nothing of it is on the wire, and when
 it is let go, in whatever modifier update that is noticed, the translator does exactly what it would
 have done had the key never been pressed.
 */
module KeyboardMenu {
  import opened Prelude
  import opened Keymap
  import opened Modifiers
  import opened KeyboardSpec
  import opened KeyboardRuns

  // ----- without the key --------------------------------------------------------------------

  /** The state in which `key` was never pressed. */
  function Drop(s: State, key: ModifierKey): State {
    s.(mods := s.mods - {key}, cmdPending := s.cmdPending - {key}, cmdConsumed := s.cmdConsumed - {key})
  }

  function DropFrom(w: Work, key: ModifierKey): Work {
    w.(s := Drop(w.s, key))
  }

  /** Releasing `key` would send nothing. */
  ghost predicate Mute(s: State, key: ModifierKey) {
    key !in s.modSent && (key in s.cmdPending <==> key in s.cmdConsumed)
  }

  /** Presses and releases on the wire do not look at the held or deferred keys. */
  lemma WireCommutes(w: Work, sc: Scancode, key: ModifierKey)
    ensures DropFrom(Press(w, sc), key) == Press(DropFrom(w, key), sc)
    ensures DropFrom(Release(w, sc), key) == Release(DropFrom(w, key), sc)
    ensures Press(w, sc).s == w.s.(pressed := Press(w, sc).s.pressed)
    ensures Release(w, sc).s == w.s.(pressed := Release(w, sc).s.pressed)
  {
  }

  /** The state without the deferred key `k`. */
  function Undefer(s: State, k: ModifierKey): State {
    s.(cmdPending := s.cmdPending - {k}, cmdConsumed := s.cmdConsumed - {k})
  }

  lemma UndeferCommutes(s: State, k: ModifierKey, key: ModifierKey)
    ensures Drop(Undefer(s, k), key) == Undefer(Drop(s, key), k)
    ensures k == key ==> Drop(Undefer(s, k), key) == Drop(s, key)
  {
    assert s.cmdPending - {k} - {key} == s.cmdPending - {key} - {k};
    assert s.cmdConsumed - {k} - {key} == s.cmdConsumed - {key} - {k};
    assert k == key ==> s.cmdPending - {k} - {key} == s.cmdPending - {key};
    assert k == key ==> s.cmdConsumed - {k} - {key} == s.cmdConsumed - {key};
  }

  lemma ReleasePendingCommutes(w: Work, k: ModifierKey, key: ModifierKey)
    requires Mute(w.s, key) && k in w.s.cmdPending
    ensures DropFrom(ReleaseModifier(w, k), key) == ReleaseModifier(DropFrom(w, key), k)
    ensures ReleaseModifier(w, k).s == Undefer(w.s, k).(pressed := ReleaseModifier(w, k).s.pressed)
  {
    UndeferCommutes(w.s, k, key);
    if k !in w.s.cmdConsumed {
      var sc := ModifierScancode(k, w.s.keyboard, w.s.prefs);
      var dropped := w.(s := Undefer(w.s, k));
      WireCommutes(dropped, sc, key);
      WireCommutes(Press(dropped, sc), sc, key);
    }
  }

  lemma ReleaseSentCommutes(w: Work, k: ModifierKey, key: ModifierKey)
    requires Mute(w.s, key) && k !in w.s.cmdPending
    ensures DropFrom(ReleaseModifier(w, k), key) == ReleaseModifier(DropFrom(w, key), k)
    ensures var r := ReleaseModifier(w, k).s; r == w.s.(pressed := r.pressed, modSent := r.modSent) && key !in r.modSent
  {
    if k in w.s.modSent {
      WireCommutes(w.(s := w.s.(modSent := w.s.modSent - {k})), w.s.modSent[k], key);
    }
  }

  lemma ReleaseCommutes(w: Work, k: ModifierKey, key: ModifierKey)
    requires Mute(w.s, key)
    ensures var r := ReleaseModifier(w, k);
      && Mute(r.s, key) && DropFrom(r, key) == ReleaseModifier(DropFrom(w, key), k)
      && (k == key || key !in w.s.cmdPending ==> key !in r.s.cmdPending)
  {
    if k in w.s.cmdPending {
      ReleasePendingCommutes(w, k, key);
    } else {
      ReleaseSentCommutes(w, k, key);
    }
  }

  lemma PressCommutes(w: Work, k: ModifierKey, key: ModifierKey)
    requires Mute(w.s, key) && k != key
    ensures var r := PressModifier(w, k);
      && Mute(r.s, key) && DropFrom(r, key) == PressModifier(DropFrom(w, key), k)
      && (key in r.s.cmdPending <==> key in w.s.cmdPending)
  {
    if k.IsCommand() {
      assert w.s.cmdPending + {k} - {key} == w.s.cmdPending - {key} + {k};
      assert w.s.cmdConsumed - {k} - {key} == w.s.cmdConsumed - {key} - {k};
    } else {
      WireCommutes(w, ModifierScancode(k, w.s.keyboard, w.s.prefs), key);
    }
  }

  // ----- several keys in order --------------------------------------------------------------

  type KeyStep = (Work, ModifierKey) -> Work

  /** `step` on each key in turn. */
  ghost function Each(step: KeyStep, w: Work, keys: seq<ModifierKey>): Work {
    if keys == [] then w else step(Each(step, w, keys[..|keys| - 1]), keys[|keys| - 1])
  }

  lemma {:induction false} ReleaseIsEach(w: Work, keys: seq<ModifierKey>)
    ensures ReleaseEach(w, keys) == Each(ReleaseModifier, w, keys)
  {
    if keys == [] {
    } else {
      ReleaseIsEach(w, keys[..|keys| - 1]);
    }
  }

  lemma {:induction false} PressIsEach(w: Work, keys: seq<ModifierKey>)
    ensures PressEach(w, keys) == Each(PressModifier, w, keys)
  {
    if keys == [] {
    } else {
      PressIsEach(w, keys[..|keys| - 1]);
    }
  }

  /** `step` on `k` keeps `key` mute and does not see it. */
  ghost predicate Blind(step: KeyStep, k: ModifierKey, key: ModifierKey) {
    forall w: Work {:trigger step(w, k)} :: Mute(w.s, key) ==>
      && Mute(step(w, k).s, key) && DropFrom(step(w, k), key) == step(DropFrom(w, key), k)
      && (key !in w.s.cmdPending ==> key !in step(w, k).s.cmdPending)
  }

  lemma {:induction false} EachCommutes(step: KeyStep, w: Work, keys: seq<ModifierKey>, key: ModifierKey)
    requires Mute(w.s, key) && forall k <- keys :: Blind(step, k, key)
    ensures var r := Each(step, w, keys);
      && Mute(r.s, key) && DropFrom(r, key) == Each(step, DropFrom(w, key), keys)
      && (key !in w.s.cmdPending ==> key !in r.s.cmdPending)
  {
    if keys == [] {
    } else {
      var n := |keys| - 1;
      assert keys[n] in keys && forall k <- keys[..n] :: k in keys;
      EachCommutes(step, w, keys[..n], key);
      assert Blind(step, keys[n], key);
    }
  }

  /** Once the step has reached `key`, it is no longer deferred. */
  lemma {:induction false} EachReaches(step: KeyStep, w: Work, keys: seq<ModifierKey>, key: ModifierKey)
    requires Mute(w.s, key) && key in keys && forall k <- keys :: Blind(step, k, key)
    requires forall v: Work {:trigger step(v, key)} :: Mute(v.s, key) ==> key !in step(v, key).s.cmdPending
    ensures key !in Each(step, w, keys).s.cmdPending
  {
    var n := |keys| - 1;
    assert keys[n] in keys && forall k <- keys[..n] :: k in keys;
    EachCommutes(step, w, keys[..n], key);
    assert Blind(step, keys[n], key);
    if keys[n] != key {
      EachReaches(step, w, keys[..n], key);
    }
  }

  /** A key that `step` leaves alone may be left out of the list. */
  lemma {:induction false} EachSkips(step: KeyStep, w: Work, keys: seq<ModifierKey>, chosen: set<ModifierKey>, key: ModifierKey)
    requires Mute(w.s, key) && key !in w.s.cmdPending && forall k <- keys :: Blind(step, k, key)
    requires forall v: Work {:trigger step(v, key)} :: key !in v.s.modSent && key !in v.s.cmdPending ==> step(v, key) == v
    ensures var r := Each(step, w, Pick(keys, chosen));
      r == Each(step, w, Pick(keys, chosen - {key})) && Mute(r.s, key) && key !in r.s.cmdPending
  {
    if keys == [] {
    } else {
      var n := |keys| - 1;
      assert keys[n] in keys && forall k <- keys[..n] :: k in keys;
      EachSkips(step, w, keys[..n], chosen, key);
      EachNext(step, w, Pick(keys[..n], chosen), keys[n]);
      EachNext(step, w, Pick(keys[..n], chosen - {key}), keys[n]);
      assert Blind(step, keys[n], key);
    }
  }

  lemma EachNext(step: KeyStep, w: Work, keys: seq<ModifierKey>, key: ModifierKey)
    ensures Each(step, w, keys + [key]) == step(Each(step, w, keys), key)
    ensures keys + [] == keys
  {
    assert (keys + [key])[..|keys|] == keys;
  }

  lemma ReleaseIsBlind(k: ModifierKey, key: ModifierKey)
    ensures Blind(ReleaseModifier, k, key)
  {
    forall w: Work | Mute(w.s, key)
      ensures Mute(ReleaseModifier(w, k).s, key)
      ensures DropFrom(ReleaseModifier(w, k), key) == ReleaseModifier(DropFrom(w, key), k)
      ensures key !in w.s.cmdPending ==> key !in ReleaseModifier(w, k).s.cmdPending
    {
      ReleaseCommutes(w, k, key);
    }
  }

  lemma PressIsBlind(k: ModifierKey, key: ModifierKey)
    requires k != key
    ensures Blind(PressModifier, k, key)
  {
    forall w: Work | Mute(w.s, key)
      ensures Mute(PressModifier(w, k).s, key)
      ensures DropFrom(PressModifier(w, k), key) == PressModifier(DropFrom(w, key), k)
      ensures key !in w.s.cmdPending ==> key !in PressModifier(w, k).s.cmdPending
    {
      PressCommutes(w, k, key);
    }
  }

  /** Releasing a list with the mute key in it is releasing the others from the state without it. */
  lemma ReleaseWithout(w: Work, keys: seq<ModifierKey>, chosen: set<ModifierKey>, key: ModifierKey)
    requires Mute(w.s, key) && key in Pick(keys, chosen)
    ensures var r := ReleaseEach(w, Pick(keys, chosen));
      && Mute(r.s, key) && key !in r.s.cmdPending
      && DropFrom(r, key) == ReleaseEach(DropFrom(w, key), Pick(keys, chosen - {key}))
  {
    var gone := Pick(keys, chosen);
    forall k: ModifierKey ensures Blind(ReleaseModifier, k, key) {
      ReleaseIsBlind(k, key);
    }
    forall v: Work | Mute(v.s, key) ensures key !in ReleaseModifier(v, key).s.cmdPending {
      ReleaseCommutes(v, key, key);
    }
    EachCommutes(ReleaseModifier, w, gone, key);
    EachReaches(ReleaseModifier, w, gone, key);
    EachSkips(ReleaseModifier, DropFrom(w, key), keys, chosen, key);
    ReleaseIsEach(w, gone);
    ReleaseIsEach(DropFrom(w, key), Pick(keys, chosen - {key}));
  }

  lemma PressWithout(w: Work, keys: seq<ModifierKey>, key: ModifierKey)
    requires Mute(w.s, key) && key !in w.s.cmdPending && key !in keys
    ensures var r := PressEach(w, keys);
      && Mute(r.s, key) && key !in r.s.cmdPending
      && DropFrom(r, key) == PressEach(DropFrom(w, key), keys)
  {
    forall k <- keys ensures Blind(PressModifier, k, key) {
      PressIsBlind(k, key);
    }
    EachCommutes(PressModifier, w, keys, key);
    PressIsEach(w, keys);
    PressIsEach(DropFrom(w, key), keys);
  }

  // ----- modifier updates -------------------------------------------------------------------

  /** A key the flags no longer hold does not influence which keys they hold. */
  lemma SidesIgnoreGone(c: Class, flags: Flags, changed: Option<ModifierKey>, previous: set<ModifierKey>, key: ModifierKey)
    requires key !in HeldSides(c, flags, changed, previous)
    ensures HeldSides(c, flags, changed, previous - {key}) == HeldSides(c, flags, changed, previous)
  {
  }

  lemma {:induction false} HeldUpToIgnoresGone(n: nat, flags: Flags, changed: Option<ModifierKey>,
                                               previous: set<ModifierKey>, key: ModifierKey)
    requires n <= |CLASSES| && key !in HeldUpTo(n, flags, changed, previous)
    ensures HeldUpTo(n, flags, changed, previous - {key}) == HeldUpTo(n, flags, changed, previous)
  {
    if n == 0 {
    } else {
      HeldUpToIgnoresGone(n - 1, flags, changed, previous, key);
      SidesIgnoreGone(CLASSES[n - 1], flags, changed, previous, key);
    }
  }

  lemma HeldIgnoresGone(flags: Flags, changed: Option<u16>, previous: set<ModifierKey>, key: ModifierKey)
    requires key !in Held(flags, changed, previous)
    ensures Held(flags, changed, previous - {key}) == Held(flags, changed, previous)
  {
    HeldUpToIgnoresGone(|CLASSES|, flags, if changed.Some? then FromKvk(changed.value) else None, previous, key);
  }

  lemma FinalDrop(w: Work, held: set<ModifierKey>, key: ModifierKey)
    requires Mute(w.s, key) && key !in w.s.cmdPending
    ensures w.s.(mods := held) == Drop(w.s, key).(mods := held)
  {
  }

  /**
   Any modifier update that lets go of a consumed Command key, whatever else it changes, is the update
   of a state in which that key was never pressed: the same events, and the same state afterwards.
   */
  lemma UpdateWithoutConsumed(w: Work, flags: Flags, changed: Option<u16>, key: ModifierKey)
    requires ModsMatch(w.s, w.s.mods) && key in w.s.cmdConsumed && key !in Held(flags, changed, w.s.mods)
    ensures ApplyModifiers(w, flags, changed) == ApplyModifiers(DropFrom(w, key), flags, changed)
  {
    var mods, held := w.s.mods, Held(flags, changed, w.s.mods);
    var gone, come := Pick(Reversed(ALL_MODIFIERS), mods - held), Pick(ALL_MODIFIERS, held - mods);
    HeldIgnoresGone(flags, changed, mods, key);
    assert held - (mods - {key}) == held - mods && (mods - {key}) - held == (mods - held) - {key};
    AllModifiers();
    PickMeaning(Reversed(ALL_MODIFIERS), mods - held);
    PickMeaning(ALL_MODIFIERS, held - mods);
    assert key in Elements(gone) && key !in Elements(come);
    ReleaseWithout(w, Reversed(ALL_MODIFIERS), mods - held, key);
    PressWithout(ReleaseEach(w, gone), come, key);
    FinalDrop(PressEach(ReleaseEach(w, gone), come), held, key);
  }

  // ----- inputs -----------------------------------------------------------------------------

  /** A key press that is sent, and so sends every deferred Command key first. */
  predicate Presses(s: State, kvk: u16) {
    !IsModifier(kvk) && kvk !in s.heldKeys && ScancodeFor(kvk, s.keyboard, s.prefs.cmdAs).Some?
  }

  /** The inputs that send the deferred Command keys: a key press that is sent, or a pointer button. */
  predicate Flushes(s: State, input: Input) {
    match input
    case KeyDown(kvk, flags, isRepeat, composing) =>
      !RoutedAsText(s.prefs, kvk, flags, composing) && !isRepeat && Presses(s, kvk)
    case KeyDownScancode(kvk, _) => Presses(s, kvk)
    case PreparePointerButton => true
    case _ => false
  }

  /** Whatever input lets go of a consumed Command key, it acts as if the key had never been pressed. */
  lemma ReleaseStaysLocal(s: State, input: Input, key: ModifierKey)
    requires ModsMatch(s, s.mods) && key in s.cmdConsumed && key !in Step(s, input).s.mods
    ensures Step(s, input) == Step(Drop(s, key), input)
  {
    assert key in s.mods;
    match input {
      case FlagsChanged(kvk, flags) =>
        UpdateWithoutConsumed(SyncCaps(Work(s, []), flags, kvk == KVK_CAPS_LOCK), flags, Some(kvk), key);
      case PreparePointerButton => FlushKeepsMods(Work(s, []));
      case KeyDown(kvk, flags, isRepeat, composing) => KeyDownStaysLocal(s, kvk, flags, key);
      case KeyDownScancode(kvk, flags) => KeyDownStaysLocal(s, kvk, flags, key);
      case FocusGained(flags) => UpdateWithoutConsumed(SyncCaps(Work(s, []), flags, true), flags, None, key);
      case FocusLost =>
      case CtrlAltDel => ModsOfCtrlAltDel(s);
      case _ =>
    }
  }

  lemma KeyDownStaysLocal(s: State, kvk: u16, flags: Flags, key: ModifierKey)
    requires ModsMatch(s, s.mods) && key in s.cmdConsumed && key !in OnKeyDownScancode(s, kvk, flags).s.mods
    ensures OnKeyDownScancode(s, kvk, flags) == OnKeyDownScancode(Drop(s, key), kvk, flags)
  {
    var w := SyncCaps(Work(s, []), flags, false);
    FlushKeepsMods(ApplyModifiers(w, flags, None));
    UpdateWithoutConsumed(w, flags, None, key);
  }

  lemma {:induction false} RecordEachKeepsMods(w: Work, keys: seq<ModifierKey>)
    ensures RecordEach(w, keys).s.mods == w.s.mods
  {
    if keys == [] {
    } else {
      RecordEachKeepsMods(w, keys[..|keys| - 1]);
    }
  }

  lemma FlushKeepsMods(w: Work)
    ensures FlushCommand(w).s.mods == w.s.mods
  {
    RecordEachKeepsMods(w, Pick(ALL_MODIFIERS, w.s.cmdPending));
  }

  lemma {:induction false} PressScancodesKeepMods(w: Work, scs: seq<Scancode>)
    ensures PressScancodes(w, scs).s.mods == w.s.mods && ReleaseScancodes(w, scs).s.mods == w.s.mods
  {
    if scs == [] {
    } else {
      PressScancodesKeepMods(w, scs[..|scs| - 1]);
    }
  }

  lemma ModsOfCtrlAltDel(s: State)
    ensures Step(s, CtrlAltDel).s.mods == s.mods
  {
    PressScancodesKeepMods(Work(s, []), CTRL_ALT_DEL);
    PressScancodesKeepMods(PressScancodes(Work(s, []), CTRL_ALT_DEL), Reversed(CTRL_ALT_DEL));
  }

  // ----- while the key is held --------------------------------------------------------------

  lemma {:induction false} PressEachLeavesOthers(w: Work, keys: seq<ModifierKey>, key: ModifierKey)
    requires key !in keys
    ensures key in PressEach(w, keys).s.cmdConsumed <==> key in w.s.cmdConsumed
  {
    if keys == [] {
    } else {
      var n := |keys| - 1;
      assert keys[n] in keys && forall k <- keys[..n] :: k in keys;
      PressEachLeavesOthers(w, keys[..n], key);
    }
  }

  lemma {:induction false} ReleaseEachLeavesOthers(w: Work, keys: seq<ModifierKey>, key: ModifierKey)
    requires key !in keys
    ensures key in ReleaseEach(w, keys).s.cmdConsumed <==> key in w.s.cmdConsumed
  {
    if keys == [] {
    } else {
      var n := |keys| - 1;
      assert keys[n] in keys && forall k <- keys[..n] :: k in keys;
      ReleaseEachLeavesOthers(w, keys[..n], key);
    }
  }

  lemma ApplyLeavesHeld(w: Work, flags: Flags, changed: Option<u16>, key: ModifierKey)
    requires key in w.s.mods && key in Held(flags, changed, w.s.mods)
    ensures key in ApplyModifiers(w, flags, changed).s.cmdConsumed <==> key in w.s.cmdConsumed
  {
    var mods, held := w.s.mods, Held(flags, changed, w.s.mods);
    var gone, come := Pick(Reversed(ALL_MODIFIERS), mods - held), Pick(ALL_MODIFIERS, held - mods);
    PickMeaning(Reversed(ALL_MODIFIERS), mods - held);
    PickMeaning(ALL_MODIFIERS, held - mods);
    assert key !in Elements(gone) && key !in Elements(come);
    ReleaseEachLeavesOthers(w, gone, key);
    PressEachLeavesOthers(ReleaseEach(w, gone), come, key);
  }

  /** A key press that is not sent is a modifier update and nothing more. */
  lemma UnsentKeyDown(s: State, kvk: u16, flags: Flags)
    requires Inv(s) && !Presses(s, kvk)
    ensures OnKeyDownScancode(s, kvk, flags) == ApplyModifiers(SyncCaps(Work(s, []), flags, false), flags, None)
  {
    var start, w := Remote(s.pressed.Keys, {}), Work(s, []);
    SyncCapsGood(w, start, flags, false);
    ApplyModifiersGood(SyncCaps(w, flags, false), start, flags, None);
  }

  lemma ConsumedStays(s: State, input: Input, key: ModifierKey)
    requires Inv(s) && key in s.cmdConsumed && !Flushes(s, input)
    requires key in Step(s, input).s.mods
    ensures key in Step(s, input).s.cmdConsumed
  {
    match input {
      case FlagsChanged(kvk, flags) =>
        ApplyLeavesHeld(SyncCaps(Work(s, []), flags, kvk == KVK_CAPS_LOCK), flags, Some(kvk), key);
      case FocusGained(flags) =>
        ApplyLeavesHeld(SyncCaps(Work(s, []), flags, true), flags, None, key);
      case KeyDownScancode(kvk, flags) => KeyDownKeepsConsumed(s, kvk, flags, key);
      case KeyDown(kvk, flags, isRepeat, composing) =>
        if !RoutedAsText(s.prefs, kvk, flags, composing) && !isRepeat {
          KeyDownKeepsConsumed(s, kvk, flags, key);
        }
      case CtrlAltDel => CtrlAltDelLeavesNoTrace(s);
      case _ =>
    }
  }

  lemma KeyDownKeepsConsumed(s: State, kvk: u16, flags: Flags, key: ModifierKey)
    requires Inv(s) && key in s.cmdConsumed && !Presses(s, kvk)
    requires key in OnKeyDownScancode(s, kvk, flags).s.mods
    ensures key in OnKeyDownScancode(s, kvk, flags).s.cmdConsumed
  {
    UnsentKeyDown(s, kvk, flags);
    ApplyLeavesHeld(SyncCaps(Work(s, []), flags, false), flags, None, key);
  }

  /** `key` stays physically held, and nothing flushes it, throughout the run. */
  ghost predicate HeldUnflushed(s: State, inputs: seq<Input>, key: ModifierKey) {
    inputs == [] ||
      (var init := inputs[..|inputs| - 1];
       && HeldUnflushed(s, init, key)
       && !Flushes(Run(s, init).s, inputs[|inputs| - 1])
       && key in Run(s, inputs).s.mods)
  }

  lemma {:induction false} ConsumedThroughout(s: State, inputs: seq<Input>, key: ModifierKey)
    requires Inv(s) && key in s.cmdConsumed && HeldUnflushed(s, inputs, key)
    ensures var r := Run(s, inputs).s; Inv(r) && key in r.cmdConsumed
  {
    if inputs == [] {
    } else {
      var init, last := inputs[..|inputs| - 1], inputs[|inputs| - 1];
      ConsumedThroughout(s, init, key);
      StepGood(Run(s, init).s, last);
      ConsumedStays(Run(s, init).s, last, key);
    }
  }

  /**
   A Command key pending when the menu took its combo sends nothing on release unless a key or pointer
   press flushed it: after any run that keeps it held and does not flush it, whichever input lets go
   of it does what it does in the state where the key was never pressed.
   */
  lemma MenuShortcutStaysLocal(s: State, key: ModifierKey, inputs: seq<Input>, input: Input)
    requires Inv(s) && key in s.cmdPending
    requires HeldUnflushed(Step(s, MenuShortcutTaken).s, inputs, key)
    requires key !in Step(Run(Step(s, MenuShortcutTaken).s, inputs).s, input).s.mods
    ensures var t := Run(Step(s, MenuShortcutTaken).s, inputs).s;
      Step(t, input) == Step(Drop(t, key), input)
  {
    var taken := Step(s, MenuShortcutTaken).s;
    StepGood(s, MenuShortcutTaken);
    ConsumedThroughout(taken, inputs, key);
    ReleaseStaysLocal(Run(taken, inputs).s, input, key);
  }

  lemma {:induction false} PickNothing<T>(keys: seq<T>)
    ensures Pick(keys, {}) == []
  {
    if keys == [] {
    } else {
      PickNothing(keys[..|keys| - 1]);
    }
  }

  /** Let go of on its own, such a key changes nothing on the wire. */
  lemma LoneReleaseIsSilent(s: State, key: ModifierKey, kvk: u16, flags: Flags)
    requires Inv(s) && key in s.cmdConsumed && Held(flags, Some(kvk), s.mods) == s.mods - {key}
    ensures var r := Step(s, FlagsChanged(kvk, flags));
      && r.s.pressed == s.pressed && r.s.mods == s.mods - {key}
      && forall e <- r.out :: e.SyncToggles?
  {
    var w := SyncCaps(Work(s, []), flags, kvk == KVK_CAPS_LOCK);
    UpdateWithoutConsumed(w, flags, Some(kvk), key);
    HeldIgnoresGone(flags, Some(kvk), s.mods, key);
    var rest := s.mods - {key};
    assert rest - rest == {};
    PickNothing(Reversed(ALL_MODIFIERS));
    PickNothing(ALL_MODIFIERS);
  }

  /** A flush does send it: afterwards no Command key is deferred, and each that was is pressed. */
  lemma FlushSends(s: State)
    requires Inv(s)
    ensures var r := Step(s, PreparePointerButton).s;
      && r.cmdPending == {} && r.mods == s.mods == r.modSent.Keys
      && forall key <- s.cmdPending :: r.modSent[key] in r.pressed
  {
    var start := Remote(s.pressed.Keys, {});
    FlushCommandGood(Work(s, []), start);
    StepGood(s, PreparePointerButton);
    var r := Step(s, PreparePointerButton).s;
    forall key <- r.modSent ensures r.modSent[key] in r.pressed {
      assert key in Uses(r.modSent, r.modSent[key]);
      assert Count(r, r.modSent[key]) == Holders(r, r.modSent[key]) + multiset{}[r.modSent[key]];
    }
  }
}
