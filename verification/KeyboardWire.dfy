/**
 What single inputs put on the wire: which scancode a key is sent as and keeps, in which order a key
 combination and Ctrl+Alt+Del arrive, and when Caps Lock is reported.
 */
module KeyboardWire {
  import opened Prelude
  import opened Utf16
  import opened Keymap
  import opened Modifiers
  import opened KeyboardSpec
  import opened KeyboardRuns
  import opened KeyboardMenu

  // ----- which scancode ---------------------------------------------------------------------

  /** The scancode a modifier has now. */
  function OwnScancode(s: State, key: ModifierKey): Scancode {
    ModifierScancode(key, s.keyboard, s.prefs)
  }

  /** Same keyboard and preferences. */
  ghost predicate SameLayout(a: State, b: State) {
    a.keyboard == b.keyboard && a.prefs == b.prefs
  }

  lemma {:induction false} ReleaseEachForgets(w: Work, keys: seq<ModifierKey>)
    ensures var r := ReleaseEach(w, keys).s;
      && SameLayout(w.s, r) && r.heldKeys == w.s.heldKeys
      && (forall key <- r.modSent :: key in w.s.modSent && r.modSent[key] == w.s.modSent[key])
      && (forall key <- w.s.modSent :: key in keys || key in r.modSent)
  {
    if keys == [] {
    } else {
      ReleaseEachForgets(w, keys[..|keys| - 1]);
    }
  }

  lemma {:induction false} PressEachSends(w: Work, keys: seq<ModifierKey>)
    ensures var r := PressEach(w, keys).s;
      && SameLayout(w.s, r) && r.heldKeys == w.s.heldKeys
      && forall key <- r.modSent ::
           if key in keys && !key.IsCommand() then r.modSent[key] == OwnScancode(w.s, key)
           else key in w.s.modSent && r.modSent[key] == w.s.modSent[key]
    ensures w.s.modSent.Keys <= PressEach(w, keys).s.modSent.Keys
  {
    if keys == [] {
    } else {
      var n := |keys| - 1;
      PressEachSends(w, keys[..n]);
      assert forall key :: key in keys <==> key in keys[..n] || key == keys[n];
    }
  }

  lemma {:induction false} RecordEachSends(w: Work, keys: seq<ModifierKey>)
    ensures var r := RecordEach(w, keys).s;
      && SameLayout(w.s, r) && r.heldKeys == w.s.heldKeys
      && forall key <- r.modSent ::
           if key in keys then r.modSent[key] == OwnScancode(w.s, key)
           else key in w.s.modSent && r.modSent[key] == w.s.modSent[key]
  {
    if keys == [] {
    } else {
      var n := |keys| - 1;
      RecordEachSends(w, keys[..n]);
      assert forall key :: key in keys <==> key in keys[..n] || key == keys[n];
    }
  }

  /** A modifier sent before keeps its scancode while it is held, and one sent now has its own. */
  ghost predicate KeepScancodes(before: State, after: State) {
    && SameLayout(before, after)
    && forall key <- after.modSent ::
         after.modSent[key] == if key in before.modSent then before.modSent[key] else OwnScancode(before, key)
  }

  lemma ApplyKeepsScancodes(w: Work, flags: Flags, changed: Option<u16>)
    requires ModsMatch(w.s, w.s.mods)
    ensures var r := ApplyModifiers(w, flags, changed).s;
      && KeepScancodes(w.s, r) && r.heldKeys == w.s.heldKeys
      && forall key <- w.s.modSent :: key in r.mods ==> key in r.modSent
  {
    var mods, held := w.s.mods, Held(flags, changed, w.s.mods);
    var gone, come := Pick(Reversed(ALL_MODIFIERS), mods - held), Pick(ALL_MODIFIERS, held - mods);
    PickMeaning(Reversed(ALL_MODIFIERS), mods - held);
    PickMeaning(ALL_MODIFIERS, held - mods);
    ReleaseEachForgets(w, gone);
    PressEachSends(ReleaseEach(w, gone), come);
    var r := ApplyModifiers(w, flags, changed).s;
    forall key <- r.modSent
      ensures r.modSent[key] == if key in w.s.modSent then w.s.modSent[key] else OwnScancode(w.s, key)
    {
      assert key in come ==> key in Elements(come);
    }
    forall key <- w.s.modSent | key in held ensures key in r.modSent {
      assert key in gone ==> key in Elements(gone);
    }
  }

  lemma FlushKeepsScancodes(w: Work)
    requires ModsMatch(w.s, w.s.mods)
    ensures var r := FlushCommand(w).s;
      KeepScancodes(w.s, r) && r.heldKeys == w.s.heldKeys
  {
    var keys := Pick(ALL_MODIFIERS, w.s.cmdPending);
    PickMeaning(ALL_MODIFIERS, w.s.cmdPending);
    RecordEachSends(w, keys);
    var r := FlushCommand(w).s;
    forall key <- r.modSent
      ensures r.modSent[key] == if key in w.s.modSent then w.s.modSent[key] else OwnScancode(w.s, key)
    {
      assert key in keys ==> key in Elements(keys);
    }
  }

  /** Every key that is down was sent with the scancode it had when it was sent, and is released with it. */
  ghost predicate ScancodesStay(before: State, after: State) {
    && (forall key <- after.modSent ::
          after.modSent[key] == if key in before.modSent then before.modSent[key] else OwnScancode(before, key))
    && (forall kvk <- after.heldKeys ::
          Some(after.heldKeys[kvk]) == if kvk in before.heldKeys then Some(before.heldKeys[kvk])
                                       else ScancodeFor(kvk, before.keyboard, before.prefs.cmdAs))
  }

  lemma KeepTwice(a: State, b: State, c: State)
    requires KeepScancodes(a, b) && KeepScancodes(b, c) && c.modSent.Keys <= b.mods
    requires forall key <- a.modSent :: key in b.mods ==> key in b.modSent
    ensures KeepScancodes(a, c)
  {
  }

  lemma FlushedKeepsScancodes(w: Work, start: Remote, flags: Flags)
    requires Good(w, start, multiset{}) && ModsMatch(w.s, w.s.mods)
    ensures var r := FlushCommand(ApplyModifiers(w, flags, None)).s;
      KeepScancodes(w.s, r) && r.heldKeys == w.s.heldKeys
  {
    ApplyModifiersGood(w, start, flags, None);
    ApplyKeepsScancodes(w, flags, None);
    var updated := ApplyModifiers(w, flags, None);
    FlushCommandGood(updated, start);
    FlushKeepsScancodes(updated);
    FlushKeepsMods(updated);
    KeepTwice(w.s, updated.s, FlushCommand(updated).s);
  }

  lemma KeyDownScancodesStay(s: State, kvk: u16, flags: Flags)
    requires Inv(s)
    ensures ScancodesStay(s, OnKeyDownScancode(s, kvk, flags).s)
  {
    var start, w := Remote(s.pressed.Keys, {}), SyncCaps(Work(s, []), flags, false);
    SyncCapsGood(Work(s, []), start, flags, false);
    ApplyKeepsScancodes(w, flags, None);
    FlushedKeepsScancodes(w, start, flags);
  }

  lemma StepScancodesStay(s: State, input: Input)
    requires Inv(s)
    ensures ScancodesStay(s, Step(s, input).s)
  {
    match input {
      case FlagsChanged(kvk, flags) =>
        ApplyKeepsScancodes(SyncCaps(Work(s, []), flags, kvk == KVK_CAPS_LOCK), flags, Some(kvk));
      case FocusGained(flags) => ApplyKeepsScancodes(SyncCaps(Work(s, []), flags, true), flags, None);
      case KeyDown(kvk, flags, _, _) => KeyDownScancodesStay(s, kvk, flags);
      case KeyDownScancode(kvk, flags) => KeyDownScancodesStay(s, kvk, flags);
      case PreparePointerButton => FlushKeepsScancodes(Work(s, []));
      case CtrlAltDel => CtrlAltDelLeavesNoTrace(s);
      case _ =>
    }
  }

  // ----- in which order ---------------------------------------------------------------------

  /** The scancodes that the held keys and the sent modifiers of a state keep pressed. */
  ghost function OnWire(s: State): set<Scancode> {
    s.heldKeys.Values + s.modSent.Values
  }

  lemma PressedIsOnWire(s: State)
    requires Balanced(s, multiset{})
    ensures s.pressed.Keys == OnWire(s)
  {
    forall sc: Scancode ensures sc in s.pressed <==> sc in OnWire(s) {
      assert Count(s, sc) == Holders(s, sc) + multiset{}[sc];
      if sc in s.heldKeys.Values {
        var k :| k in s.heldKeys && s.heldKeys[k] == sc;
        assert k in Uses(s.heldKeys, sc);
      }
      if sc in s.modSent.Values {
        var k :| k in s.modSent && s.modSent[k] == sc;
        assert k in Uses(s.modSent, sc);
      }
      if sc in s.pressed {
        assert Uses(s.heldKeys, sc) != {} || Uses(s.modSent, sc) != {};
      }
    }
  }

  /** The remote ends up with `keys` pressed, and then at most `sc` is pressed in addition. */
  ghost predicate Arrives(start: Remote, out: seq<InputEvent>, keys: set<Scancode>, sc: Scancode) {
    exists before: seq<InputEvent> ::
      && Replay(start, before) == Some(Remote(keys, {}))
      && out == before + if sc in keys then [] else [KeyEvent(sc, true)]
  }

  lemma PressArrives(w: Work, start: Remote, owed: multiset<Scancode>, sc: Scancode)
    requires Good(w, start, owed)
    ensures Arrives(start, Press(w, sc).out, w.s.pressed.Keys, sc)
  {
    assert Count(w.s, sc) == Holders(w.s, sc) + owed[sc];
    assert Press(w, sc).out == w.out + if sc in w.s.pressed then [] else [KeyEvent(sc, true)];
  }

  lemma UpdatedAndFlushed(s: State, flags: Flags)
    requires Inv(s)
    ensures var w := FlushCommand(ApplyModifiers(SyncCaps(Work(s, []), flags, false), flags, None));
      && Good(w, Remote(s.pressed.Keys, {}), multiset{})
      && w.s.modSent.Keys == Held(flags, None, s.mods)
      && w.s.pressed.Keys == s.heldKeys.Values + w.s.modSent.Values
  {
    var start, w := Remote(s.pressed.Keys, {}), SyncCaps(Work(s, []), flags, false);
    SyncCapsGood(Work(s, []), start, flags, false);
    ApplyModifiersGood(w, start, flags, None);
    FlushCommandGood(ApplyModifiers(w, flags, None), start);
    PressedIsOnWire(FlushCommand(ApplyModifiers(w, flags, None)).s);
  }

  /**
   A combination arrives as such: when the key goes down, exactly the held modifiers, Command keys
   included, and the keys held before are on the wire, and the key's press is the last event.
   */
  lemma CombinationArrives(s: State, kvk: u16, flags: Flags)
    requires Inv(s) && Presses(s, kvk)
    ensures var r := OnKeyDownScancode(s, kvk, flags);
      && r.s.modSent.Keys == Held(flags, None, s.mods)
      && Arrives(Remote(s.pressed.Keys, {}), r.out, s.heldKeys.Values + r.s.modSent.Values,
                 ScancodeFor(kvk, s.keyboard, s.prefs.cmdAs).value)
  {
    var start, sc := Remote(s.pressed.Keys, {}), ScancodeFor(kvk, s.keyboard, s.prefs.cmdAs).value;
    UnflushedLayout(s, flags);
    UpdatedAndFlushed(s, flags);
    PressArrives(FlushCommand(ApplyModifiers(SyncCaps(Work(s, []), flags, false), flags, None)), start, multiset{}, sc);
  }

  lemma UnflushedLayout(s: State, flags: Flags)
    requires Inv(s)
    ensures var w := ApplyModifiers(SyncCaps(Work(s, []), flags, false), flags, None).s;
      SameLayout(s, w) && w.heldKeys == s.heldKeys
  {
    ApplyKeepsScancodes(SyncCaps(Work(s, []), flags, false), flags, None);
  }

  lemma {:induction false} PressEachOnlyPresses(w: Work, keys: seq<ModifierKey>)
    ensures var r := PressEach(w, keys);
      w.out <= r.out && forall e <- r.out[|w.out|..] :: e.KeyEvent? && e.down
  {
    if keys == [] {
    } else {
      PressEachOnlyPresses(w, keys[..|keys| - 1]);
    }
  }

  /** The scancodes kept pressed by the held keys and by the sent modifiers that are in `held`. */
  ghost predicate Remains(s: State, held: set<ModifierKey>, sc: Scancode) {
    sc in s.heldKeys.Values || exists key :: key in s.modSent && key in held && s.modSent[key] == sc
  }

  ghost predicate ReleasesFirst(s: State, start: Remote, held: set<ModifierKey>, before: seq<InputEvent>, out: seq<InputEvent>) {
    && Replay(start, before).Some?
    && (forall sc :: sc in Replay(start, before).value.keys <==> Remains(s, held, sc))
    && before <= out && forall e <- out[|before|..] :: e.KeyEvent? && e.down
  }

  lemma RemainsOnWire(s: State, r: State, held: set<ModifierKey>)
    requires r.heldKeys == s.heldKeys
    requires forall key <- r.modSent :: key in s.modSent && r.modSent[key] == s.modSent[key] && key in held
    requires forall key <- s.modSent :: key in held ==> key in r.modSent
    ensures forall sc :: sc in OnWire(r) <==> Remains(s, held, sc)
  {
    forall sc ensures sc in OnWire(r) <==> Remains(s, held, sc) {
      if sc in r.modSent.Values {
        var key :| key in r.modSent && r.modSent[key] == sc;
        assert Remains(s, held, sc);
      }
      if Remains(s, held, sc) && sc !in s.heldKeys.Values {
        var key :| key in s.modSent && key in held && s.modSent[key] == sc;
        assert r.modSent[key] == sc;
      }
    }
  }

  /** A modifier update releases everything that is no longer held before it presses anything new. */
  lemma UpdateReleasesFirst(w: Work, start: Remote, flags: Flags, changed: Option<u16>)
    requires Good(w, start, multiset{}) && ModsMatch(w.s, w.s.mods)
    ensures exists before: seq<InputEvent> ::
      ReleasesFirst(w.s, start, Held(flags, changed, w.s.mods), before, ApplyModifiers(w, flags, changed).out)
  {
    var mods, held := w.s.mods, Held(flags, changed, w.s.mods);
    var gone, come := Pick(Reversed(ALL_MODIFIERS), mods - held), Pick(ALL_MODIFIERS, held - mods);
    AllModifiers();
    PickMeaning(Reversed(ALL_MODIFIERS), mods - held);
    assert Elements(gone) == mods - held;
    ReleaseEachGood(w, start, mods, gone);
    ReleaseEachForgets(w, gone);
    var released := ReleaseEach(w, gone);
    assert ModsMatch(released.s, mods - (mods - held));
    RemainsOnWire(w.s, released.s, held);
    PressedIsOnWire(released.s);
    PressEachOnlyPresses(released, come);
    assert ReleasesFirst(w.s, start, held, released.out, ApplyModifiers(w, flags, changed).out);
  }

  // ----- Ctrl+Alt+Del -----------------------------------------------------------------------

  lemma {:induction false} ReleaseScancodesOnlyReleases(w: Work, scs: seq<Scancode>)
    ensures var r := ReleaseScancodes(w, scs);
      w.out <= r.out && forall e <- r.out[|w.out|..] :: e.KeyEvent? && !e.down
  {
    if scs == [] {
    } else {
      ReleaseScancodesOnlyReleases(w, scs[..|scs| - 1]);
    }
  }

  const CONTROL_KEY: Scancode := Make(0x1D)
  const ALT_KEY: Scancode := Make(0x38)
  const DELETE_KEY: Scancode := Ext(0x53)

  lemma ThreePresses(w: Work)
    ensures PressScancodes(w, CTRL_ALT_DEL) == Press(Press(Press(w, CONTROL_KEY), ALT_KEY), DELETE_KEY)
  {
    var scs := CTRL_ALT_DEL;
    assert scs[..2][..1] == scs[..1] && scs[..1][..0] == [];
    assert PressScancodes(w, scs[..1]) == Press(w, CONTROL_KEY);
    assert PressScancodes(w, scs[..2]) == Press(Press(w, CONTROL_KEY), ALT_KEY);
  }

  lemma PressAddsKey(w: Work, sc: Scancode)
    ensures Press(w, sc).s.pressed.Keys == w.s.pressed.Keys + {sc}
  {
  }

  lemma ThreeArrive(s: State)
    requires Inv(s)
    ensures Arrives(Remote(s.pressed.Keys, {}), PressScancodes(Work(s, []), CTRL_ALT_DEL).out,
                    s.pressed.Keys + {CONTROL_KEY} + {ALT_KEY}, DELETE_KEY)
  {
    var start, w := Remote(s.pressed.Keys, {}), Work(s, []);
    PressGood(w, start, multiset{}, CONTROL_KEY);
    PressGood(Press(w, CONTROL_KEY), start, multiset{} + multiset{CONTROL_KEY}, ALT_KEY);
    PressAddsKey(w, CONTROL_KEY);
    PressAddsKey(Press(w, CONTROL_KEY), ALT_KEY);
    PressArrives(Press(Press(w, CONTROL_KEY), ALT_KEY), start, multiset{} + multiset{CONTROL_KEY} + multiset{ALT_KEY}, DELETE_KEY);
    ThreePresses(w);
  }

  /** Everything after `before` is a release. */
  ghost predicate ThenReleases(before: seq<InputEvent>, out: seq<InputEvent>) {
    before <= out && forall e <- out[|before|..] :: e.KeyEvent? && !e.down
  }

  /**
   "Send Ctrl+Alt+Del" presses Delete while Control and Alt are pressed, whatever was held before,
   and then sends releases only.
   */
  lemma CtrlAltDelArrives(s: State)
    requires Inv(s)
    ensures exists before: seq<InputEvent> ::
      && Arrives(Remote(s.pressed.Keys, {}), before, s.pressed.Keys + {CONTROL_KEY} + {ALT_KEY}, DELETE_KEY)
      && ThenReleases(before, Step(s, CtrlAltDel).out)
  {
    var pressed := PressScancodes(Work(s, []), CTRL_ALT_DEL);
    ThreeArrive(s);
    ReleaseScancodesOnlyReleases(pressed, Reversed(CTRL_ALT_DEL));
    assert ThenReleases(pressed.out, Step(s, CtrlAltDel).out);
  }

  // ----- text or key ------------------------------------------------------------------------

  /**
   With the Mac layout, a key pressed without Control or Command is left to the text system if it
   types text or a composition is going on; every other key is sent as a key, once however often it
   repeats.
   */
  lemma WhereAKeyGoes(s: State, kvk: u16, flags: Flags, isRepeat: bool, composing: bool)
    ensures var typed := s.prefs.typeWithMacLayout && 18 !in flags && 20 !in flags && (composing || IsTextKey(kvk));
      Step(s, KeyDown(kvk, flags, isRepeat, composing))
        == if typed || isRepeat then Work(s, []) else Step(s, KeyDownScancode(kvk, flags))
  {
  }

  // ----- preferences ------------------------------------------------------------------------

  /** The preferences and the keyboard a run set last. */
  ghost function LastPrefs(inputs: seq<Input>, initial: Prefs): Prefs {
    if inputs == [] then initial
    else match inputs[|inputs| - 1] case SetPrefs(prefs) => prefs case _ => LastPrefs(inputs[..|inputs| - 1], initial)
  }

  ghost function LastKeyboard(inputs: seq<Input>, initial: KeyboardType): KeyboardType {
    if inputs == [] then initial
    else match inputs[|inputs| - 1]
         case SetKeyboardType(keyboard) => keyboard
         case _ => LastKeyboard(inputs[..|inputs| - 1], initial)
  }

  lemma KeyDownKeepsLayout(s: State, kvk: u16, flags: Flags)
    requires Inv(s)
    ensures SameLayout(s, OnKeyDownScancode(s, kvk, flags).s)
  {
    UnflushedLayout(s, flags);
    var w := ApplyModifiers(SyncCaps(Work(s, []), flags, false), flags, None);
    RecordEachSends(w, Pick(ALL_MODIFIERS, w.s.cmdPending));
  }

  lemma StepLayout(s: State, input: Input)
    requires Inv(s)
    ensures var r := Step(s, input).s;
      && r.prefs == (match input case SetPrefs(prefs) => prefs case _ => s.prefs)
      && r.keyboard == match input case SetKeyboardType(keyboard) => keyboard case _ => s.keyboard
  {
    match input {
      case FlagsChanged(kvk, flags) =>
        ApplyKeepsScancodes(SyncCaps(Work(s, []), flags, kvk == KVK_CAPS_LOCK), flags, Some(kvk));
      case FocusGained(flags) => ApplyKeepsScancodes(SyncCaps(Work(s, []), flags, true), flags, None);
      case KeyDown(kvk, flags, _, _) => KeyDownKeepsLayout(s, kvk, flags);
      case KeyDownScancode(kvk, flags) => KeyDownKeepsLayout(s, kvk, flags);
      case PreparePointerButton => FlushKeepsScancodes(Work(s, []));
      case CtrlAltDel => CtrlAltDelLeavesNoTrace(s);
      case _ =>
    }
  }

  /** Over every run the preferences and the keyboard are those set last. */
  lemma {:induction false} LayoutIsHistory(prefs: Prefs, keyboard: KeyboardType, inputs: seq<Input>)
    ensures var s := Run(Initial(prefs, keyboard), inputs).s;
      s.prefs == LastPrefs(inputs, prefs) && s.keyboard == LastKeyboard(inputs, keyboard)
  {
    if inputs == [] {
    } else {
      var init := inputs[..|inputs| - 1];
      LayoutIsHistory(prefs, keyboard, init);
      EveryRunIsFaithful(prefs, keyboard, init);
      StepLayout(Run(Initial(prefs, keyboard), init).s, inputs[|inputs| - 1]);
    }
  }
}
