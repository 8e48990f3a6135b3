/**
 What the remote side may rely on, over every run of keyboard inputs: each press is followed by
 one release before the next press, no stray release is sent, and injected text never meets a held
 Shift, Alt or AltGr.
 */
module KeyboardRuns {
  import opened Prelude
  import opened Utf16
  import opened Keymap
  import opened Modifiers
  import opened KeyboardSpec

  // ----- the remote side --------------------------------------------------------------------

  /** The scancodes and Unicode units the remote considers pressed. */
  datatype Remote = Remote(keys: set<Scancode>, units: set<u16>)

  /** Left and right Shift, Alt and AltGr. */
  predicate TextLevel(sc: Scancode) {
    sc == Make(0x2A) || sc == Make(0x36) || sc == Make(0x38) || sc == Ext(0x38)
  }

  /** `None` for a double press, a stray release, or text typed under a text-level modifier. */
  function Receive(r: Remote, e: InputEvent): Option<Remote> {
    match e
    case KeyEvent(sc, true) => if sc in r.keys then None else Some(r.(keys := r.keys + {sc}))
    case KeyEvent(sc, false) => if sc in r.keys then Some(r.(keys := r.keys - {sc})) else None
    case UnicodeEvent(unit, true) =>
      if unit in r.units || exists sc <- r.keys :: TextLevel(sc) then None else Some(r.(units := r.units + {unit}))
    case UnicodeEvent(unit, false) => if unit in r.units then Some(r.(units := r.units - {unit})) else None
    case SyncToggles(_, _) => Some(r)
  }

  function Replay(start: Remote, events: seq<InputEvent>): Option<Remote> {
    if events == [] then
      Some(start)
    else
      match Replay(start, events[..|events| - 1])
      case None => None
      case Some(r) => Receive(r, events[|events| - 1])
  }

  lemma ReplayAppend(start: Remote, events: seq<InputEvent>, e: InputEvent)
    requires Replay(start, events).Some?
    ensures Replay(start, events + [e]) == Receive(Replay(start, events).value, e)
  {
    assert (events + [e])[..|events|] == events;
  }

  lemma {:induction false} ReplayConcat(start: Remote, a: seq<InputEvent>, b: seq<InputEvent>)
    requires Replay(start, a).Some?
    ensures Replay(start, a + b) == Replay(Replay(start, a).value, b)
  {
    if b == [] {
      assert a + b == a;
    } else {
      ReplayConcat(start, a, b[..|b| - 1]);
      assert (a + b)[..|a + b| - 1] == a + b[..|b| - 1];
    }
  }

  // ----- the reference counts ---------------------------------------------------------------

  ghost function Uses<K(!new)>(m: map<K, Scancode>, sc: Scancode): set<K> {
    set k | k in m && m[k] == sc
  }

  /** How many held keys and sent modifiers keep `sc` pressed. */
  ghost function Holders(s: State, sc: Scancode): nat {
    |Uses(s.heldKeys, sc)| + |Uses(s.modSent, sc)|
  }

  /** Every count is the number of holders, plus the presses in `owed` not recorded yet. */
  ghost predicate Balanced(s: State, owed: multiset<Scancode>) {
    forall sc :: Count(s, sc) == Holders(s, sc) + owed[sc] && (sc in s.pressed ==> s.pressed[sc] > 0)
  }

  function Count(s: State, sc: Scancode): nat {
    if sc in s.pressed then s.pressed[sc] else 0
  }

  ghost predicate Bounded(s: State) {
    forall k <- s.heldKeys :: k <= KVK_LAST && !IsModifier(k)
  }

  /** Held modifiers are either sent or, for Command, deferred, and never both. */
  ghost predicate ModsMatch(s: State, held: set<ModifierKey>) {
    && held == s.modSent.Keys + s.cmdPending
    && s.modSent.Keys !! s.cmdPending
    && (forall key <- s.cmdPending :: key.IsCommand())
    && s.cmdConsumed <= s.cmdPending
  }

  /** The remote has accepted everything sent and agrees with `pressed`. */
  ghost predicate Faithful(w: Work, start: Remote) {
    Replay(start, w.out) == Some(Remote(w.s.pressed.Keys, {}))
  }

  ghost predicate Good(w: Work, start: Remote, owed: multiset<Scancode>) {
    Faithful(w, start) && Balanced(w.s, owed) && Bounded(w.s)
  }

  ghost predicate Inv(s: State) {
    Balanced(s, multiset{}) && Bounded(s) && ModsMatch(s, s.mods)
  }

  lemma UsesAdd<K(!new)>(m: map<K, Scancode>, k: K, v: Scancode, sc: Scancode)
    requires k !in m
    ensures |Uses(m[k := v], sc)| == |Uses(m, sc)| + if v == sc then 1 else 0
  {
    if v == sc {
      assert Uses(m[k := v], sc) == Uses(m, sc) + {k};
    } else {
      assert Uses(m[k := v], sc) == Uses(m, sc);
    }
  }

  lemma UsesRemove<K(!new)>(m: map<K, Scancode>, k: K, sc: Scancode)
    requires k in m
    ensures |Uses(m, sc)| == |Uses(m - {k}, sc)| + if m[k] == sc then 1 else 0
  {
    assert (m - {k})[k := m[k]] == m;
    UsesAdd(m - {k}, k, m[k], sc);
  }

  ghost function KvkBelow(n: u16): (keys: set<u16>)
    ensures |keys| <= n
    ensures forall k :: k in keys <==> 0 <= k < n
  {
    if n == 0 then {} else KvkBelow(n - 1) + {n - 1}
  }

  /** No scancode ever has more holders than there are keys, so the 8-bit count never saturates. */
  lemma FewHolders(s: State, sc: Scancode)
    requires Bounded(s)
    ensures Holders(s, sc) <= 135
  {
    SubsetSize(Uses(s.heldKeys, sc), KvkBelow(KVK_LAST + 1));
    var all := {LeftShift, RightShift, LeftControl, RightControl, LeftOption, RightOption, LeftCommand, RightCommand};
    forall key: ModifierKey ensures key in all {
      match key case LeftShift => case _ =>
    }
    SubsetSize(Uses(s.modSent, sc), all);
  }

  // ----- one press, one release -------------------------------------------------------------

  lemma PressGood(w: Work, start: Remote, owed: multiset<Scancode>, sc: Scancode)
    requires Good(w, start, owed) && owed[sc] < 100
    ensures Good(Press(w, sc), start, owed + multiset{sc})
    ensures Press(w, sc).s == w.s.(pressed := Press(w, sc).s.pressed)
  {
    FewHolders(w.s, sc);
    ReplayAppend(start, w.out, KeyEvent(sc, true));
    assert Count(w.s, sc) == Holders(w.s, sc) + owed[sc];
    var p := Press(w, sc);
    forall other
      ensures Count(p.s, other) == Holders(p.s, other) + (owed + multiset{sc})[other]
    {
      assert Count(w.s, other) == Holders(w.s, other) + owed[other];
    }
    assert p.s.pressed.Keys == w.s.pressed.Keys + {sc};
    assert sc in w.s.pressed ==> p.s.pressed.Keys == w.s.pressed.Keys;
  }

  lemma ReleaseGood(w: Work, start: Remote, owed: multiset<Scancode>, sc: Scancode)
    requires Good(w, start, owed) && sc in owed
    ensures Good(Release(w, sc), start, owed - multiset{sc})
    ensures Release(w, sc).s == w.s.(pressed := Release(w, sc).s.pressed)
  {
    assert Count(w.s, sc) == Holders(w.s, sc) + owed[sc];
    ReplayAppend(start, w.out, KeyEvent(sc, false));
    var r := Release(w, sc);
    forall other
      ensures Count(r.s, other) == Holders(r.s, other) + (owed - multiset{sc})[other]
      ensures other in r.s.pressed ==> r.s.pressed[other] > 0
    {
      assert Count(w.s, other) == Holders(w.s, other) + owed[other];
    }
    assert r.s.pressed.Keys == w.s.pressed.Keys - {sc} || r.s.pressed.Keys == w.s.pressed.Keys;
  }

  // ----- recording who holds a press --------------------------------------------------------

  lemma RecordModifier(s: State, owed: multiset<Scancode>, key: ModifierKey, sc: Scancode)
    requires Balanced(s, owed + multiset{sc}) && key !in s.modSent
    ensures Balanced(s.(modSent := s.modSent[key := sc]), owed)
  {
    var after := s.(modSent := s.modSent[key := sc]);
    forall other
      ensures Count(after, other) == Holders(after, other) + owed[other]
    {
      UsesAdd(s.modSent, key, sc, other);
      assert Count(s, other) == Holders(s, other) + (owed + multiset{sc})[other];
    }
  }

  lemma ForgetModifier(s: State, owed: multiset<Scancode>, key: ModifierKey)
    requires Balanced(s, owed) && key in s.modSent
    ensures Balanced(s.(modSent := s.modSent - {key}), owed + multiset{s.modSent[key]})
  {
    var after := s.(modSent := s.modSent - {key});
    forall other
      ensures Count(after, other) == Holders(after, other) + (owed + multiset{s.modSent[key]})[other]
    {
      UsesRemove(s.modSent, key, other);
      assert Count(s, other) == Holders(s, other) + owed[other];
    }
  }

  lemma RecordKey(s: State, owed: multiset<Scancode>, kvk: u16, sc: Scancode)
    requires Balanced(s, owed + multiset{sc}) && kvk !in s.heldKeys
    ensures Balanced(s.(heldKeys := s.heldKeys[kvk := sc]), owed)
  {
    var after := s.(heldKeys := s.heldKeys[kvk := sc]);
    forall other
      ensures Count(after, other) == Holders(after, other) + owed[other]
    {
      UsesAdd(s.heldKeys, kvk, sc, other);
      assert Count(s, other) == Holders(s, other) + (owed + multiset{sc})[other];
    }
  }

  lemma ForgetKey(s: State, owed: multiset<Scancode>, kvk: u16)
    requires Balanced(s, owed) && kvk in s.heldKeys
    ensures Balanced(s.(heldKeys := s.heldKeys - {kvk}), owed + multiset{s.heldKeys[kvk]})
  {
    var after := s.(heldKeys := s.heldKeys - {kvk});
    forall other
      ensures Count(after, other) == Holders(after, other) + (owed + multiset{s.heldKeys[kvk]})[other]
    {
      UsesRemove(s.heldKeys, kvk, other);
      assert Count(s, other) == Holders(s, other) + owed[other];
    }
  }

  // ----- modifier transitions ---------------------------------------------------------------

  lemma PressRecordedGood(w: Work, start: Remote, key: ModifierKey)
    requires Good(w, start, multiset{}) && key !in w.s.modSent
    ensures var r := PressRecorded(w, key);
      && Good(r, start, multiset{})
      && r.s == w.s.(pressed := r.s.pressed, modSent := w.s.modSent[key := ModifierScancode(key, w.s.keyboard, w.s.prefs)])
  {
    var sc := ModifierScancode(key, w.s.keyboard, w.s.prefs);
    PressGood(w, start, multiset{}, sc);
    RecordModifier(Press(w, sc).s, multiset{}, key, sc);
  }

  /** Only the sent and deferred modifiers, and the wire counts, differ. */
  ghost predicate OnlyModifiers(before: State, after: State) {
    after == before.(pressed := after.pressed, modSent := after.modSent,
                     cmdPending := after.cmdPending, cmdConsumed := after.cmdConsumed)
  }

  /** Which Command keys are deferred or consumed is no matter of the wire. */
  lemma DeferringGood(w: Work, start: Remote, pending: set<ModifierKey>, consumed: set<ModifierKey>)
    requires Good(w, start, multiset{})
    ensures Good(w.(s := w.s.(cmdPending := pending, cmdConsumed := consumed)), start, multiset{})
  {
    var after := w.s.(cmdPending := pending, cmdConsumed := consumed);
    forall sc ensures Count(after, sc) == Holders(after, sc) + multiset{}[sc] {
      assert Count(w.s, sc) == Holders(w.s, sc) + multiset{}[sc];
    }
  }

  lemma PressModifierGood(w: Work, start: Remote, held: set<ModifierKey>, key: ModifierKey)
    requires Good(w, start, multiset{}) && ModsMatch(w.s, held) && key !in held
    ensures var r := PressModifier(w, key);
      && Good(r, start, multiset{}) && ModsMatch(r.s, held + {key})
      && OnlyModifiers(w.s, r.s)
  {
    if key.IsCommand() {
      DeferringGood(w, start, w.s.cmdPending + {key}, w.s.cmdConsumed - {key});
    } else {
      PressRecordedGood(w, start, key);
    }
  }

  lemma ReleaseModifierGood(w: Work, start: Remote, held: set<ModifierKey>, key: ModifierKey)
    requires Good(w, start, multiset{}) && ModsMatch(w.s, held) && key in held
    ensures var r := ReleaseModifier(w, key);
      && Good(r, start, multiset{}) && ModsMatch(r.s, held - {key})
      && OnlyModifiers(w.s, r.s)
  {
    if key in w.s.cmdPending {
      TapGood(w, start, held, key);
    } else {
      ForgetModifier(w.s, multiset{}, key);
      var sc := w.s.modSent[key];
      ReleaseGood(w.(s := w.s.(modSent := w.s.modSent - {key})), start, multiset{sc}, sc);
    }
  }

  /** A deferred Command key is dropped, after a tap unless the menu consumed it. */
  lemma TapGood(w: Work, start: Remote, held: set<ModifierKey>, key: ModifierKey)
    requires Good(w, start, multiset{}) && ModsMatch(w.s, held) && key in w.s.cmdPending
    ensures var r := ReleaseModifier(w, key);
      && Good(r, start, multiset{}) && ModsMatch(r.s, held - {key})
      && OnlyModifiers(w.s, r.s)
  {
    var dropped := w.(s := w.s.(cmdPending := w.s.cmdPending - {key}, cmdConsumed := w.s.cmdConsumed - {key}));
    DeferringGood(w, start, w.s.cmdPending - {key}, w.s.cmdConsumed - {key});
    assert ModsMatch(dropped.s, held - {key});
    if key !in w.s.cmdConsumed {
      var sc := ModifierScancode(key, w.s.keyboard, w.s.prefs);
      PressGood(dropped, start, multiset{}, sc);
      ReleaseGood(Press(dropped, sc), start, multiset{sc}, sc);
    }
  }

  ghost predicate Distinct<T(!new)>(keys: seq<T>) {
    forall i, j :: 0 <= i < j < |keys| ==> keys[i] != keys[j]
  }

  ghost function Elements<T>(keys: seq<T>): set<T> {
    set key | key in keys
  }

  lemma {:induction false} PickMeaning<T(!new)>(keys: seq<T>, chosen: set<T>)
    ensures Elements(Pick(keys, chosen)) == Elements(keys) * chosen
    ensures Distinct(keys) ==> Distinct(Pick(keys, chosen))
  {
    if keys == [] {
    } else {
      var n := |keys| - 1;
      PickMeaning(keys[..n], chosen);
      var init := Pick(keys[..n], chosen);
      assert Elements(keys) == Elements(keys[..n]) + {keys[n]};
      assert Elements(init + [keys[n]]) == Elements(init) + {keys[n]};
      assert init + [] == init;
      if Distinct(keys) {
        assert keys[n] !in keys[..n];
        assert forall i :: 0 <= i < |init| ==> init[i] in Elements(init);
      }
    }
  }

  lemma {:induction false} PressEachGood(w: Work, start: Remote, held: set<ModifierKey>, keys: seq<ModifierKey>)
    requires Good(w, start, multiset{}) && ModsMatch(w.s, held)
    requires Distinct(keys) && Elements(keys) !! held
    ensures var r := PressEach(w, keys);
      && Good(r, start, multiset{}) && ModsMatch(r.s, held + Elements(keys))
      && OnlyModifiers(w.s, r.s)
  {
    if keys == [] {
      assert held + Elements(keys) == held;
    } else {
      var n := |keys| - 1;
      assert Elements(keys) == Elements(keys[..n]) + {keys[n]};
      assert keys[n] in keys && keys[n] !in keys[..n];
      PressEachGood(w, start, held, keys[..n]);
      PressModifierGood(PressEach(w, keys[..n]), start, held + Elements(keys[..n]), keys[n]);
      assert held + Elements(keys) == held + Elements(keys[..n]) + {keys[n]};
    }
  }

  lemma {:induction false} ReleaseEachGood(w: Work, start: Remote, held: set<ModifierKey>, keys: seq<ModifierKey>)
    requires Good(w, start, multiset{}) && ModsMatch(w.s, held)
    requires Distinct(keys) && Elements(keys) <= held
    ensures var r := ReleaseEach(w, keys);
      && Good(r, start, multiset{}) && ModsMatch(r.s, held - Elements(keys))
      && OnlyModifiers(w.s, r.s)
  {
    if keys == [] {
      assert held - Elements(keys) == held;
    } else {
      var n := |keys| - 1;
      assert Elements(keys) == Elements(keys[..n]) + {keys[n]};
      assert keys[n] in keys && keys[n] !in keys[..n];
      ReleaseEachGood(w, start, held, keys[..n]);
      ReleaseModifierGood(ReleaseEach(w, keys[..n]), start, held - Elements(keys[..n]), keys[n]);
      assert held - Elements(keys) == held - Elements(keys[..n]) - {keys[n]};
    }
  }

  lemma AllModifiers()
    ensures Distinct(ALL_MODIFIERS) && Distinct(Reversed(ALL_MODIFIERS))
    ensures forall key: ModifierKey :: key in Elements(ALL_MODIFIERS) && key in Elements(Reversed(ALL_MODIFIERS))
  {
    forall key: ModifierKey
      ensures key in Elements(ALL_MODIFIERS) && key in Elements(Reversed(ALL_MODIFIERS))
    {
      var i := match key
        case LeftShift => 0 case RightShift => 1 case LeftControl => 2 case RightControl => 3
        case LeftOption => 4 case RightOption => 5 case LeftCommand => 6 case RightCommand => 7;
      assert ALL_MODIFIERS[i] == key;
      assert Reversed(ALL_MODIFIERS)[7 - i] == key;
    }
    var rev := Reversed(ALL_MODIFIERS);
    forall i, j | 0 <= i < j < |rev|
      ensures rev[i] != rev[j]
    {
      assert ALL_MODIFIERS[7 - i] != ALL_MODIFIERS[7 - j];
    }
  }

  /** A modifier update leaves exactly the held modifiers sent or, for Command, deferred. */
  lemma ApplyModifiersGood(w: Work, start: Remote, flags: Flags, changed: Option<u16>)
    requires Good(w, start, multiset{}) && ModsMatch(w.s, w.s.mods)
    ensures var r := ApplyModifiers(w, flags, changed);
      && Good(r, start, multiset{}) && ModsMatch(r.s, r.s.mods)
      && r.s.mods == Held(flags, changed, w.s.mods)
      && r.s == w.s.(mods := r.s.mods, pressed := r.s.pressed, modSent := r.s.modSent,
                     cmdPending := r.s.cmdPending, cmdConsumed := r.s.cmdConsumed)
  {
    var mods, held := w.s.mods, Held(flags, changed, w.s.mods);
    AllModifiers();
    var gone, come := Pick(Reversed(ALL_MODIFIERS), mods - held), Pick(ALL_MODIFIERS, held - mods);
    PickMeaning(Reversed(ALL_MODIFIERS), mods - held);
    PickMeaning(ALL_MODIFIERS, held - mods);
    assert Elements(gone) == mods - held && Elements(come) == held - mods;
    ReleaseEachGood(w, start, mods, gone);
    var released := ReleaseEach(w, gone);
    PressEachGood(released, start, mods - Elements(gone), come);
    assert mods - Elements(gone) + Elements(come) == held;
  }

  lemma SyncCapsGood(w: Work, start: Remote, flags: Flags, force: bool)
    requires Good(w, start, multiset{}) && ModsMatch(w.s, w.s.mods)
    ensures var r := SyncCaps(w, flags, force);
      && Good(r, start, multiset{}) && ModsMatch(r.s, r.s.mods)
      && r.s == w.s.(caps := r.s.caps)
  {
    ReplayAppend(start, w.out, SyncToggles(CAPS_LOCK in flags, true));
    var r := SyncCaps(w, flags, force);
    forall sc ensures Count(r.s, sc) == Holders(r.s, sc) + multiset{}[sc] {
      assert Count(w.s, sc) == Holders(w.s, sc) + multiset{}[sc];
    }
  }

  /** Recording presses changes the wire counts and the sent modifiers. */
  lemma {:induction false} RecordEachShape(w: Work, keys: seq<ModifierKey>)
    ensures var r := RecordEach(w, keys);
      && r.s == w.s.(pressed := r.s.pressed, modSent := r.s.modSent)
      && r.s.modSent.Keys == w.s.modSent.Keys + Elements(keys)
  {
    if keys == [] {
      assert w.s.modSent.Keys + Elements(keys) == w.s.modSent.Keys;
    } else {
      var n := |keys| - 1;
      RecordEachShape(w, keys[..n]);
      assert Elements(keys) == Elements(keys[..n]) + {keys[n]};
      assert w.s.modSent.Keys + Elements(keys) == w.s.modSent.Keys + Elements(keys[..n]) + {keys[n]};
    }
  }

  lemma {:induction false} RecordEachKeepsGood(w: Work, start: Remote, keys: seq<ModifierKey>)
    requires Good(w, start, multiset{})
    requires Distinct(keys) && Elements(keys) !! w.s.modSent.Keys
    ensures Good(RecordEach(w, keys), start, multiset{})
  {
    if keys == [] {
    } else {
      var n := |keys| - 1;
      assert Elements(keys) == Elements(keys[..n]) + {keys[n]};
      assert keys[n] in keys && keys[n] !in keys[..n];
      RecordEachKeepsGood(w, start, keys[..n]);
      RecordEachShape(w, keys[..n]);
      PressRecordedGood(RecordEach(w, keys[..n]), start, keys[n]);
    }
  }

  lemma RecordEachGood(w: Work, start: Remote, keys: seq<ModifierKey>)
    requires Good(w, start, multiset{})
    requires Distinct(keys) && Elements(keys) !! w.s.modSent.Keys
    ensures var r := RecordEach(w, keys);
      && Good(r, start, multiset{})
      && r.s == w.s.(pressed := r.s.pressed, modSent := r.s.modSent)
      && r.s.modSent.Keys == w.s.modSent.Keys + Elements(keys)
  {
    RecordEachShape(w, keys);
    RecordEachKeepsGood(w, start, keys);
  }

  lemma FlushCommandGood(w: Work, start: Remote)
    requires Good(w, start, multiset{}) && ModsMatch(w.s, w.s.mods)
    ensures var r := FlushCommand(w);
      && Good(r, start, multiset{}) && ModsMatch(r.s, r.s.mods)
      && r.s.cmdPending == {} && OnlyModifiers(w.s, r.s)
  {
    AllModifiers();
    PickMeaning(ALL_MODIFIERS, w.s.cmdPending);
    var keys := Pick(ALL_MODIFIERS, w.s.cmdPending);
    assert Elements(keys) == w.s.cmdPending;
    RecordEachGood(w, start, keys);
  }

  lemma PressKeyGood(w: Work, start: Remote, kvk: u16, sc: Scancode)
    requires Good(w, start, multiset{}) && ModsMatch(w.s, w.s.mods)
    requires kvk !in w.s.heldKeys && kvk <= KVK_LAST && !IsModifier(kvk)
    ensures var p := Press(FlushCommand(w), sc);
      var r := p.(s := p.s.(heldKeys := p.s.heldKeys[kvk := sc]));
      Good(r, start, multiset{}) && ModsMatch(r.s, r.s.mods)
  {
    FlushCommandGood(w, start);
    var flushed := FlushCommand(w);
    PressGood(flushed, start, multiset{}, sc);
    RecordKey(Press(flushed, sc).s, multiset{}, kvk, sc);
  }

  lemma KeyDownGood(s: State, start: Remote, kvk: u16, flags: Flags)
    requires Good(Work(s, []), start, multiset{}) && ModsMatch(s, s.mods)
    ensures var r := OnKeyDownScancode(s, kvk, flags);
      Good(r, start, multiset{}) && ModsMatch(r.s, r.s.mods)
  {
    var synced := SyncCaps(Work(s, []), flags, false);
    SyncCapsGood(Work(s, []), start, flags, false);
    ApplyModifiersGood(synced, start, flags, None);
    var w := ApplyModifiers(synced, flags, None);
    var found := ScancodeFor(kvk, w.s.keyboard, w.s.prefs.cmdAs);
    if !IsModifier(kvk) && kvk !in w.s.heldKeys && found.Some? {
      PressKeyGood(w, start, kvk, found.value);
    }
  }

  lemma KeyUpGood(s: State, start: Remote, kvk: u16)
    requires Good(Work(s, []), start, multiset{}) && ModsMatch(s, s.mods)
    ensures var r := OnKeyUp(s, kvk);
      Good(r, start, multiset{}) && ModsMatch(r.s, r.s.mods)
  {
    if kvk in s.heldKeys {
      ForgetKey(s, multiset{}, kvk);
      var sc := s.heldKeys[kvk];
      ReleaseGood(Work(s.(heldKeys := s.heldKeys - {kvk}), []), start, multiset{sc}, sc);
    }
  }

  // ----- injected text and focus ------------------------------------------------------------

  lemma {:induction false} ReplayKeyEvents(r: Remote, scs: seq<Scancode>, down: bool)
    requires Distinct(scs)
    requires if down then Elements(scs) !! r.keys else Elements(scs) <= r.keys
    ensures Replay(r, KeyEvents(scs, down))
         == Some(r.(keys := if down then r.keys + Elements(scs) else r.keys - Elements(scs)))
  {
    if scs == [] {
      assert r.keys + Elements(scs) == r.keys && r.keys - Elements(scs) == r.keys;
    } else {
      var n := |scs| - 1;
      assert Elements(scs) == Elements(scs[..n]) + {scs[n]};
      assert scs[n] in scs && scs[n] !in scs[..n];
      ReplayKeyEvents(r, scs[..n], down);
      assert KeyEvents(scs, down) == KeyEvents(scs[..n], down) + [KeyEvent(scs[n], down)];
      ReplayAppend(r, KeyEvents(scs[..n], down), KeyEvent(scs[n], down));
      assert r.keys + Elements(scs) == r.keys + Elements(scs[..n]) + {scs[n]};
      assert r.keys - Elements(scs) == r.keys - Elements(scs[..n]) - {scs[n]};
    }
  }

  lemma ReplayTap(r: Remote, unit: u16)
    requires r.units == {} && forall sc <- r.keys :: !TextLevel(sc)
    ensures Replay(r, TapUnit(unit)) == Some(r)
  {
    ReplayAppend(r, [], UnicodeEvent(unit, true));
    ReplayAppend(r, [UnicodeEvent(unit, true)], UnicodeEvent(unit, false));
    assert [] + [UnicodeEvent(unit, true)] == [UnicodeEvent(unit, true)];
    assert {unit} - {unit} == {};
  }

  lemma ReplayChar(r: Remote, c: char)
    requires r.units == {} && forall sc <- r.keys :: !TextLevel(sc)
    ensures Replay(r, CharEvents(c)) == Some(r)
  {
    if Typed(c) {
      var units := EncodeChar(c);
      ReplayTap(r, units[0]);
      if |units| == 2 {
        ReplayTap(r, units[1]);
        ReplayConcat(r, TapUnit(units[0]), TapUnit(units[1]));
      }
    }
  }

  lemma {:induction false} ReplayText(r: Remote, text: string)
    requires r.units == {} && forall sc <- r.keys :: !TextLevel(sc)
    ensures Replay(r, TextEvents(text)) == Some(r)
  {
    if text == [] {
    } else {
      ReplayChar(r, text[0]);
      ReplayText(r, text[1..]);
      ReplayConcat(r, CharEvents(text[0]), TextEvents(text[1..]));
    }
  }

  lemma TextLevelScancodes(sc: Scancode)
    ensures sc in Elements(TEXT_LEVEL_MODIFIERS) <==> TextLevel(sc)
  {
    var scs := TEXT_LEVEL_MODIFIERS;
    assert scs[0] == Make(0x2A) && scs[1] == Make(0x36) && scs[2] == Make(0x38) && scs[3] == Ext(0x38);
  }

  /** Text-level modifiers are lifted around the text and put back: the remote ends as it began. */
  lemma InsertTextGood(s: State, start: Remote, text: string)
    requires start == Remote(s.pressed.Keys, {})
    ensures Faithful(OnInsertText(s, text), start)
  {
    var typed := TextEvents(text);
    if typed != [] {
      var lifted := Pick(TEXT_LEVEL_MODIFIERS, s.pressed.Keys);
      PickMeaning(TEXT_LEVEL_MODIFIERS, s.pressed.Keys);
      var bare := start.(keys := start.keys - Elements(lifted));
      ReplayKeyEvents(start, lifted, false);
      forall sc <- bare.keys ensures !TextLevel(sc) {
        TextLevelScancodes(sc);
      }
      ReplayText(bare, text);
      ReplayKeyEvents(bare, lifted, true);
      ReplayConcat(start, KeyEvents(lifted, false), typed);
      ReplayConcat(start, KeyEvents(lifted, false) + typed, KeyEvents(lifted, true));
      assert bare.keys + Elements(lifted) == start.keys;
    }
  }

  lemma AllScancodesMeaning()
    ensures Distinct(AllScancodes())
    ensures forall sc: Scancode :: sc in Elements(AllScancodes())
  {
    forall sc: Scancode ensures sc in Elements(AllScancodes()) {
      assert AllScancodes()[2 * sc.code + if sc.extended then 1 else 0] == sc;
    }
  }

  /** Losing focus releases exactly the pressed scancodes, once each. */
  lemma FocusLostGood(s: State, start: Remote)
    requires start == Remote(s.pressed.Keys, {})
    ensures var r := OnFocusLost(s);
      && Faithful(r, start) && Inv(r.s) && r.s.pressed == map[]
      && Replay(start, r.out) == Some(Remote({}, {}))
  {
    AllScancodesMeaning();
    PickMeaning(AllScancodes(), s.pressed.Keys);
    var scs := Pick(AllScancodes(), s.pressed.Keys);
    assert Elements(scs) == s.pressed.Keys;
    ReplayKeyEvents(start, scs, false);
    assert start.keys - Elements(scs) == {};
    assert OnFocusLost(s).s.pressed.Keys == {};
  }

  lemma {:induction false} PressScancodesGood(w: Work, start: Remote, scs: seq<Scancode>)
    requires Good(w, start, multiset{}) && |scs| <= 100
    ensures var r := PressScancodes(w, scs);
      Good(r, start, multiset(scs)) && r.s == w.s.(pressed := r.s.pressed)
  {
    if scs == [] {
    } else {
      var n := |scs| - 1;
      assert scs[..n] + [scs[n]] == scs;
      PressScancodesGood(w, start, scs[..n]);
      AtMost(multiset(scs[..n]), scs[n]);
      PressGood(PressScancodes(w, scs[..n]), start, multiset(scs[..n]), scs[n]);
    }
  }

  lemma AtMost(owed: multiset<Scancode>, sc: Scancode)
    ensures owed[sc] <= |owed|
  {
    assert owed == owed[sc := 0] + multiset{}[sc := owed[sc]];
  }

  lemma {:induction false} ReleaseScancodesGood(w: Work, start: Remote, owed: multiset<Scancode>, scs: seq<Scancode>)
    requires Good(w, start, owed) && multiset(scs) <= owed
    ensures var r := ReleaseScancodes(w, scs);
      Good(r, start, owed - multiset(scs)) && r.s == w.s.(pressed := r.s.pressed)
  {
    if scs == [] {
      assert owed - multiset(scs) == owed;
    } else {
      var n := |scs| - 1;
      assert scs[..n] + [scs[n]] == scs;
      ReleaseScancodesGood(w, start, owed, scs[..n]);
      ReleaseGood(ReleaseScancodes(w, scs[..n]), start, owed - multiset(scs[..n]), scs[n]);
      assert owed - multiset(scs) == owed - multiset(scs[..n]) - multiset{scs[n]};
    }
  }

  lemma ReversedThree()
    ensures multiset(Reversed(CTRL_ALT_DEL)) == multiset(CTRL_ALT_DEL)
  {
    assert Reversed(CTRL_ALT_DEL) == [CTRL_ALT_DEL[2], CTRL_ALT_DEL[1], CTRL_ALT_DEL[0]];
  }

  lemma CtrlAltDelGood(w: Work, start: Remote)
    requires Good(w, start, multiset{}) && ModsMatch(w.s, w.s.mods)
    ensures var r := ReleaseScancodes(PressScancodes(w, CTRL_ALT_DEL), Reversed(CTRL_ALT_DEL));
      Good(r, start, multiset{}) && r.s == w.s.(pressed := r.s.pressed)
  {
    PressScancodesGood(w, start, CTRL_ALT_DEL);
    var rev := Reversed(CTRL_ALT_DEL);
    ReversedThree();
    ReleaseScancodesGood(PressScancodes(w, CTRL_ALT_DEL), start, multiset(CTRL_ALT_DEL), rev);
    assert multiset(CTRL_ALT_DEL) - multiset(rev) == multiset{};
  }

  // ----- runs -------------------------------------------------------------------------------

  /** The invariant holds again, and the remote accepted everything sent. */
  ghost predicate Keeps(s: State, r: Work) {
    Inv(r.s) && Replay(Remote(s.pressed.Keys, {}), r.out) == Some(Remote(r.s.pressed.Keys, {}))
  }

  lemma GoodKeeps(s: State, r: Work)
    requires Good(r, Remote(s.pressed.Keys, {}), multiset{}) && ModsMatch(r.s, r.s.mods)
    ensures Keeps(s, r)
  {
  }

  lemma SilentKeeps(s: State, r: State)
    requires Inv(s) && r.heldKeys == s.heldKeys && r.modSent == s.modSent && r.pressed == s.pressed
    requires ModsMatch(r, r.mods)
    ensures Keeps(s, Work(r, []))
  {
    SameHolders(s, r);
  }

  lemma UpdateKeeps(s: State, flags: Flags, force: bool, changed: Option<u16>)
    requires Inv(s)
    ensures Keeps(s, ApplyModifiers(SyncCaps(Work(s, []), flags, force), flags, changed))
  {
    var start := Remote(s.pressed.Keys, {});
    SyncCapsGood(Work(s, []), start, flags, force);
    ApplyModifiersGood(SyncCaps(Work(s, []), flags, force), start, flags, changed);
    GoodKeeps(s, ApplyModifiers(SyncCaps(Work(s, []), flags, force), flags, changed));
  }

  lemma KeyDownKeeps(s: State, kvk: u16, flags: Flags)
    requires Inv(s)
    ensures Keeps(s, OnKeyDownScancode(s, kvk, flags))
  {
    KeyDownGood(s, Remote(s.pressed.Keys, {}), kvk, flags);
    GoodKeeps(s, OnKeyDownScancode(s, kvk, flags));
  }

  /** One input keeps the invariant, and the remote accepts everything it sends. */
  lemma StepGood(s: State, input: Input)
    requires Inv(s)
    ensures Keeps(s, Step(s, input))
  {
    var start, w := Remote(s.pressed.Keys, {}), Work(s, []);
    match input
    case FlagsChanged(kvk, flags) => UpdateKeeps(s, flags, kvk == KVK_CAPS_LOCK, Some(kvk));
    case KeyDown(kvk, flags, _, _) =>
      KeyDownKeeps(s, kvk, flags);
      SilentKeeps(s, s);
    case KeyDownScancode(kvk, flags) => KeyDownKeeps(s, kvk, flags);
    case KeyUp(kvk) =>
      KeyUpGood(s, start, kvk);
      GoodKeeps(s, OnKeyUp(s, kvk));
    case InsertText(text) => InsertTextGood(s, start, text);
    case FocusLost => FocusLostGood(s, start);
    case FocusGained(flags) => UpdateKeeps(s, flags, true, None);
    case PreparePointerButton =>
      FlushCommandGood(w, start);
      GoodKeeps(s, FlushCommand(w));
    case CtrlAltDel =>
      CtrlAltDelGood(w, start);
      GoodKeeps(s, Step(s, CtrlAltDel));
    case _ => SilentKeeps(s, Step(s, input).s);
  }

  lemma SameHolders(s: State, r: State)
    requires Balanced(s, multiset{})
    requires r.heldKeys == s.heldKeys && r.modSent == s.modSent && r.pressed == s.pressed
    ensures Balanced(r, multiset{})
  {
    forall sc ensures Count(r, sc) == Holders(r, sc) {
      assert Count(s, sc) == Holders(s, sc) + multiset{}[sc];
    }
  }

  ghost function Run(s: State, inputs: seq<Input>): Work {
    if inputs == [] then
      Work(s, [])
    else
      var before := Run(s, inputs[..|inputs| - 1]);
      var after := Step(before.s, inputs[|inputs| - 1]);
      Work(after.s, before.out + after.out)
  }

  /**
   Over every run: the remote accepts the whole event stream, its pressed set is `pressed`, and
   each count is the number of held keys and sent modifiers on that scancode, at most 135.
   */
  lemma {:induction false} EveryRunIsFaithful(prefs: Prefs, keyboard: KeyboardType, inputs: seq<Input>)
    ensures var w := Run(Initial(prefs, keyboard), inputs);
      && Replay(Remote({}, {}), w.out) == Some(Remote(w.s.pressed.Keys, {}))
      && Inv(w.s)
      && (forall sc <- w.s.pressed :: w.s.pressed[sc] == Holders(w.s, sc) && 0 < w.s.pressed[sc] <= 135)
  {
    var s := Initial(prefs, keyboard);
    if inputs == [] {
      assert s.pressed.Keys == {};
    } else {
      var init := inputs[..|inputs| - 1];
      EveryRunIsFaithful(prefs, keyboard, init);
      var before := Run(s, init);
      StepGood(before.s, inputs[|inputs| - 1]);
      ReplayConcat(Remote({}, {}), before.out, Step(before.s, inputs[|inputs| - 1]).out);
    }
    var w := Run(s, inputs);
    forall sc <- w.s.pressed
      ensures w.s.pressed[sc] == Holders(w.s, sc) && 0 < w.s.pressed[sc] <= 135
    {
      assert Count(w.s, sc) == Holders(w.s, sc) + multiset{}[sc];
      FewHolders(w.s, sc);
    }
  }

  // ----- what single inputs achieve ---------------------------------------------------------

  /**
   After any modifier update exactly the keys the flags stand for are held; every held modifier
   other than Command has a recorded press the remote knows, and each held Command key is either
   deferred or pressed, never both.
   */
  lemma ModifiersFollowFlags(s: State, kvk: u16, flags: Flags)
    requires Inv(s)
    ensures var r := Step(s, FlagsChanged(kvk, flags)).s;
      && r.mods == Held(flags, Some(kvk), s.mods)
      && r.heldKeys == s.heldKeys
      && forall key: ModifierKey ::
           && (!key.IsCommand() ==> (key in r.mods <==> key in r.modSent))
           && (key.IsCommand() ==> (key in r.mods <==> (key in r.modSent) != (key in r.cmdPending)))
           && (key in r.modSent ==> r.modSent[key] in r.pressed)
  {
    var start, w := Remote(s.pressed.Keys, {}), Work(s, []);
    SyncCapsGood(w, start, flags, kvk == KVK_CAPS_LOCK);
    ApplyModifiersGood(SyncCaps(w, flags, kvk == KVK_CAPS_LOCK), start, flags, Some(kvk));
    var r := Step(s, FlagsChanged(kvk, flags)).s;
    forall key: ModifierKey | key in r.modSent ensures r.modSent[key] in r.pressed {
      assert key in Uses(r.modSent, r.modSent[key]);
      assert Count(r, r.modSent[key]) == Holders(r, r.modSent[key]) + multiset{}[r.modSent[key]];
    }
  }

  /** The state in which a key is pressed: the modifiers follow the flags, and none is deferred. */
  lemma BeforeKeyDown(s: State, flags: Flags)
    requires Inv(s)
    ensures var r := FlushCommand(ApplyModifiers(SyncCaps(Work(s, []), flags, false), flags, None)).s;
      && r.mods == Held(flags, None, s.mods) == r.modSent.Keys && r.cmdPending == {}
    ensures var w := ApplyModifiers(SyncCaps(Work(s, []), flags, false), flags, None).s;
      w.heldKeys == s.heldKeys && w.keyboard == s.keyboard && w.prefs == s.prefs
  {
    var start, synced := Remote(s.pressed.Keys, {}), SyncCaps(Work(s, []), flags, false);
    SyncCapsGood(Work(s, []), start, flags, false);
    ApplyModifiersGood(synced, start, flags, None);
    FlushCommandGood(ApplyModifiers(synced, flags, None), start);
  }

  lemma FlushKeepsKeys(w: Work)
    ensures FlushCommand(w).s.heldKeys == w.s.heldKeys
  {
    RecordEachShape(w, Pick(ALL_MODIFIERS, w.s.cmdPending));
  }

  /** A key press is recorded with its scancode, reaches the remote, and leaves no Command deferred. */
  lemma KeyDownPresses(s: State, kvk: u16, flags: Flags)
    requires Inv(s) && !IsModifier(kvk) && kvk !in s.heldKeys
    requires ScancodeFor(kvk, s.keyboard, s.prefs.cmdAs).Some?
    ensures var r := Step(s, KeyDownScancode(kvk, flags)).s;
      var sc := ScancodeFor(kvk, s.keyboard, s.prefs.cmdAs).value;
      && r.heldKeys == s.heldKeys[kvk := sc]
      && sc in r.pressed
      && r.mods == Held(flags, None, s.mods) == r.modSent.Keys
      && r.cmdPending == {}
  {
    BeforeKeyDown(s, flags);
    FlushKeepsKeys(ApplyModifiers(SyncCaps(Work(s, []), flags, false), flags, None));
  }

  /** A key release is forgotten, and reaches the remote exactly when nothing else holds the scancode. */
  lemma KeyUpReleases(s: State, kvk: u16)
    requires Inv(s) && kvk in s.heldKeys
    ensures var r, sc := Step(s, KeyUp(kvk)), s.heldKeys[kvk];
      && r.s == s.(heldKeys := s.heldKeys - {kvk}, pressed := r.s.pressed)
      && r.out == (if Holders(s, sc) == 1 then [KeyEvent(sc, false)] else [])
      && (sc in r.s.pressed <==> Holders(s, sc) > 1)
  {
    var sc := s.heldKeys[kvk];
    assert kvk in Uses(s.heldKeys, sc);
    assert Count(s, sc) == Holders(s, sc) + multiset{}[sc];
  }

  lemma SameCountsSamePressed(a: State, b: State)
    requires Balanced(a, multiset{}) && Balanced(b, multiset{})
    requires a.heldKeys == b.heldKeys && a.modSent == b.modSent
    ensures a.pressed == b.pressed
  {
    forall sc: Scancode
      ensures sc in a.pressed <==> sc in b.pressed
      ensures sc in a.pressed ==> a.pressed[sc] == b.pressed[sc]
    {
      assert Count(a, sc) == Holders(a, sc) + multiset{}[sc];
      assert Count(b, sc) == Holders(b, sc) + multiset{}[sc];
    }
  }

  /** "Send Ctrl+Alt+Del" leaves the translator as it was, whatever is held. */
  lemma CtrlAltDelLeavesNoTrace(s: State)
    requires Inv(s)
    ensures Step(s, CtrlAltDel).s == s
  {
    CtrlAltDelGood(Work(s, []), Remote(s.pressed.Keys, {}));
    SameCountsSamePressed(s, Step(s, CtrlAltDel).s);
  }
}
