/** The keyboard translator itself: mutable key state, refined to `KeyboardSpec.Step`. */
module Keyboard {
  import opened Prelude
  import opened Keymap
  import opened Modifiers
  import opened KeyboardSpec
  import KeyboardRuns

  /** Picking from one more key. */
  lemma PickNext<T>(keys: seq<T>, chosen: set<T>, i: nat)
    requires i < |keys|
    ensures Pick(keys[..i + 1], chosen) == Pick(keys[..i], chosen) + if keys[i] in chosen then [keys[i]] else []
  {
    assert keys[..i + 1][..i] == keys[..i];
  }

  class Translator {
    var prefs: Prefs
    var keyboard: KeyboardType
    var mods: set<ModifierKey>
    var modSent: map<ModifierKey, Scancode>
    var cmdPending: set<ModifierKey>
    var cmdConsumed: set<ModifierKey>
    var heldKeys: map<u16, Scancode>
    var pressed: map<Scancode, u8>
    var caps: Option<bool>

    ghost function Value(): State
      reads this
    {
      State(prefs, keyboard, mods, modSent, cmdPending, cmdConsumed, heldKeys, pressed, caps)
    }

    constructor (prefs: Prefs, keyboard: KeyboardType)
      ensures Value() == Initial(prefs, keyboard) && KeyboardRuns.Inv(Value())
    {
      this.prefs, this.keyboard := prefs, keyboard;
      mods, cmdPending, cmdConsumed := {}, {}, {};
      modSent, heldKeys, pressed := map[], map[], map[];
      caps := None;
    }

    method PressScancode(sc: Scancode, sent: seq<InputEvent>) returns (out: seq<InputEvent>)
      modifies this`pressed
      ensures Work(Value(), out) == Press(Work(old(Value()), sent), sc)
    {
      out := sent;
      var count := if sc in pressed then pressed[sc] else 0;
      if count == 0 {
        out := out + [KeyEvent(sc, true)];
      }
      pressed := pressed[sc := Min(count as int + 1, U8_MAX)];
    }

    method ReleaseScancode(sc: Scancode, sent: seq<InputEvent>) returns (out: seq<InputEvent>)
      modifies this`pressed
      ensures Work(Value(), out) == Release(Work(old(Value()), sent), sc)
    {
      out := sent;
      if sc in pressed {
        var count := Max(pressed[sc] as int - 1, 0);
        if count == 0 {
          pressed := pressed - {sc};
          out := out + [KeyEvent(sc, false)];
        } else {
          pressed := pressed[sc := count];
        }
      }
    }

    method PressModifierKey(key: ModifierKey, sent: seq<InputEvent>) returns (out: seq<InputEvent>)
      modifies this
      ensures Work(Value(), out) == PressModifier(Work(old(Value()), sent), key)
    {
      out := sent;
      if key.IsCommand() {
        cmdPending := cmdPending + {key};
        cmdConsumed := cmdConsumed - {key};
      } else {
        var sc := ModifierScancode(key, keyboard, prefs);
        out := PressScancode(sc, out);
        modSent := modSent[key := sc];
      }
    }

    method ReleaseModifierKey(key: ModifierKey, sent: seq<InputEvent>) returns (out: seq<InputEvent>)
      modifies this
      ensures mods == old(mods)
      ensures Work(Value(), out) == ReleaseModifier(Work(old(Value()), sent), key)
    {
      out := sent;
      if key in cmdPending {
        cmdPending := cmdPending - {key};
        var consumed := key in cmdConsumed;
        cmdConsumed := cmdConsumed - {key};
        if !consumed {
          var sc := ModifierScancode(key, keyboard, prefs);
          out := PressScancode(sc, out);
          out := ReleaseScancode(sc, out);
        }
      } else if key in modSent {
        var sc := modSent[key];
        modSent := modSent - {key};
        out := ReleaseScancode(sc, out);
      }
    }

    /** Releases the modifiers no longer held, last class first. */
    method ReleaseGone(held: set<ModifierKey>, sent: seq<InputEvent>) returns (out: seq<InputEvent>)
      modifies this
      ensures mods == old(mods)
      ensures Work(Value(), out)
           == ReleaseEach(Work(old(Value()), sent), Pick(Reversed(ALL_MODIFIERS), old(mods) - held))
    {
      out := sent;
      ghost var w := Work(Value(), sent);
      ghost var rev, gone := Reversed(ALL_MODIFIERS), mods - held;
      for i := 0 to |ALL_MODIFIERS|
        invariant mods == w.s.mods
        invariant Work(Value(), out) == ReleaseEach(w, Pick(rev[..i], gone))
      {
        var key := ALL_MODIFIERS[|ALL_MODIFIERS| - 1 - i];
        assert key == rev[i];
        PickNext(rev, gone, i);
        AppendEach(w, Pick(rev[..i], gone), key);
        assert key in gone <==> key in mods && key !in held;
        if key in mods && key !in held {
          out := ReleaseModifierKey(key, out);
        }
      }
      assert rev[..|ALL_MODIFIERS|] == rev;
    }

    /** Presses the modifiers newly held. */
    method PressNew(held: set<ModifierKey>, sent: seq<InputEvent>) returns (out: seq<InputEvent>)
      modifies this
      ensures mods == old(mods)
      ensures Work(Value(), out)
           == PressEach(Work(old(Value()), sent), Pick(ALL_MODIFIERS, held - old(mods)))
    {
      out := sent;
      ghost var w := Work(Value(), sent);
      ghost var come := held - mods;
      for i := 0 to |ALL_MODIFIERS|
        invariant mods == w.s.mods
        invariant Work(Value(), out) == PressEach(w, Pick(ALL_MODIFIERS[..i], come))
      {
        var key := ALL_MODIFIERS[i];
        PickNext(ALL_MODIFIERS, come, i);
        AppendEach(w, Pick(ALL_MODIFIERS[..i], come), key);
        if key !in mods && key in held {
          out := PressModifierKey(key, out);
        }
      }
      assert ALL_MODIFIERS[..|ALL_MODIFIERS|] == ALL_MODIFIERS;
    }

    /** Diffs the held modifiers: releases first, then presses. */
    method UpdateModifiers(flags: Flags, changed: Option<u16>, sent: seq<InputEvent>) returns (out: seq<InputEvent>)
      modifies this
      ensures Work(Value(), out) == ApplyModifiers(Work(old(Value()), sent), flags, changed)
    {
      var held := HeldModifiers(flags, changed, mods);
      out := ReleaseGone(held, sent);
      out := PressNew(held, out);
      mods := held;
    }

    /** Afterwards no Command key is deferred: each that was is pressed and recorded. */
    method Flush(sent: seq<InputEvent>) returns (out: seq<InputEvent>)
      modifies this
      ensures Work(Value(), out) == FlushCommand(Work(old(Value()), sent))
    {
      out := sent;
      ghost var w := Work(Value(), sent);
      for i := 0 to |ALL_MODIFIERS|
        invariant cmdPending == w.s.cmdPending
        invariant Work(Value(), out) == RecordEach(w, Pick(ALL_MODIFIERS[..i], w.s.cmdPending))
      {
        var key := ALL_MODIFIERS[i];
        PickNext(ALL_MODIFIERS, w.s.cmdPending, i);
        AppendEach(w, Pick(ALL_MODIFIERS[..i], w.s.cmdPending), key);
        if key in cmdPending {
          var sc := ModifierScancode(key, keyboard, prefs);
          out := PressScancode(sc, out);
          modSent := modSent[key := sc];
        }
      }
      assert ALL_MODIFIERS[..|ALL_MODIFIERS|] == ALL_MODIFIERS;
      cmdPending, cmdConsumed := {}, {};
    }

    method UpdateCaps(flags: Flags, force: bool, sent: seq<InputEvent>) returns (out: seq<InputEvent>)
      modifies this`caps
      ensures Work(Value(), out) == SyncCaps(Work(old(Value()), sent), flags, force)
    {
      out := sent;
      var now := CAPS_LOCK in flags;
      var changed := caps.Some? && caps.value != now;
      if force || changed {
        out := out + [SyncToggles(now, true)];
      }
      caps := Some(now);
    }

    method FlagsChange(kvk: u16, flags: Flags) returns (out: seq<InputEvent>)
      modifies this
      ensures Work(Value(), out) == Step(old(Value()), FlagsChanged(kvk, flags))
    {
      out := UpdateCaps(flags, kvk == KVK_CAPS_LOCK, []);
      out := UpdateModifiers(flags, Some(kvk), out);
    }

    /** `None` means: hand the key to the text input system instead. */
    method KeyDownEvent(kvk: u16, flags: Flags, isRepeat: bool, composing: bool) returns (r: Option<seq<InputEvent>>)
      modifies this
      ensures r.None? <==> RoutedAsText(old(prefs), kvk, flags, composing)
      ensures Work(Value(), if r.Some? then r.value else [])
           == Step(old(Value()), KeyDown(kvk, flags, isRepeat, composing))
    {
      if RoutedAsText(prefs, kvk, flags, composing) {
        return None;
      } else if isRepeat {
        return Some([]);
      } else {
        var out := KeyDownAsScancode(kvk, flags);
        return Some(out);
      }
    }

    method KeyDownAsScancode(kvk: u16, flags: Flags) returns (out: seq<InputEvent>)
      modifies this
      ensures Work(Value(), out) == Step(old(Value()), KeyDownScancode(kvk, flags))
    {
      out := UpdateCaps(flags, false, []);
      out := UpdateModifiers(flags, None, out);
      if IsModifier(kvk) || kvk in heldKeys {
        return;
      }
      var found := ScancodeFor(kvk, keyboard, prefs.cmdAs);
      if found.Some? {
        out := Flush(out);
        out := PressScancode(found.value, out);
        heldKeys := heldKeys[kvk := found.value];
      }
    }

    method KeyUpEvent(kvk: u16) returns (out: seq<InputEvent>)
      modifies this
      ensures Work(Value(), out) == Step(old(Value()), KeyUp(kvk))
    {
      out := [];
      if kvk in heldKeys {
        var sc := heldKeys[kvk];
        heldKeys := heldKeys - {kvk};
        out := ReleaseScancode(sc, out);
      }
    }

    method TypeText(text: string) returns (out: seq<InputEvent>)
      ensures Work(Value(), out) == Step(Value(), InsertText(text))
    {
      var typed := TextEvents(text);
      if typed == [] {
        return typed;
      }
      var lifted := [];
      for i := 0 to |TEXT_LEVEL_MODIFIERS|
        invariant lifted == Pick(TEXT_LEVEL_MODIFIERS[..i], pressed.Keys)
      {
        PickNext(TEXT_LEVEL_MODIFIERS, pressed.Keys, i);
        if TEXT_LEVEL_MODIFIERS[i] in pressed {
          lifted := lifted + [TEXT_LEVEL_MODIFIERS[i]];
        }
      }
      assert TEXT_LEVEL_MODIFIERS[..|TEXT_LEVEL_MODIFIERS|] == TEXT_LEVEL_MODIFIERS;
      return KeyEvents(lifted, false) + typed + KeyEvents(lifted, true);
    }

    method MenuTookShortcut()
      modifies this`cmdConsumed
      ensures Work(Value(), []) == Step(old(Value()), MenuShortcutTaken)
    {
      cmdConsumed := cmdPending;
    }

    method PreparePointer() returns (out: seq<InputEvent>)
      modifies this
      ensures Work(Value(), out) == Step(old(Value()), PreparePointerButton)
    {
      out := Flush([]);
    }

    method LoseFocus() returns (out: seq<InputEvent>)
      modifies this
      ensures Work(Value(), out) == Step(old(Value()), FocusLost)
    {
      out := KeyEvents(Pick(AllScancodes(), pressed.Keys), false);
      pressed, heldKeys, modSent := map[], map[], map[];
      mods, cmdPending, cmdConsumed := {}, {}, {};
    }

    method GainFocus(flags: Flags) returns (out: seq<InputEvent>)
      modifies this
      ensures Work(Value(), out) == Step(old(Value()), FocusGained(flags))
    {
      out := UpdateCaps(flags, true, []);
      out := UpdateModifiers(flags, None, out);
    }

    method SendCtrlAltDel() returns (out: seq<InputEvent>)
      modifies this
      ensures Work(Value(), out) == Step(old(Value()), CtrlAltDel)
    {
      out := [];
      ghost var w := Work(Value(), []);
      var n := |CTRL_ALT_DEL|;
      for i := 0 to n
        invariant Work(Value(), out) == PressScancodes(w, CTRL_ALT_DEL[..i])
      {
        assert CTRL_ALT_DEL[..i + 1][..i] == CTRL_ALT_DEL[..i];
        out := PressScancode(CTRL_ALT_DEL[i], out);
      }
      assert CTRL_ALT_DEL[..n] == CTRL_ALT_DEL;
      ghost var down := Work(Value(), out);
      ghost var rev := Reversed(CTRL_ALT_DEL);
      for i := 0 to n
        invariant Work(Value(), out) == ReleaseScancodes(down, rev[..i])
      {
        assert rev[..i + 1][..i] == rev[..i];
        out := ReleaseScancode(CTRL_ALT_DEL[n - 1 - i], out);
      }
      assert rev[..n] == rev;
    }

    method ChangePrefs(prefs: Prefs)
      modifies this`prefs
      ensures Work(Value(), []) == Step(old(Value()), SetPrefs(prefs))
    {
      this.prefs := prefs;
    }

    method ChangeKeyboardType(keyboard: KeyboardType)
      modifies this`keyboard
      ensures Work(Value(), []) == Step(old(Value()), SetKeyboardType(keyboard))
    {
      this.keyboard := keyboard;
    }
  }

  lemma AppendEach(w: Work, keys: seq<ModifierKey>, key: ModifierKey)
    ensures PressEach(w, keys + [key]) == PressModifier(PressEach(w, keys), key)
    ensures ReleaseEach(w, keys + [key]) == ReleaseModifier(ReleaseEach(w, keys), key)
    ensures RecordEach(w, keys + [key]) == PressRecorded(RecordEach(w, keys), key)
    ensures keys + [] == keys
  {
    assert (keys + [key])[..|keys|] == keys;
  }
}
