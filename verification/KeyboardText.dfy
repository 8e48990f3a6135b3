/** What text the remote side can read from the Unicode events it receives. */
module KeyboardText {
  import opened Prelude
  import opened Utf16
  import opened Keymap
  import opened KeyboardSpec

  function UnitPressed(e: InputEvent): seq<u16> {
    match e case UnicodeEvent(unit, true) => [unit] case _ => []
  }

  /** The units pressed by a stream of events, in order. */
  function UnitsTyped(events: seq<InputEvent>): seq<u16> {
    if events == [] then [] else UnitPressed(events[0]) + UnitsTyped(events[1..])
  }

  /** Control characters, C0, DEL and C1, and the private-use range of AppKit's function keys. */
  predicate NeverTyped(c: char) {
    c as int <= 0x1F || 0x7F <= c as int <= 0x9F || 0xF700 <= c as int <= 0xF8FF
  }

  /** The text without the characters that are never typed. */
  function Typeable(text: string): string {
    if text == [] then [] else (if NeverTyped(text[0]) then [] else [text[0]]) + Typeable(text[1..])
  }

  lemma Associate(a: seq<u16>, b: seq<u16>, c: seq<u16>)
    ensures a + (b + c) == (a + b) + c
  {
  }

  lemma {:induction false} UnitsTypedConcat(a: seq<InputEvent>, b: seq<InputEvent>)
    ensures UnitsTyped(a + b) == UnitsTyped(a) + UnitsTyped(b)
  {
    if a == [] {
      assert a + b == b;
    } else {
      UnitsTypedConcat(a[1..], b);
      assert (a + b)[1..] == a[1..] + b && (a + b)[0] == a[0];
      Associate(UnitPressed(a[0]), UnitsTyped(a[1..]), UnitsTyped(b));
    }
  }

  lemma UnitsOfTap(unit: u16)
    ensures UnitsTyped(TapUnit(unit)) == [unit]
  {
    var up: seq<InputEvent> := [UnicodeEvent(unit, false)];
    assert UnitsTyped(up) == [] by {
      assert up[1..] == [];
    }
    assert TapUnit(unit)[1..] == up && TapUnit(unit)[0] == UnicodeEvent(unit, true);
  }

  lemma UnitsOfChar(c: char)
    ensures UnitsTyped(CharEvents(c)) == if NeverTyped(c) then [] else EncodeChar(c)
  {
    if Typed(c) {
      var units := EncodeChar(c);
      UnitsOfTap(units[0]);
      if |units| == 2 {
        UnitsOfTap(units[1]);
        UnitsTypedConcat(TapUnit(units[0]), TapUnit(units[1]));
      }
    }
  }

  lemma {:induction false} UnitsOfText(text: string)
    ensures UnitsTyped(TextEvents(text)) == EncodeUtf16(Typeable(text))
  {
    if text == [] {
    } else {
      UnitsOfText(text[1..]);
      UnitsOfChar(text[0]);
      UnitsTypedConcat(CharEvents(text[0]), TextEvents(text[1..]));
      FlatMapConcat(EncodeChar, if NeverTyped(text[0]) then [] else [text[0]], Typeable(text[1..]));
      if !NeverTyped(text[0]) {
        assert [text[0]][1..] == "";
        assert EncodeChar(text[0]) + [] == EncodeChar(text[0]);
      }
    }
  }

  lemma {:induction false} NoUnitsInKeys(events: seq<InputEvent>)
    requires forall e <- events :: e.KeyEvent?
    ensures UnitsTyped(events) == []
  {
    if events == [] {
    } else {
      assert events[0] in events;
      assert forall e <- events[1..] :: e in events;
      NoUnitsInKeys(events[1..]);
    }
  }

  /** The remote reads exactly the typed text, astral characters included, whatever keys are lifted around it. */
  lemma TypedTextArrives(s: State, text: string)
    ensures DecodeUtf16(UnitsTyped(OnInsertText(s, text).out)) == Typeable(text)
  {
    var typed := TextEvents(text);
    var lifted := Pick(TEXT_LEVEL_MODIFIERS, s.pressed.Keys);
    var up, down := KeyEvents(lifted, false), KeyEvents(lifted, true);
    UnitsOfText(text);
    Utf16RoundTrip(Typeable(text));
    if typed != [] {
      NoUnitsInKeys(up);
      NoUnitsInKeys(down);
      UnitsTypedConcat(up, typed);
      UnitsTypedConcat(up + typed, down);
      assert [] + UnitsTyped(typed) + [] == UnitsTyped(typed);
    }
  }
}
