/**
 Keyboard translation as a state machine: what each input does to the translator and which events
 it sends. `Keyboard` implements it; `KeyboardRuns` proves what the remote side can rely on.
 */
module KeyboardSpec {
  import opened Prelude
  import opened Utf16
  import opened Keymap
  import opened Modifiers

  datatype InputEvent =
    | KeyEvent(scancode: Scancode, down: bool)
    | UnicodeEvent(unit: u16, unitDown: bool)
    | SyncToggles(caps: bool, num: bool)

  datatype Prefs = Prefs(cmdAs: CmdAs, typeWithMacLayout: bool)

  datatype State = State(
    prefs: Prefs,
    keyboard: KeyboardType,
    mods: set<ModifierKey>,
    modSent: map<ModifierKey, Scancode>,
    cmdPending: set<ModifierKey>,
    cmdConsumed: set<ModifierKey>,
    heldKeys: map<u16, Scancode>,
    pressed: map<Scancode, u8>,
    caps: Option<bool>)

  /** A state and the events sent so far while handling one input. */
  datatype Work = Work(s: State, out: seq<InputEvent>)

  datatype Input =
    | FlagsChanged(kvk: u16, flags: Flags)
    | KeyDown(kvk: u16, flags: Flags, isRepeat: bool, composing: bool)
    | KeyDownScancode(kvk: u16, flags: Flags)
    | KeyUp(kvk: u16)
    | InsertText(text: string)
    | MenuShortcutTaken
    | PreparePointerButton
    | FocusLost
    | FocusGained(flags: Flags)
    | CtrlAltDel
    | SetPrefs(prefs: Prefs)
    | SetKeyboardType(keyboard: KeyboardType)

  /** Shift, Alt and AltGr: released around injected text. */
  const TEXT_LEVEL_MODIFIERS: seq<Scancode> := [Make(0x2A), Make(0x36), Make(0x38), Ext(0x38)]

  const CTRL_ALT_DEL: seq<Scancode> := [Make(0x1D), Make(0x38), Ext(0x53)]

  function Initial(prefs: Prefs, keyboard: KeyboardType): State {
    State(prefs, keyboard, {}, map[], {}, {}, map[], map[], None)
  }

  // ----- wire presses -----------------------------------------------------------------------

  function PressedCount(s: State, sc: Scancode): u8 {
    if sc in s.pressed then s.pressed[sc] else 0
  }

  function Press(w: Work, sc: Scancode): Work {
    var count := PressedCount(w.s, sc);
    Work(w.s.(pressed := w.s.pressed[sc := Min(count + 1, U8_MAX)]),
         if count == 0 then w.out + [KeyEvent(sc, true)] else w.out)
  }

  function Release(w: Work, sc: Scancode): Work {
    if sc !in w.s.pressed then
      w
    else
      var count := Max(w.s.pressed[sc] as int - 1, 0);
      if count == 0 then
        Work(w.s.(pressed := w.s.pressed - {sc}), w.out + [KeyEvent(sc, false)])
      else
        w.(s := w.s.(pressed := w.s.pressed[sc := count]))
  }

  /** Every modifier has a scancode, whatever the keyboard and the preferences. */
  function ModifierScancode(key: ModifierKey, keyboard: KeyboardType, prefs: Prefs): Scancode {
    ScancodeFor(key.Kvk(), keyboard, prefs.cmdAs).value
  }

  /** Presses a modifier's scancode and remembers it. */
  function PressRecorded(w: Work, key: ModifierKey): Work {
    var sc := ModifierScancode(key, w.s.keyboard, w.s.prefs);
    var p := Press(w, sc);
    p.(s := p.s.(modSent := p.s.modSent[key := sc]))
  }

  function PressModifier(w: Work, key: ModifierKey): Work {
    if key.IsCommand() then
      w.(s := w.s.(cmdPending := w.s.cmdPending + {key}, cmdConsumed := w.s.cmdConsumed - {key}))
    else
      PressRecorded(w, key)
  }

  function ReleaseModifier(w: Work, key: ModifierKey): Work {
    if key in w.s.cmdPending then
      var dropped := w.(s := w.s.(cmdPending := w.s.cmdPending - {key}, cmdConsumed := w.s.cmdConsumed - {key}));
      if key in w.s.cmdConsumed then
        dropped
      else
        var sc := ModifierScancode(key, w.s.keyboard, w.s.prefs);
        Release(Press(dropped, sc), sc)
    else if key in w.s.modSent then
      Release(w.(s := w.s.(modSent := w.s.modSent - {key})), w.s.modSent[key])
    else
      w
  }

  // ----- several keys in order --------------------------------------------------------------

  /** The keys of `keys` that are in `chosen`, in order. */
  function Pick<T>(keys: seq<T>, chosen: set<T>): seq<T> {
    if keys == [] then
      []
    else
      Pick(keys[..|keys| - 1], chosen) + if keys[|keys| - 1] in chosen then [keys[|keys| - 1]] else []
  }

  function Reversed<T>(keys: seq<T>): seq<T> {
    seq(|keys|, i requires 0 <= i < |keys| => keys[|keys| - 1 - i])
  }

  function PressEach(w: Work, keys: seq<ModifierKey>): Work {
    if keys == [] then w else PressModifier(PressEach(w, keys[..|keys| - 1]), keys[|keys| - 1])
  }

  function ReleaseEach(w: Work, keys: seq<ModifierKey>): Work {
    if keys == [] then w else ReleaseModifier(ReleaseEach(w, keys[..|keys| - 1]), keys[|keys| - 1])
  }

  function RecordEach(w: Work, keys: seq<ModifierKey>): Work {
    if keys == [] then w else PressRecorded(RecordEach(w, keys[..|keys| - 1]), keys[|keys| - 1])
  }

  function PressScancodes(w: Work, scs: seq<Scancode>): Work {
    if scs == [] then w else Press(PressScancodes(w, scs[..|scs| - 1]), scs[|scs| - 1])
  }

  function ReleaseScancodes(w: Work, scs: seq<Scancode>): Work {
    if scs == [] then w else Release(ReleaseScancodes(w, scs[..|scs| - 1]), scs[|scs| - 1])
  }

  // ----- handlers ---------------------------------------------------------------------------

  function SyncCaps(w: Work, flags: Flags, force: bool): Work {
    var caps := CAPS_LOCK in flags;
    var changed := w.s.caps.Some? && w.s.caps.value != caps;
    Work(w.s.(caps := Some(caps)),
         if force || changed then w.out + [SyncToggles(caps, true)] else w.out)
  }

  /** Releases what is no longer held (last class first), then presses what is new. */
  function ApplyModifiers(w: Work, flags: Flags, changed: Option<u16>): Work {
    var held := Held(flags, changed, w.s.mods);
    var released := ReleaseEach(w, Pick(Reversed(ALL_MODIFIERS), w.s.mods - held));
    var pressed := PressEach(released, Pick(ALL_MODIFIERS, held - w.s.mods));
    pressed.(s := pressed.s.(mods := held))
  }

  /** Sends every deferred Command press. */
  function FlushCommand(w: Work): Work {
    var flushed := RecordEach(w, Pick(ALL_MODIFIERS, w.s.cmdPending));
    flushed.(s := flushed.s.(cmdPending := {}, cmdConsumed := {}))
  }

  function OnKeyDownScancode(s: State, kvk: u16, flags: Flags): Work {
    var w := ApplyModifiers(SyncCaps(Work(s, []), flags, false), flags, None);
    if IsModifier(kvk) || kvk in w.s.heldKeys then
      w
    else
      match ScancodeFor(kvk, w.s.keyboard, w.s.prefs.cmdAs)
      case None => w
      case Some(sc) =>
        var p := Press(FlushCommand(w), sc);
        p.(s := p.s.(heldKeys := p.s.heldKeys[kvk := sc]))
  }

  /** Whether a key goes to the text input system instead of being sent as a scancode. */
  predicate RoutedAsText(prefs: Prefs, kvk: u16, flags: Flags, composing: bool) {
    && prefs.typeWithMacLayout
    && COMMAND !in flags
    && CONTROL !in flags
    && (composing || IsTextKey(kvk))
  }

  function OnKeyUp(s: State, kvk: u16): Work {
    if kvk in s.heldKeys then
      Release(Work(s.(heldKeys := s.heldKeys - {kvk}), []), s.heldKeys[kvk])
    else
      Work(s, [])
  }

  /** Control characters and AppKit's function-key range are not typed. */
  predicate Typed(c: char) {
    var n := c as int;
    !(n < 0x20 || 0x7F <= n < 0xA0 || 0xF700 <= n <= 0xF8FF)
  }

  function CharEvents(c: char): seq<InputEvent> {
    if !Typed(c) then
      []
    else
      var units := EncodeChar(c);
      if |units| == 1 then TapUnit(units[0]) else TapUnit(units[0]) + TapUnit(units[1])
  }

  function TapUnit(unit: u16): seq<InputEvent> {
    [UnicodeEvent(unit, true), UnicodeEvent(unit, false)]
  }

  function TextEvents(text: string): seq<InputEvent> {
    FlatMap(CharEvents, text)
  }

  function KeyEvents(scs: seq<Scancode>, down: bool): seq<InputEvent> {
    seq(|scs|, i requires 0 <= i < |scs| => KeyEvent(scs[i], down))
  }

  function OnInsertText(s: State, text: string): Work {
    var typed := TextEvents(text);
    var lifted := Pick(TEXT_LEVEL_MODIFIERS, s.pressed.Keys);
    Work(s, if typed == [] then [] else KeyEvents(lifted, false) + typed + KeyEvents(lifted, true))
  }

  /** Every scancode in wire order: by code, plain before extended. */
  function AllScancodes(): seq<Scancode> {
    seq(512, i requires 0 <= i < 512 => Scancode(i / 2, i % 2 == 1))
  }

  function OnFocusLost(s: State): Work {
    Work(s.(pressed := map[], heldKeys := map[], mods := {}, modSent := map[], cmdPending := {}, cmdConsumed := {}),
         KeyEvents(Pick(AllScancodes(), s.pressed.Keys), false))
  }

  function Step(s: State, input: Input): Work {
    match input
    case FlagsChanged(kvk, flags) =>
      ApplyModifiers(SyncCaps(Work(s, []), flags, kvk == KVK_CAPS_LOCK), flags, Some(kvk))
    case KeyDown(kvk, flags, isRepeat, composing) =>
      if RoutedAsText(s.prefs, kvk, flags, composing) || isRepeat then Work(s, [])
      else OnKeyDownScancode(s, kvk, flags)
    case KeyDownScancode(kvk, flags) => OnKeyDownScancode(s, kvk, flags)
    case KeyUp(kvk) => OnKeyUp(s, kvk)
    case InsertText(text) => OnInsertText(s, text)
    case MenuShortcutTaken => Work(s.(cmdConsumed := s.cmdPending), [])
    case PreparePointerButton => FlushCommand(Work(s, []))
    case FocusLost => OnFocusLost(s)
    case FocusGained(flags) => ApplyModifiers(SyncCaps(Work(s, []), flags, true), flags, None)
    case CtrlAltDel =>
      ReleaseScancodes(PressScancodes(Work(s, []), CTRL_ALT_DEL), Reversed(CTRL_ALT_DEL))
    case SetPrefs(prefs) => Work(s.(prefs := prefs), [])
    case SetKeyboardType(keyboard) => Work(s.(keyboard := keyboard), [])
  }
}
