/** Carbon virtual key codes and the PC/AT set-1 scancodes they stand for. */
module Keymap {
  import opened Prelude

  /** A set-1 scancode; `extended` means 0xE0-prefixed. */
  datatype Scancode = Scancode(code: u8, extended: bool)

  function Make(code: u8): Scancode {
    Scancode(code, false)
  }

  function Ext(code: u8): Scancode {
    Scancode(code, true)
  }

  datatype KeyboardType = Ansi | Iso | Jis

  datatype CmdAs = Super | Ctrl

  const KVK_ISO_SECTION: u16 := 0x0A
  const KVK_ANSI_GRAVE: u16 := 0x32
  const KVK_RIGHT_COMMAND: u16 := 0x36
  const KVK_COMMAND: u16 := 0x37
  const KVK_SHIFT: u16 := 0x38
  const KVK_CAPS_LOCK: u16 := 0x39
  const KVK_OPTION: u16 := 0x3A
  const KVK_CONTROL: u16 := 0x3B
  const KVK_RIGHT_SHIFT: u16 := 0x3C
  const KVK_RIGHT_OPTION: u16 := 0x3D
  const KVK_RIGHT_CONTROL: u16 := 0x3E
  const KVK_FUNCTION: u16 := 0x3F

  /** Largest key code the table maps. */
  const KVK_LAST: u16 := 0x7E

  /** The scancode of a key; ISO keyboards report two positions swapped. */
  function ScancodeFor(kvk: u16, keyboard: KeyboardType, cmdAs: CmdAs): (sc: Option<Scancode>)
    ensures sc.Some? ==> kvk <= KVK_LAST
  {
    if kvk == KVK_ISO_SECTION && keyboard.Iso? then Some(Make(0x29))
    else if kvk == KVK_ANSI_GRAVE && keyboard.Iso? then Some(Make(0x56))
    else if kvk == KVK_COMMAND then Some(if cmdAs.Super? then Ext(0x5B) else Make(0x1D))
    else if kvk == KVK_RIGHT_COMMAND then Some(if cmdAs.Super? then Ext(0x5C) else Ext(0x1D))
    else BaseScancode(kvk)
  }

  function BaseScancode(kvk: u16): (sc: Option<Scancode>)
    ensures sc.Some? ==> kvk <= KVK_LAST
  {
    match kvk
    case 0x00 => Some(Make(0x1E))  // ANSI_A
    case 0x01 => Some(Make(0x1F))  // ANSI_S
    case 0x02 => Some(Make(0x20))  // ANSI_D
    case 0x03 => Some(Make(0x21))  // ANSI_F
    case 0x04 => Some(Make(0x23))  // ANSI_H
    case 0x05 => Some(Make(0x22))  // ANSI_G
    case 0x06 => Some(Make(0x2C))  // ANSI_Z
    case 0x07 => Some(Make(0x2D))  // ANSI_X
    case 0x08 => Some(Make(0x2E))  // ANSI_C
    case 0x09 => Some(Make(0x2F))  // ANSI_V
    case 0x0A => Some(Make(0x56))  // ISO_SECTION
    case 0x0B => Some(Make(0x30))  // ANSI_B
    case 0x0C => Some(Make(0x10))  // ANSI_Q
    case 0x0D => Some(Make(0x11))  // ANSI_W
    case 0x0E => Some(Make(0x12))  // ANSI_E
    case 0x0F => Some(Make(0x13))  // ANSI_R
    case 0x10 => Some(Make(0x15))  // ANSI_Y
    case 0x11 => Some(Make(0x14))  // ANSI_T
    case 0x12 => Some(Make(0x02))  // ANSI_1
    case 0x13 => Some(Make(0x03))  // ANSI_2
    case 0x14 => Some(Make(0x04))  // ANSI_3
    case 0x15 => Some(Make(0x05))  // ANSI_4
    case 0x16 => Some(Make(0x07))  // ANSI_6
    case 0x17 => Some(Make(0x06))  // ANSI_5
    case 0x18 => Some(Make(0x0D))  // ANSI_EQUAL
    case 0x19 => Some(Make(0x0A))  // ANSI_9
    case 0x1A => Some(Make(0x08))  // ANSI_7
    case 0x1B => Some(Make(0x0C))  // ANSI_MINUS
    case 0x1C => Some(Make(0x09))  // ANSI_8
    case 0x1D => Some(Make(0x0B))  // ANSI_0
    case 0x1E => Some(Make(0x1B))  // ANSI_RIGHT_BRACKET
    case 0x1F => Some(Make(0x18))  // ANSI_O
    case 0x20 => Some(Make(0x16))  // ANSI_U
    case 0x21 => Some(Make(0x1A))  // ANSI_LEFT_BRACKET
    case 0x22 => Some(Make(0x17))  // ANSI_I
    case 0x23 => Some(Make(0x19))  // ANSI_P
    case 0x24 => Some(Make(0x1C))  // RETURN
    case 0x25 => Some(Make(0x26))  // ANSI_L
    case 0x26 => Some(Make(0x24))  // ANSI_J
    case 0x27 => Some(Make(0x28))  // ANSI_QUOTE
    case 0x28 => Some(Make(0x25))  // ANSI_K
    case 0x29 => Some(Make(0x27))  // ANSI_SEMICOLON
    case 0x2A => Some(Make(0x2B))  // ANSI_BACKSLASH
    case 0x2B => Some(Make(0x33))  // ANSI_COMMA
    case 0x2C => Some(Make(0x35))  // ANSI_SLASH
    case 0x2D => Some(Make(0x31))  // ANSI_N
    case 0x2E => Some(Make(0x32))  // ANSI_M
    case 0x2F => Some(Make(0x34))  // ANSI_PERIOD
    case 0x30 => Some(Make(0x0F))  // TAB
    case 0x31 => Some(Make(0x39))  // SPACE
    case 0x32 => Some(Make(0x29))  // ANSI_GRAVE
    case 0x33 => Some(Make(0x0E))  // DELETE
    case 0x35 => Some(Make(0x01))  // ESCAPE
    case 0x38 => Some(Make(0x2A))  // SHIFT
    case 0x39 => Some(Make(0x3A))  // CAPS_LOCK
    case 0x3A => Some(Make(0x38))  // OPTION
    case 0x3B => Some(Make(0x1D))  // CONTROL
    case 0x3C => Some(Make(0x36))  // RIGHT_SHIFT
    case 0x3D => Some(Ext(0x38))  // RIGHT_OPTION
    case 0x3E => Some(Ext(0x1D))  // RIGHT_CONTROL
    case 0x40 => Some(Make(0x68))  // F17
    case 0x41 => Some(Make(0x53))  // ANSI_KEYPAD_DECIMAL
    case 0x43 => Some(Make(0x37))  // ANSI_KEYPAD_MULTIPLY
    case 0x45 => Some(Make(0x4E))  // ANSI_KEYPAD_PLUS
    case 0x48 => Some(Ext(0x30))  // VOLUME_UP
    case 0x49 => Some(Ext(0x2E))  // VOLUME_DOWN
    case 0x4A => Some(Ext(0x20))  // MUTE
    case 0x4B => Some(Ext(0x35))  // ANSI_KEYPAD_DIVIDE
    case 0x4C => Some(Ext(0x1C))  // ANSI_KEYPAD_ENTER
    case 0x4E => Some(Make(0x4A))  // ANSI_KEYPAD_MINUS
    case 0x4F => Some(Make(0x69))  // F18
    case 0x50 => Some(Make(0x6A))  // F19
    case 0x51 => Some(Make(0x59))  // ANSI_KEYPAD_EQUALS
    case 0x52 => Some(Make(0x52))  // ANSI_KEYPAD_0
    case 0x53 => Some(Make(0x4F))  // ANSI_KEYPAD_1
    case 0x54 => Some(Make(0x50))  // ANSI_KEYPAD_2
    case 0x55 => Some(Make(0x51))  // ANSI_KEYPAD_3
    case 0x56 => Some(Make(0x4B))  // ANSI_KEYPAD_4
    case 0x57 => Some(Make(0x4C))  // ANSI_KEYPAD_5
    case 0x58 => Some(Make(0x4D))  // ANSI_KEYPAD_6
    case 0x59 => Some(Make(0x47))  // ANSI_KEYPAD_7
    case 0x5A => Some(Make(0x6B))  // F20
    case 0x5B => Some(Make(0x48))  // ANSI_KEYPAD_8
    case 0x5C => Some(Make(0x49))  // ANSI_KEYPAD_9
    case 0x5D => Some(Make(0x7D))  // JIS_YEN
    case 0x5E => Some(Make(0x73))  // JIS_UNDERSCORE
    case 0x5F => Some(Make(0x7E))  // JIS_KEYPAD_COMMA
    case 0x60 => Some(Make(0x3F))  // F5
    case 0x61 => Some(Make(0x40))  // F6
    case 0x62 => Some(Make(0x41))  // F7
    case 0x63 => Some(Make(0x3D))  // F3
    case 0x64 => Some(Make(0x42))  // F8
    case 0x65 => Some(Make(0x43))  // F9
    case 0x66 => Some(Make(0x71))  // JIS_EISU
    case 0x67 => Some(Make(0x57))  // F11
    case 0x68 => Some(Make(0x72))  // JIS_KANA
    case 0x69 => Some(Make(0x64))  // F13
    case 0x6A => Some(Make(0x67))  // F16
    case 0x6B => Some(Make(0x65))  // F14
    case 0x6D => Some(Make(0x44))  // F10
    case 0x6E => Some(Ext(0x5D))  // CONTEXTUAL_MENU
    case 0x6F => Some(Make(0x58))  // F12
    case 0x71 => Some(Make(0x66))  // F15
    case 0x72 => Some(Ext(0x52))  // HELP
    case 0x73 => Some(Ext(0x47))  // HOME
    case 0x74 => Some(Ext(0x49))  // PAGE_UP
    case 0x75 => Some(Ext(0x53))  // FORWARD_DELETE
    case 0x76 => Some(Make(0x3E))  // F4
    case 0x77 => Some(Ext(0x4F))  // END
    case 0x78 => Some(Make(0x3C))  // F2
    case 0x79 => Some(Ext(0x51))  // PAGE_DOWN
    case 0x7A => Some(Make(0x3B))  // F1
    case 0x7B => Some(Ext(0x4B))  // LEFT_ARROW
    case 0x7C => Some(Ext(0x4D))  // RIGHT_ARROW
    case 0x7D => Some(Ext(0x50))  // DOWN_ARROW
    case 0x7E => Some(Ext(0x48))  // UP_ARROW
    case _ => None
  }

  /** Keys that arrive as flag changes: both sides of every modifier, Caps Lock and fn. */
  predicate IsModifier(kvk: u16) {
    KVK_RIGHT_COMMAND <= kvk <= KVK_FUNCTION
  }

  /** Letters, digits, punctuation, the keypad and their kin: what the text system may take. */
  predicate IsTextKey(kvk: u16) {
    || (kvk <= 0x2F && kvk != 0x24)
    || kvk in {0x31, 0x32, 0x41, 0x43, 0x45, 0x4B, 0x4E, 0x5B, 0x5C, 0x5D, 0x5E, 0x5F}
    || 0x51 <= kvk <= 0x59
  }

  /** An ISO keyboard reports two keys in each other's place, and a JIS one none. */
  lemma IsoSwapsTwoKeys(kvk: u16, cmdAs: CmdAs)
    ensures ScancodeFor(kvk, Jis, cmdAs) == ScancodeFor(kvk, Ansi, cmdAs)
    ensures ScancodeFor(kvk, Iso, cmdAs)
         == ScancodeFor(if kvk == 0x0A then 0x32 else if kvk == 0x32 then 0x0A else kvk, Ansi, cmdAs)
  {
  }

  /** Command stands for the Super keys or for the Control keys, side by side; nothing else depends on that choice. */
  lemma CommandStandsFor(kvk: u16, keyboard: KeyboardType)
    ensures ScancodeFor(0x37, keyboard, Super) == Some(Ext(0x5B)) && ScancodeFor(0x36, keyboard, Super) == Some(Ext(0x5C))
    ensures ScancodeFor(0x37, keyboard, Ctrl) == ScancodeFor(0x3B, keyboard, Ctrl)
    ensures ScancodeFor(0x36, keyboard, Ctrl) == ScancodeFor(0x3E, keyboard, Ctrl)
    ensures kvk != 0x36 && kvk != 0x37 ==> ScancodeFor(kvk, keyboard, Ctrl) == ScancodeFor(kvk, keyboard, Super)
  {
  }
}
