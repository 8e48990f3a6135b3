/** From one macOS modifier-flags word to the set of modifier keys physically held. */
module Modifiers {
  import opened Prelude
  import opened Keymap

  datatype ModifierKey =
    | LeftShift | RightShift
    | LeftControl | RightControl
    | LeftOption | RightOption
    | LeftCommand | RightCommand
  {
    function Kvk(): u16 {
      match this
      case LeftShift => KVK_SHIFT
      case RightShift => KVK_RIGHT_SHIFT
      case LeftControl => KVK_CONTROL
      case RightControl => KVK_RIGHT_CONTROL
      case LeftOption => KVK_OPTION
      case RightOption => KVK_RIGHT_OPTION
      case LeftCommand => KVK_COMMAND
      case RightCommand => KVK_RIGHT_COMMAND
    }

    predicate IsCommand() {
      LeftCommand? || RightCommand?
    }
  }

  /** Every modifier key; presses go out in this order, releases in the reverse. */
  const ALL_MODIFIERS: seq<ModifierKey> :=
    [LeftShift, RightShift, LeftControl, RightControl, LeftOption, RightOption, LeftCommand, RightCommand]

  /** A flags word, as the positions of its set bits. */
  type Flags = set<nat>

  const CAPS_LOCK: nat := 16
  const SHIFT: nat := 17
  const CONTROL: nat := 18
  const OPTION: nat := 19
  const COMMAND: nat := 20

  const DEVICE_LEFT_CONTROL: nat := 0
  const DEVICE_LEFT_SHIFT: nat := 1
  const DEVICE_RIGHT_SHIFT: nat := 2
  const DEVICE_LEFT_COMMAND: nat := 3
  const DEVICE_RIGHT_COMMAND: nat := 4
  const DEVICE_LEFT_OPTION: nat := 5
  const DEVICE_RIGHT_OPTION: nat := 6
  const DEVICE_RIGHT_CONTROL: nat := 13

  /** One modifier: its class bit and, per side, the key and its device bit. */
  datatype Class = Class(bit: nat, left: ModifierKey, leftBit: nat, right: ModifierKey, rightBit: nat)

  const CLASSES: seq<Class> := [
    Class(SHIFT, LeftShift, DEVICE_LEFT_SHIFT, RightShift, DEVICE_RIGHT_SHIFT),
    Class(CONTROL, LeftControl, DEVICE_LEFT_CONTROL, RightControl, DEVICE_RIGHT_CONTROL),
    Class(OPTION, LeftOption, DEVICE_LEFT_OPTION, RightOption, DEVICE_RIGHT_OPTION),
    Class(COMMAND, LeftCommand, DEVICE_LEFT_COMMAND, RightCommand, DEVICE_RIGHT_COMMAND)
  ]

  function FromKvk(kvk: u16): (key: Option<ModifierKey>)
    ensures forall k: ModifierKey :: key == Some(k) <==> k.Kvk() == kvk
  {
    if kvk == KVK_SHIFT then Some(LeftShift)
    else if kvk == KVK_RIGHT_SHIFT then Some(RightShift)
    else if kvk == KVK_CONTROL then Some(LeftControl)
    else if kvk == KVK_RIGHT_CONTROL then Some(RightControl)
    else if kvk == KVK_OPTION then Some(LeftOption)
    else if kvk == KVK_RIGHT_OPTION then Some(RightOption)
    else if kvk == KVK_COMMAND then Some(LeftCommand)
    else if kvk == KVK_RIGHT_COMMAND then Some(RightCommand)
    else None
  }

  /** The held sides of one modifier. */
  function HeldSides(c: Class, flags: Flags, changed: Option<ModifierKey>, previous: set<ModifierKey>): set<ModifierKey> {
    if c.bit !in flags then
      {}
    else if c.leftBit in flags || c.rightBit in flags then
      (if c.leftBit in flags then {c.left} else {}) + (if c.rightBit in flags then {c.right} else {})
    else if changed == Some(c.left) || changed == Some(c.right) then
      {changed.value}
    else if c.left in previous || c.right in previous then
      {c.left, c.right} * previous
    else
      {c.left}
  }

  function HeldUpTo(n: nat, flags: Flags, changed: Option<ModifierKey>, previous: set<ModifierKey>): set<ModifierKey>
    requires n <= |CLASSES|
  {
    if n == 0 then {} else HeldUpTo(n - 1, flags, changed, previous) + HeldSides(CLASSES[n - 1], flags, changed, previous)
  }

  /** The modifier keys one flags word stands for. */
  function Held(flags: Flags, changedKvk: Option<u16>, previous: set<ModifierKey>): set<ModifierKey> {
    HeldUpTo(|CLASSES|, flags, if changedKvk.Some? then FromKvk(changedKvk.value) else None, previous)
  }

  method HeldModifiers(flags: Flags, changedKvk: Option<u16>, previous: set<ModifierKey>) returns (held: set<ModifierKey>)
    ensures held == Held(flags, changedKvk, previous)
  {
    var changed := if changedKvk.Some? then FromKvk(changedKvk.value) else None;
    held := {};
    for n := 0 to |CLASSES|
      invariant held == HeldUpTo(n, flags, changed, previous)
    {
      var c := CLASSES[n];
      if c.bit in flags {
        var l, r := c.leftBit in flags, c.rightBit in flags;
        if l || r {
          if l {
            held := held + {c.left};
          }
          if r {
            held := held + {c.right};
          }
        } else if changed == Some(c.left) || changed == Some(c.right) {
          held := held + {changed.value};
        } else if c.left in previous || c.right in previous {
          if c.left in previous {
            held := held + {c.left};
          }
          if c.right in previous {
            held := held + {c.right};
          }
        } else {
          held := held + {c.left};
        }
      }
    }
  }

  /** The bit of a key's class, Shift, Control, Option or Command, in the flags word. */
  function ClassBit(key: ModifierKey): nat {
    match key
    case LeftShift => 17 case RightShift => 17
    case LeftControl => 18 case RightControl => 18
    case LeftOption => 19 case RightOption => 19
    case LeftCommand => 20 case RightCommand => 20
  }

  /** The device-dependent bit of one key. */
  function DeviceBit(key: ModifierKey): nat {
    match key
    case LeftControl => 0 case LeftShift => 1 case RightShift => 2 case LeftCommand => 3
    case RightCommand => 4 case LeftOption => 5 case RightOption => 6 case RightControl => 13
  }

  /** The key on the other side. */
  function OtherSide(key: ModifierKey): ModifierKey {
    match key
    case LeftShift => RightShift case RightShift => LeftShift
    case LeftControl => RightControl case RightControl => LeftControl
    case LeftOption => RightOption case RightOption => LeftOption
    case LeftCommand => RightCommand case RightCommand => LeftCommand
  }

  predicate SideOf(c: Class, key: ModifierKey) {
    key == c.left || key == c.right
  }

  lemma {:induction false} HeldUpToSides(n: nat, flags: Flags, changed: Option<ModifierKey>,
                                         previous: set<ModifierKey>, key: ModifierKey)
    requires n <= |CLASSES|
    ensures key in HeldUpTo(n, flags, changed, previous) <==>
      exists i :: 0 <= i < n && SideOf(CLASSES[i], key) && key in HeldSides(CLASSES[i], flags, changed, previous)
  {
    if n == 0 {
    } else {
      HeldUpToSides(n - 1, flags, changed, previous, key);
    }
  }

  /**
   The class bit decides whether a modifier is held at all, whatever stale device bits say; device
   bits, when there are any, name the sides exactly. Without them the side whose key changed is held,
   otherwise the sides already held stay, and the left one is held when there was none.
   */
  lemma HeldMeaning(flags: Flags, changedKvk: Option<u16>, previous: set<ModifierKey>, i: nat)
    requires i < |CLASSES|
    ensures var c, held := CLASSES[i], Held(flags, changedKvk, previous);
      var left, right := c.left in held, c.right in held;
      if c.bit !in flags then
        !left && !right
      else if c.leftBit in flags || c.rightBit in flags then
        (left <==> c.leftBit in flags) && (right <==> c.rightBit in flags)
      else if changedKvk == Some(c.left.Kvk()) then
        left && !right
      else if changedKvk == Some(c.right.Kvk()) then
        !left && right
      else if c.left in previous || c.right in previous then
        (left <==> c.left in previous) && (right <==> c.right in previous)
      else
        left && !right
  {
    var c := CLASSES[i];
    var changed := if changedKvk.Some? then FromKvk(changedKvk.value) else None;
    HeldUpToSides(|CLASSES|, flags, changed, previous, c.left);
    HeldUpToSides(|CLASSES|, flags, changed, previous, c.right);
  }

  /** The class a key belongs to, with the key on one of its sides. */
  lemma ClassOf(key: ModifierKey) returns (i: nat)
    ensures i < |CLASSES|
    ensures var c := CLASSES[i];
      && c.bit == ClassBit(key)
      && ((c.left == key && c.right == OtherSide(key) && c.leftBit == DeviceBit(key) && c.rightBit == DeviceBit(OtherSide(key)))
          || (c.right == key && c.left == OtherSide(key) && c.rightBit == DeviceBit(key) && c.leftBit == DeviceBit(OtherSide(key))))
  {
    i := match key
      case LeftShift => 0 case RightShift => 0
      case LeftControl => 1 case RightControl => 1
      case LeftOption => 2 case RightOption => 2
      case LeftCommand => 3 case RightCommand => 3;
  }

  /** Key by key: not held without its class bit, and with device bits for its class, held exactly with its own. */
  lemma HeldByKey(flags: Flags, changedKvk: Option<u16>, previous: set<ModifierKey>, key: ModifierKey)
    ensures var held := Held(flags, changedKvk, previous);
      && (ClassBit(key) !in flags ==> key !in held)
      && (ClassBit(key) in flags && (DeviceBit(key) in flags || DeviceBit(OtherSide(key)) in flags) ==>
            (key in held <==> DeviceBit(key) in flags))
      && (ClassBit(key) in flags ==> key in held || OtherSide(key) in held)
  {
    var i := ClassOf(key);
    HeldMeaning(flags, changedKvk, previous, i);
  }
}
