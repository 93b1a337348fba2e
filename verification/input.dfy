/** The sixteen-key keypad (src/input.rs): which keys are held down, and a
    one-slot latch holding the most recently released key until it is
    consumed. Host events arrive as a scancode and a down/up direction. */
module Input {
  import opened Bytes
  import opened Outcomes

  /** The host keys of the table, and `Other` for every key outside it. */
  datatype Scancode =
    | Num1 | Num2 | Num3 | Num4
    | Q | W | E | R
    | A | S | D | F
    | Z | X | C | V
    | Other(code: int)

  /** The fixed layout
        1 2 3 C     1 2 3 4
        4 5 6 D     Q W E R
        7 8 9 E     A S D F
        A 0 B F     Z X C V
      `None` for a scancode outside the table. */
  function KeyMapping(sc: Scancode): (k: Option<Nibble>)
    ensures k.None? <==> sc.Other?
  {
    match sc
    case Num1 => Some(0x1)
    case Num2 => Some(0x2)
    case Num3 => Some(0x3)
    case Num4 => Some(0xC)
    case Q => Some(0x4)
    case W => Some(0x5)
    case E => Some(0x6)
    case R => Some(0xD)
    case A => Some(0x7)
    case S => Some(0x8)
    case D => Some(0x9)
    case F => Some(0xE)
    case Z => Some(0xA)
    case X => Some(0x0)
    case C => Some(0xB)
    case V => Some(0xF)
    case Other(_) => None
  }

  /** The host key that the layout assigns to key `k`. */
  function ScancodeOf(k: Nibble): (sc: Scancode)
    ensures KeyMapping(sc) == Some(k)
  {
    match k
    case 0x0 => X
    case 0x1 => Num1
    case 0x2 => Num2
    case 0x3 => Num3
    case 0x4 => Q
    case 0x5 => W
    case 0x6 => E
    case 0x7 => A
    case 0x8 => S
    case 0x9 => D
    case 0xA => Z
    case 0xB => C
    case 0xC => Num4
    case 0xD => R
    case 0xE => F
    case 0xF => V
  }

  /** No two host keys share a key: the layout is a bijection between the
      sixteen table scancodes and the keys 0 to 15. */
  lemma MappingInjective(a: Scancode, b: Scancode)
    requires KeyMapping(a).Some? && KeyMapping(a) == KeyMapping(b)
    ensures a == b
  {
    assert ScancodeOf(KeyMapping(a).value) == a;
  }

  type Keys = s: seq<bool> | |s| == 16 witness seq(16, _ => false)

  datatype Keypad = Keypad(pressed: Keys, lastReleased: Option<Byte>)

  /** The latch, when full, names one of the sixteen keys. */
  predicate LatchInRange(kp: Keypad) {
    kp.lastReleased.Some? ==> kp.lastReleased.value < 16
  }

  /** No key held down and nothing latched. */
  function New(): (kp: Keypad)
    ensures forall k :: 0 <= k < 16 ==> !kp.pressed[k]
    ensures kp.lastReleased.None?
  {
    Keypad(seq(16, _ => false), None)
  }

  /** Returns the latched key and empties the latch. */
  function ConsumeLastReleased(kp: Keypad): (r: (Option<Byte>, Keypad))
    ensures r.0 == kp.lastReleased
    ensures r.1.lastReleased.None? && r.1.pressed == kp.pressed
  {
    (kp.lastReleased, kp.(lastReleased := None))
  }

  /** A key event: for a scancode of the table, records whether its key is
      down, and on a release latches the key, replacing any unconsumed one
      (whether or not the key was down). Other events change nothing. */
  function OnKey(kp: Keypad, scancode: Option<Scancode>, down: bool): (r: Keypad)
    ensures scancode.None? || scancode.value.Other? ==> r == kp
    ensures scancode.Some? && !scancode.value.Other? ==>
      var k := KeyMapping(scancode.value).value;
      && r.pressed[k] == down
      && (forall j :: 0 <= j < 16 && j != k ==> r.pressed[j] == kp.pressed[j])
      && r.lastReleased == (if down then kp.lastReleased else Some(k))
    ensures LatchInRange(kp) ==> LatchInRange(r)
  {
    match scancode
    case None => kp
    case Some(sc) =>
      match KeyMapping(sc)
      case None => kp
      case Some(k) =>
        var pressed := kp.pressed[k := down];
        if !down then Keypad(pressed, Some(k)) else Keypad(pressed, kp.lastReleased)
  }

  /** A second consumption right after the first finds the latch empty. */
  lemma ConsumeTwice(kp: Keypad)
    ensures ConsumeLastReleased(ConsumeLastReleased(kp).1).0.None?
  {
  }
}
