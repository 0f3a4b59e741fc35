/** The sixteen-key hexadecimal keypad (src/keypad/mod.rs): one boolean per
    CHIP-8 key, set and cleared from host keyboard events. */
module Keypad {

  /** Number of CHIP-8 keys. */
  const KeyCount: nat := 16

  /** The host keys the keypad reacts to, plus every other key as `Other`. */
  datatype Keycode =
    | Num1 | Num2 | Num3 | Num4
    | Q | W | E | R
    | A | S | D | F
    | Z | X | C | V
    | Other

  /** The keys `press` maps onto the keypad. */
  predicate Mapped(k: Keycode) {
    k != Other
  }

  /** The CHIP-8 key a host key stands for: the left 4x4 block of a QWERTY
      keyboard laid over the 1 2 3 C / 4 5 6 D / 7 8 9 E / A 0 B F keypad. */
  function Index(k: Keycode): (n: nat)
    requires Mapped(k)
    ensures n < KeyCount
  {
    match k
    case Num1 => 0x1
    case Num2 => 0x2
    case Num3 => 0x3
    case Num4 => 0xc
    case Q => 0x4
    case W => 0x5
    case E => 0x6
    case R => 0xd
    case A => 0x7
    case S => 0x8
    case D => 0x9
    case F => 0xe
    case Z => 0xa
    case X => 0x0
    case C => 0xb
    case V => 0xf
  }

  /** The host key for each CHIP-8 key, in the order the keypad tests list them. */
  const KeyOrder: seq<Keycode> := [X, Num1, Num2, Num3, Q, W, E, A, S, D, Z, C, Num4, R, F, V]

  /** The host key standing for CHIP-8 key n. */
  function KeyFor(n: nat): (k: Keycode)
    requires n < KeyCount
    ensures Mapped(k) && Index(k) == n
  {
    KeyOrder[n]
  }

  /** Every mapped host key is the one KeyFor gives for its index: Index and
      KeyFor are inverse, so the sixteen mapped keys and the sixteen CHIP-8 keys
      are in one-to-one correspondence. */
  lemma KeyForIndex(k: Keycode)
    requires Mapped(k)
    ensures KeyFor(Index(k)) == k
  {
  }

  /** No two mapped host keys share a CHIP-8 key. */
  lemma IndexInjective(k1: Keycode, k2: Keycode)
    requires Mapped(k1) && Mapped(k2) && Index(k1) == Index(k2)
    ensures k1 == k2
  {
    KeyForIndex(k1);
    KeyForIndex(k2);
  }

  // ---------------------------------------------------------------------
  // The key states as a value.
  // ---------------------------------------------------------------------

  /** The state `Keypad::default()` starts in: no key held. */
  function Released(): (keys: seq<bool>)
    ensures |keys| == KeyCount
    ensures forall n :: 0 <= n < KeyCount ==> !keys[n]
  {
    seq(KeyCount, _ => false)
  }

  /** The key states after `press(k, state)`: a mapped key's CHIP-8 key takes
      `state`, and nothing else changes; any other host key is ignored. */
  function Pressing(keys: seq<bool>, k: Keycode, state: bool): (r: seq<bool>)
    requires |keys| == KeyCount
    ensures |r| == KeyCount
    ensures Mapped(k) ==> r[Index(k)] == state
    ensures forall n :: 0 <= n < KeyCount && !(Mapped(k) && n == Index(k)) ==> r[n] == keys[n]
  {
    if Mapped(k) then keys[Index(k) := state] else keys
  }

  /** Holding then letting go of the host key for CHIP-8 key n shows n as
      pressed in between and as released afterwards, whatever the other keys do. */
  lemma PressRelease(keys: seq<bool>, n: nat)
    requires |keys| == KeyCount && n < KeyCount
    ensures Pressing(keys, KeyFor(n), true)[n]
    ensures !Pressing(Pressing(keys, KeyFor(n), true), KeyFor(n), false)[n]
    ensures Pressing(Pressing(keys, KeyFor(n), true), KeyFor(n), false) == keys[n := false]
  {
  }

  /** Pressing and releasing keys in turn from the released state, as the
      keypad tests do, returns to the released state after every round, so each
      key reads released before its press (and, by PressRelease, pressed right
      after it and released again after the release). */
  lemma {:induction false} PressEachInTurn(count: nat)
    requires count <= KeyCount
    ensures PressedInTurn(Released(), count) == Released()
  {
    if count > 0 {
      PressEachInTurn(count - 1);
      PressRelease(Released(), count - 1);
      assert Released()[count - 1 := false] == Released();
    }
  }

  /** The key states after pressing and releasing keys 0 .. count - 1 in order. */
  function PressedInTurn(keys: seq<bool>, count: nat): (r: seq<bool>)
    requires |keys| == KeyCount && count <= KeyCount
    ensures |r| == KeyCount
    decreases count
  {
    if count == 0 then keys
    else
      var before := PressedInTurn(keys, count - 1);
      Pressing(Pressing(before, KeyFor(count - 1), true), KeyFor(count - 1), false)
  }

  /** Host keys outside the table leave the keypad alone. */
  lemma UnmappedIgnored(keys: seq<bool>, k: Keycode, state: bool)
    requires |keys| == KeyCount && !Mapped(k)
    ensures Pressing(keys, k, state) == keys
  {
  }

  // ---------------------------------------------------------------------
  // The keypad object.
  // ---------------------------------------------------------------------

  class Keypad {
    /** `keys: [bool; 16]`. */
    const keys: array<bool>

    ghost predicate Valid()
      reads this
    {
      keys.Length == KeyCount
    }

    /** `Keypad::default()`. */
    constructor ()
      ensures Valid() && fresh(keys)
      ensures keys[..] == Released()
    {
      keys := new bool[KeyCount](_ => false);
    }

    /** Whether CHIP-8 key `index` is held; an index past 15 panics in the
        original, so callers must range-check it. */
    method Pressed(index: nat) returns (b: bool)
      requires Valid() && index < KeyCount
      ensures b == keys[index]
    {
      b := keys[index];
    }

    method Press(k: Keycode, state: bool)
      requires Valid()
      modifies keys
      ensures keys[..] == Pressing(old(keys[..]), k, state)
    {
      match k
      case Num1 => SetKey(0x1, state);
      case Num2 => SetKey(0x2, state);
      case Num3 => SetKey(0x3, state);
      case Num4 => SetKey(0xc, state);
      case Q => SetKey(0x4, state);
      case W => SetKey(0x5, state);
      case E => SetKey(0x6, state);
      case R => SetKey(0xd, state);
      case A => SetKey(0x7, state);
      case S => SetKey(0x8, state);
      case D => SetKey(0x9, state);
      case F => SetKey(0xe, state);
      case Z => SetKey(0xa, state);
      case X => SetKey(0x0, state);
      case C => SetKey(0xb, state);
      case V => SetKey(0xf, state);
      case Other =>
    }

    method SetKey(index: nat, state: bool)
      requires Valid() && index < KeyCount
      modifies keys
      ensures keys[..] == old(keys[..])[index := state]
    {
      keys[index] := state;
    }
  }
}
