/** The CHIP-8 processor of src/cpu/mod.rs as a state-transition function:
    fetch a big-endian opcode, dispatch on its high nibble and then on its
    low nibble or low byte, and update memory, registers, index, program
    counter, call stack, timers and the screen. Every Rust panic and every
    call of `not_implemented` (which exits the process) is a `Halt`. */
module Chip8 {
  import Display
  import Keypad

  const MemorySize: nat := 4096
  const RegisterCount: nat := 16
  const StackSize: nat := 16
  /** Where programs are loaded, and the start value of both `pc` and `i`. */
  const ProgramStart: nat := 0x200
  /** The register that receives carries, borrows, shifted-out bits and collisions. */
  const Flag: nat := 15

  /** The hexadecimal digit glyphs 0..F, five rows of four pixels each. */
  const FontSet: seq<bv8> := [
    0xF0, 0x90, 0x90, 0x90, 0xF0, 0x20, 0x60, 0x20, 0x20, 0x70, 0xF0, 0x10, 0xF0, 0x80, 0xF0,
    0xF0, 0x10, 0xF0, 0x10, 0xF0, 0x90, 0x90, 0xF0, 0x10, 0x10, 0xF0, 0x80, 0xF0, 0x10, 0xF0,
    0xF0, 0x80, 0xF0, 0x90, 0xF0, 0xF0, 0x10, 0x20, 0x40, 0x40, 0xF0, 0x90, 0xF0, 0x90, 0xF0,
    0xF0, 0x90, 0xF0, 0x10, 0xF0, 0xF0, 0x90, 0xF0, 0x90, 0x90, 0xE0, 0x90, 0xE0, 0x90, 0xE0,
    0xF0, 0x80, 0x80, 0x80, 0xF0, 0xE0, 0x90, 0x90, 0x90, 0xE0, 0xF0, 0x80, 0xF0, 0x80, 0xF0,
    0xF0, 0x80, 0xF0, 0x80, 0x80]

  datatype Option<T> = None | Some(value: T)

  /** Why the interpreter stops: a Rust panic or `not_implemented`. */
  datatype Halt =
    | NotImplemented(opcode: bv16, pc: nat)   // unknown selector, reported with the pc it was fetched from
    | OutOfMemory(start: nat, count: nat)     // an access to memory[start .. start + count) past the last byte
    | StackOverflow                           // a call with all 16 stack slots in use
    | StackUnderflow                          // a return with an empty stack
    | KeyOutOfRange(key: nat)                 // EX9E / EXA1 with VX naming no key
    | PcUnderflow(pc: nat)                    // FX0A subtracting 2 from a pc below 2

  datatype Result<T> = Ok(value: T) | Error(halt: Halt)

  /** Rust's `u16`, the type of a stack slot. */
  newtype uint16 = x: int | 0 <= x < 0x1_0000

  /** The fields of `Cpu` that instructions read or write, with the keypad's
      key states and the display's grid and repaint flag. */
  datatype Machine = Machine(
    memory: seq<bv8>,
    v: seq<bv8>,
    i: nat,
    pc: nat,
    stack: seq<uint16>,
    sp: nat,
    delayTimer: bv8,
    soundTimer: bv8,
    keys: seq<bool>,
    screen: Display.Screen)

  /** The shapes of the Rust arrays, `sp` within the stack, and a 0/1 screen. */
  predicate WellFormed(m: Machine) {
    |m.memory| == MemorySize && |m.v| == RegisterCount &&
    |m.stack| == StackSize && m.sp <= StackSize &&
    |m.keys| == Keypad.KeyCount && Display.ValidScreen(m.screen)
  }

  // ---------------------------------------------------------------------
  // Opcode fields.
  // ---------------------------------------------------------------------

  /** The high nibble, which picks the instruction family. */
  function Family(op: bv16): (f: nat)
    ensures f < 16
  {
    (op >> 12) as nat
  }

  /** `op_x`: bits 8..11, a register number. */
  function X(op: bv16): (x: nat)
    ensures x < RegisterCount
  {
    ((op & 0x0F00) >> 8) as nat
  }

  /** `op_y`: bits 4..7, a register number. */
  function Y(op: bv16): (y: nat)
    ensures y < RegisterCount
  {
    ((op & 0x00F0) >> 4) as nat
  }

  /** `op_n`: the low nibble. */
  function N(op: bv16): (n: bv8)
    ensures n < 16
  {
    (op & 0x000F) as bv8
  }

  /** `op_nn`: the low byte. */
  function NN(op: bv16): (nn: bv8)
    ensures nn as bv16 == op & 0xFF
  {
    (op & 0x00FF) as bv8
  }

  /** `op_nnn`: the low twelve bits, an address. */
  function NNN(op: bv16): (nnn: bv16)
    ensures nnn < 0x1000
  {
    op & 0x0FFF
  }

  // ---------------------------------------------------------------------
  // Byte arithmetic with the flags of Rust's `overflowing_*` methods.
  // ---------------------------------------------------------------------

  /** `u8::overflowing_add`: the wrapped sum, and whether it wrapped
      (detected, as in hardware, by the sum coming out below an operand). */
  function OverflowingAdd(a: bv8, b: bv8): (bv8, bool) {
    (a + b, a + b < a)
  }

  /** `u8::overflowing_sub`: the wrapped difference, and whether it borrowed. */
  function OverflowingSub(a: bv8, b: bv8): (bv8, bool) {
    (a - b, a < b)
  }

  /** `flag as u8`. */
  function FlagByte(flag: bool): (b: bv8)
    ensures b == 0 || b == 1
  {
    if flag then 1 else 0
  }

  // ---------------------------------------------------------------------
  // Memory access.
  // ---------------------------------------------------------------------

  /** Whether the count bytes from start all lie inside memory. */
  predicate InMemory(start: nat, count: nat) {
    start + count <= MemorySize
  }

  /** `fetch_opcode`: memory[pc] is the high byte and memory[pc + 1] the low one. */
  function Fetch(m: Machine): (r: Result<bv16>)
    requires WellFormed(m)
  {
    if !InMemory(m.pc, 2) then Error(OutOfMemory(m.pc, 2))
    else Ok(((m.memory[m.pc] as bv16) << 8) | (m.memory[m.pc + 1] as bv16))
  }

  /** `self.pc += 2`, which ends most instruction handlers. */
  function Advance(m: Machine): (r: Machine)
    ensures r.pc == m.pc + 2
  {
    m.(pc := m.pc + 2)
  }

  /** The trailing `pc += 2` of the handlers for families 0, 8 and F, which
      run only when the selected case did not stop the process. */
  function AdvanceAfter(r: Result<Machine>): (s: Result<Machine>)
    ensures s.Ok? <==> r.Ok?
    ensures s.Error? ==> s == r
    ensures r.Ok? && WellFormed(r.value) ==> WellFormed(s.value)
  {
    if r.Ok? then Ok(Advance(r.value)) else r
  }

  /** `self.pc += if cond { 4 } else { 2 }`: skip the next instruction when cond holds. */
  function SkipIf(m: Machine, cond: bool): (r: Machine)
    ensures r.pc == m.pc + 2 || r.pc == m.pc + 4
  {
    m.(pc := m.pc + if cond then 4 else 2)
  }

  /** Register x takes value b. */
  function SetV(m: Machine, x: nat, b: bv8): (r: Machine)
    requires WellFormed(m) && x < RegisterCount
    ensures WellFormed(r)
  {
    m.(v := m.v[x := b])
  }

  // ---------------------------------------------------------------------
  // The sixteen instruction families.
  // ---------------------------------------------------------------------

  /** Family 0 (`op_0xxx`): only the low nibble is tested, 0 clears the
      screen and E returns from a subroutine to the address after the call. */
  function System(m: Machine, op: bv16): (r: Result<Machine>)
    requires WellFormed(m)
    ensures r.Ok? ==> WellFormed(r.value)
  {
    var sel := N(op);
    AdvanceAfter(
      if sel == 0x0 then Ok(m.(screen := Display.Cleared()))
      else if sel == 0xE then
        if m.sp == 0 then Error(StackUnderflow)
        else Ok(m.(sp := m.sp - 1, pc := m.stack[m.sp - 1] as nat))
      else Error(NotImplemented(op, m.pc)))
  }

  /** 1NNN (`op_1xxx`): jump to NNN. */
  function Jump(m: Machine, op: bv16): (r: Result<Machine>)
    requires WellFormed(m)
    ensures r.Ok? && WellFormed(r.value)
  {
    Ok(m.(pc := NNN(op) as nat))
  }

  /** 2NNN (`op_2xxx`): push the pc of the call itself (`pc as u16`, so
      truncated to 16 bits) and jump to NNN. */
  function Call(m: Machine, op: bv16): (r: Result<Machine>)
    requires WellFormed(m)
    ensures r.Ok? ==> WellFormed(r.value)
  {
    if m.sp >= StackSize then Error(StackOverflow)
    else Ok(m.(stack := m.stack[m.sp := (m.pc % 0x1_0000) as uint16], sp := m.sp + 1, pc := NNN(op) as nat))
  }

  /** 3XNN: skip when VX == NN. */
  function SkipIfEqualByte(m: Machine, op: bv16): (r: Result<Machine>)
    requires WellFormed(m)
    ensures r.Ok? && WellFormed(r.value)
  {
    Ok(SkipIf(m, m.v[X(op)] == NN(op)))
  }

  /** 4XNN: skip when VX != NN. */
  function SkipIfNotEqualByte(m: Machine, op: bv16): (r: Result<Machine>)
    requires WellFormed(m)
    ensures r.Ok? && WellFormed(r.value)
  {
    Ok(SkipIf(m, m.v[X(op)] != NN(op)))
  }

  /** 5XY_: skip when VX == VY, whatever the low nibble. */
  function SkipIfEqualRegister(m: Machine, op: bv16): (r: Result<Machine>)
    requires WellFormed(m)
    ensures r.Ok? && WellFormed(r.value)
  {
    Ok(SkipIf(m, m.v[X(op)] == m.v[Y(op)]))
  }

  /** 6XNN: VX := NN. */
  function LoadByte(m: Machine, op: bv16): (r: Result<Machine>)
    requires WellFormed(m)
    ensures r.Ok? && WellFormed(r.value)
  {
    Ok(Advance(SetV(m, X(op), NN(op))))
  }

  /** 7XNN: VX := VX + NN with wrap-around and no flag (`wrapping_add`). */
  function AddByte(m: Machine, op: bv16): (r: Result<Machine>)
    requires WellFormed(m)
    ensures r.Ok? && WellFormed(r.value)
  {
    Ok(Advance(SetV(m, X(op), m.v[X(op)] + NN(op))))
  }

  /** Family 8 (`op_8xxx`): register-to-register arithmetic chosen by the
      low nibble. Where a case writes both VX and VF, the statements run in
      the order of the source, so with X = F the later write wins. */
  function Arithmetic(m: Machine, op: bv16): (r: Result<Machine>)
    requires WellFormed(m)
    ensures r.Ok? ==> WellFormed(r.value)
  {
    AdvanceAfter(ArithmeticCase(m, op, X(op), Y(op), N(op)))
  }

  /** The case of family 8 that selector sel (the low nibble of op) picks,
      on registers x and y, before the trailing `pc += 2`. */
  function ArithmeticCase(m: Machine, op: bv16, x: nat, y: nat, sel: bv8): (r: Result<Machine>)
    requires WellFormed(m) && x < RegisterCount && y < RegisterCount
    ensures r.Ok? ==> WellFormed(r.value)
  {
    var vx, vy := m.v[x], m.v[y];
    if sel <= 0x3 then Ok(SetV(m, x, Combine(sel, vx, vy)))
    else if sel == 0x4 then Ok(SetWithFlag(m, x, OverflowingAdd(vx, vy)))
    else if sel == 0x5 then Ok(SetWithFlag(m, x, OverflowingSub(vx, vy)))
    else if sel == 0x6 then Ok(ShiftRight(m, x))
    else if sel == 0x7 then Ok(SetWithFlag(m, x, OverflowingSub(vy, vx)))
    else if sel == 0xE then Ok(ShiftLeft(m, x))
    else Error(NotImplemented(op, m.pc))
  }

  /** 8XY0 .. 8XY3: the value VX takes, VY or VX | VY, VX & VY, VX ^ VY. */
  function Combine(sel: bv8, vx: bv8, vy: bv8): bv8 {
    if sel == 0x0 then vy else if sel == 0x1 then vx | vy else if sel == 0x2 then vx & vy else vx ^ vy
  }

  /** VX := the result, then VF := the flag (so VF holds the flag even when X = F). */
  function SetWithFlag(m: Machine, x: nat, result: (bv8, bool)): (r: Machine)
    requires WellFormed(m) && x < RegisterCount
    ensures WellFormed(r)
  {
    SetV(SetV(m, x, result.0), Flag, FlagByte(result.1))
  }

  /** 8XY6: VF := VX & 1, then VX := VX >> 1, VX read again after the flag write. */
  function ShiftRight(m: Machine, x: nat): (r: Machine)
    requires WellFormed(m) && x < RegisterCount
    ensures WellFormed(r)
  {
    var m' := SetV(m, Flag, m.v[x] & 0x1);
    SetV(m', x, m'.v[x] >> 1)
  }

  /** 8XYE: VF := VX >> 7, then VX := VX << 1, VX read again after the flag write. */
  function ShiftLeft(m: Machine, x: nat): (r: Machine)
    requires WellFormed(m) && x < RegisterCount
    ensures WellFormed(r)
  {
    var m' := SetV(m, Flag, m.v[x] >> 7);
    SetV(m', x, m'.v[x] << 1)
  }

  /** 9XY_: skip when VX != VY, whatever the low nibble. */
  function SkipIfNotEqualRegister(m: Machine, op: bv16): (r: Result<Machine>)
    requires WellFormed(m)
    ensures r.Ok? && WellFormed(r.value)
  {
    Ok(SkipIf(m, m.v[X(op)] != m.v[Y(op)]))
  }

  /** ANNN: I := NNN. */
  function SetIndex(m: Machine, op: bv16): (r: Result<Machine>)
    requires WellFormed(m)
    ensures r.Ok? && WellFormed(r.value)
  {
    Ok(Advance(m.(i := NNN(op) as nat)))
  }

  /** BNNN: jump to V0 + NNN. The source adds in 16 bits, where the sum
      (at most 0xFF + 0xFFF) cannot wrap, so it is the integer sum here. */
  function JumpOffset(m: Machine, op: bv16): (r: Result<Machine>)
    requires WellFormed(m)
    ensures r.Ok? && WellFormed(r.value)
  {
    Ok(m.(pc := m.v[0] as nat + NNN(op) as nat))
  }

  /** CXNN: VX := NN & a random byte, which the caller supplies. */
  function RandomByte(m: Machine, op: bv16, random: bv8): (r: Result<Machine>)
    requires WellFormed(m)
    ensures r.Ok? && WellFormed(r.value)
  {
    Ok(Advance(SetV(m, X(op), NN(op) & random)))
  }

  /** DXYN: XOR the N-byte sprite at memory[I ..] onto the screen at
      (VX, VY); VF := the collision byte. */
  function DrawSprite(m: Machine, op: bv16): (r: Result<Machine>)
    requires WellFormed(m)
    ensures r.Ok? ==> WellFormed(r.value)
  {
    var n := N(op) as nat;
    if !InMemory(m.i, n) then Error(OutOfMemory(m.i, n))
    else
      var b := Display.XorSprite(m.screen.gfx, m.v[X(op)] as nat, m.v[Y(op)] as nat, m.memory[m.i .. m.i + n]);
      Ok(Advance(SetV(m.(screen := Display.Screen(b.gfx, true)), Flag, b.collision)))
  }

  /** Family E (`op_exxx`): EX9E skips when key VX is held, EXA1 when it is
      not; every other low byte advances by 2. */
  function KeySkip(m: Machine, op: bv16): (r: Result<Machine>)
    requires WellFormed(m)
    ensures r.Ok? ==> WellFormed(r.value)
  {
    var key, sel := m.v[X(op)] as nat, NN(op);
    if sel == 0x9E || sel == 0xA1 then
      if key >= Keypad.KeyCount then Error(KeyOutOfRange(key))
      else Ok(SkipIf(m, if sel == 0x9E then m.keys[key] else !m.keys[key]))
    else Ok(Advance(m))
  }

  /** The lowest index at or after `from` of a held key. */
  function FirstPressed(keys: seq<bool>, from: nat): (r: Option<nat>)
    decreases |keys| - from
    ensures r.Some? ==> from <= r.value < |keys| && keys[r.value] &&
                        forall k :: from <= k < r.value ==> !keys[k]
    ensures r.None? ==> forall k :: from <= k < |keys| ==> !keys[k]
  {
    if from >= |keys| then None
    else if keys[from] then Some(from)
    else FirstPressed(keys, from + 1)
  }

  /** `wait_for_keypress`: VX := the lowest held key, if any, then `pc -= 2`
      (which panics below 2). */
  function WaitForKeypress(m: Machine, x: nat): (r: Result<Machine>)
    requires WellFormed(m) && x < RegisterCount
    ensures r.Ok? ==> WellFormed(r.value)
  {
    var m' := match FirstPressed(m.keys, 0)
      case Some(k) => SetV(m, x, k as bv8)
      case None => m;
    if m.pc < 2 then Error(PcUnderflow(m.pc)) else Ok(m'.(pc := m.pc - 2))
  }

  /** Family F (`op_fxxx`): timers, index and memory transfers, chosen by the low byte. */
  function Misc(m: Machine, op: bv16): (r: Result<Machine>)
    requires WellFormed(m)
    ensures r.Ok? ==> WellFormed(r.value)
  {
    AdvanceAfter(MiscCase(m, op, X(op), NN(op)))
  }

  /** The case of family F that selector sel (the low byte of op) picks, on
      register x, before the trailing `pc += 2`. */
  function MiscCase(m: Machine, op: bv16, x: nat, sel: bv8): (r: Result<Machine>)
    requires WellFormed(m) && x < RegisterCount
    ensures r.Ok? ==> WellFormed(r.value)
  {
    var vx := m.v[x];
    if sel == 0x07 then Ok(SetV(m, x, m.delayTimer))
    else if sel == 0x0A then WaitForKeypress(m, x)
    else if sel == 0x15 then Ok(m.(delayTimer := vx))
    else if sel == 0x18 then Ok(m.(soundTimer := vx))
    else if sel == 0x1E then Ok(m.(i := m.i + vx as nat))
    else if sel == 0x29 then Ok(m.(i := vx as nat * 5))
    else if sel == 0x33 then StoreDigits(m, vx)
    else if sel == 0x55 then StoreRegisters(m, x)
    else if sel == 0x65 then LoadRegisters(m, x)
    else Error(NotImplemented(op, m.pc))
  }

  /** FX33: the decimal digits of VX to memory[I], memory[I + 1], memory[I + 2]. */
  function StoreDigits(m: Machine, vx: bv8): (r: Result<Machine>)
    requires WellFormed(m)
    ensures r.Ok? ==> WellFormed(r.value)
  {
    if !InMemory(m.i, 3) then Error(OutOfMemory(m.i, 3))
    else Ok(m.(memory := m.memory[m.i := vx / 100][m.i + 1 := (vx / 10) % 10][m.i + 2 := (vx % 100) % 10]))
  }

  /** FX55: V0 .. VX to memory[I ..], then I := I + X + 1. */
  function StoreRegisters(m: Machine, x: nat): (r: Result<Machine>)
    requires WellFormed(m) && x < RegisterCount
    ensures r.Ok? ==> WellFormed(r.value)
  {
    if !InMemory(m.i, x + 1) then Error(OutOfMemory(m.i, x + 1))
    else Ok(m.(memory := Spill(m.memory, m.i, m.v[..x + 1]), i := m.i + x + 1))
  }

  /** FX65: V0 .. VX from memory[I ..], then I := I + X + 1. */
  function LoadRegisters(m: Machine, x: nat): (r: Result<Machine>)
    requires WellFormed(m) && x < RegisterCount
    ensures r.Ok? ==> WellFormed(r.value)
  {
    if !InMemory(m.i, x + 1) then Error(OutOfMemory(m.i, x + 1))
    else Ok(m.(v := m.memory[m.i .. m.i + x + 1] + m.v[x + 1..], i := m.i + x + 1))
  }

  /** The memory after writing bytes at address start. */
  function Spill(memory: seq<bv8>, start: nat, bytes: seq<bv8>): (r: seq<bv8>)
    requires start + |bytes| <= |memory|
    ensures |r| == |memory|
  {
    memory[..start] + bytes + memory[start + |bytes|..]
  }

  // ---------------------------------------------------------------------
  // Dispatch, the cycle, start-up and loading.
  // ---------------------------------------------------------------------

  /** `opcode_execute`: dispatch on the high nibble. */
  function Execute(m: Machine, op: bv16, random: bv8): (r: Result<Machine>)
    requires WellFormed(m)
    ensures r.Ok? ==> WellFormed(r.value)
  {
    match Family(op)
    case 0x0 => System(m, op)
    case 0x1 => Jump(m, op)
    case 0x2 => Call(m, op)
    case 0x3 => SkipIfEqualByte(m, op)
    case 0x4 => SkipIfNotEqualByte(m, op)
    case 0x5 => SkipIfEqualRegister(m, op)
    case 0x6 => LoadByte(m, op)
    case 0x7 => AddByte(m, op)
    case 0x8 => Arithmetic(m, op)
    case 0x9 => SkipIfNotEqualRegister(m, op)
    case 0xA => SetIndex(m, op)
    case 0xB => JumpOffset(m, op)
    case 0xC => RandomByte(m, op, random)
    case 0xD => DrawSprite(m, op)
    case 0xE => KeySkip(m, op)
    case _ => Misc(m, op)
  }

  /** Fetch, then execute. */
  function Step(m: Machine, random: bv8): (r: Result<Machine>)
    requires WellFormed(m)
    ensures r.Ok? ==> WellFormed(r.value)
  {
    match Fetch(m)
    case Error(h) => Error(h)
    case Ok(op) => Execute(m, op, random)
  }

  /** The timer part of `emulate_cycle`: each timer counts down to 0. */
  function TickTimers(m: Machine): (r: Machine)
  {
    m.(delayTimer := if m.delayTimer > 0 then m.delayTimer - 1 else m.delayTimer,
       soundTimer := if m.soundTimer > 0 then m.soundTimer - 1 else m.soundTimer)
  }

  /** `emulate_cycle`: one instruction, then one timer tick. */
  function Cycle(m: Machine, random: bv8): (r: Result<Machine>)
    requires WellFormed(m)
    ensures r.Ok? ==> WellFormed(r.value)
  {
    match Step(m, random)
    case Error(h) => Error(h)
    case Ok(m') => Ok(TickTimers(m'))
  }

  /** The state `Cpu::new` builds: the font at address 0, all else zero,
      `pc` and `i` at 0x200, no key held, a cleared screen. */
  function Initial(): (m: Machine)
    ensures WellFormed(m)
  {
    Machine(FontSet + seq(MemorySize - |FontSet|, _ => 0), seq(RegisterCount, _ => 0),
            ProgramStart, ProgramStart, seq(StackSize, _ => 0), 0, 0, 0,
            Keypad.Released(), Display.Cleared())
  }

  /** `load_to_memory`: the program's bytes go to memory[pc ..], one per
      step of `pc`, which then returns to 0x200. */
  function Load(m: Machine, rom: seq<bv8>): (r: Result<Machine>)
    requires WellFormed(m)
    ensures r.Ok? ==> WellFormed(r.value)
  {
    if |rom| == 0 then Ok(m.(pc := ProgramStart))
    else if !InMemory(m.pc, |rom|) then Error(OutOfMemory(m.pc, |rom|))
    else Ok(m.(memory := Spill(m.memory, m.pc, rom), pc := ProgramStart))
  }
}
