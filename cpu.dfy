/** The `Cpu` object of src/cpu/mod.rs: memory, registers, stack and timers
    in place, with the keypad and display it owns. Every method is proved to
    do exactly what the corresponding function of module Chip8 says of the
    abstract state `State()`; where the original panics or exits, the
    method returns the `Halt` and leaves the state as it found it. */
module Cpu {
  import Display
  import Keypad
  import Chip8

  type Machine = Chip8.Machine
  type Halt = Chip8.Halt

  class Cpu {
    /** The opcode fetched last, which the handlers decode. */
    var opcode: bv16
    const memory: array<bv8>
    const v: array<bv8>
    var i: nat
    var pc: nat
    const stack: array<Chip8.uint16>
    var sp: nat
    var delayTimer: bv8
    var soundTimer: bv8
    const keypad: Keypad.Keypad
    const display: Display.Display

    ghost predicate Valid()
      reads this`sp, keypad, display, display.gfx
    {
      memory.Length == Chip8.MemorySize && v.Length == Chip8.RegisterCount &&
      stack.Length == Chip8.StackSize && sp <= Chip8.StackSize &&
      Distinct() && keypad.Valid() && display.Valid()
    }

    /** The four arrays are separate objects, so writing one leaves the others alone. */
    ghost predicate Distinct()
      reads keypad
    {
      memory != v && memory as object != stack && v as object != stack &&
      keypad.keys as object != memory && keypad.keys as object != v && keypad.keys as object != stack
    }

    /** The abstract state the arrays and fields hold. */
    ghost function State(): (m: Machine)
      requires Valid()
      reads this`i, this`pc, this`sp, this`delayTimer, this`soundTimer
      reads memory, v, stack, keypad, keypad.keys, display, display.gfx
      ensures Chip8.WellFormed(m)
    {
      Chip8.Machine(memory[..], v[..], i, pc, stack[..], sp, delayTimer, soundTimer,
                    keypad.keys[..], display.View())
    }

    /** How a handler ended: with no halt the new state is the one `expected`
        describes; with a halt, `expected` is that halt and the state is
        still `before`. */
    ghost predicate Outcome(halt: Chip8.Option<Halt>, expected: Chip8.Result<Machine>, before: Machine)
      requires Valid()
      reads this`i, this`pc, this`sp, this`delayTimer, this`soundTimer
      reads memory, v, stack, keypad, keypad.keys, display, display.gfx
    {
      match halt
      case None => expected == Chip8.Ok(State())
      case Some(h) => expected == Chip8.Error(h) && State() == before
    }

    /** `Cpu::new`: all zero, `pc` and `i` at 0x200, the font at address 0,
        a fresh keypad and a fresh display (the renderer is left out). */
    constructor ()
      ensures Valid() && fresh(memory) && fresh(v) && fresh(stack) && fresh(keypad) && fresh(keypad.keys)
      ensures fresh(display) && fresh(display.gfx)
      ensures State() == Chip8.Initial()
    {
      opcode := 0;
      memory := new bv8[Chip8.MemorySize](_ => 0);
      v := new bv8[Chip8.RegisterCount](_ => 0);
      i := Chip8.ProgramStart;
      pc := Chip8.ProgramStart;
      stack := new Chip8.uint16[Chip8.StackSize](_ => 0);
      sp := 0;
      delayTimer := 0;
      soundTimer := 0;
      keypad := new Keypad.Keypad();
      display := new Display.Display();
      new;
      LoadFont();
      assert v[..] == Chip8.Initial().v;
      assert stack[..] == Chip8.Initial().stack;
    }

    /** The font loop of `Cpu::new`: FONTSET to the start of a zeroed memory. */
    method LoadFont()
      requires memory.Length == Chip8.MemorySize && forall a :: 0 <= a < Chip8.MemorySize ==> memory[a] == 0
      modifies memory
      ensures memory[..] == Chip8.Initial().memory
    {
      var k := 0;
      while k < |Chip8.FontSet|
        invariant 0 <= k <= |Chip8.FontSet|
        invariant forall a :: 0 <= a < k ==> memory[a] == Chip8.FontSet[a]
        invariant forall a :: k <= a < Chip8.MemorySize ==> memory[a] == 0
      {
        memory[k] := Chip8.FontSet[k];
        k := k + 1;
      }
    }

    // -------------------------------------------------------------------
    // Fetch and the families that only move pc or touch a few fields.
    // -------------------------------------------------------------------

    /** `load_to_memory`: each byte of the program goes to memory[pc] and
        pc moves on by one; at the end pc returns to 0x200. A byte that
        would land past the end of memory panics. */
    method LoadToMemory(rom: seq<bv8>) returns (halt: Chip8.Option<Halt>)
      requires Valid()
      modifies this`pc, memory
      ensures Valid() && Outcome(halt, Chip8.Load(old(State()), rom), old(State()))
    {
      if |rom| > 0 && pc + |rom| > Chip8.MemorySize {
        return Chip8.Some(Chip8.OutOfMemory(pc, |rom|));
      }
      ghost var m := State();
      var k := 0;
      while k < |rom|
        modifies this`pc, memory
        invariant 0 <= k <= |rom| && pc == m.pc + k
        invariant forall a :: 0 <= a < Chip8.MemorySize ==>
          memory[a] == if m.pc <= a < m.pc + k then rom[a - m.pc] else m.memory[a]
      {
        memory[pc] := rom[k];
        pc := pc + 1;
        k := k + 1;
      }
      pc := Chip8.ProgramStart;
      if |rom| > 0 {
        assert memory[..] == Chip8.Spill(m.memory, m.pc, rom);
        assert State() == m.(memory := Chip8.Spill(m.memory, m.pc, rom), pc := Chip8.ProgramStart);
      } else {
        assert memory[..] == m.memory;
        assert State() == m.(pc := Chip8.ProgramStart);
      }
      halt := Chip8.None;
    }

    /** `emulate_cycle` without its pause: fetch, execute, then each timer
        counts down to 0; `random` is the byte `op_cxxx` would draw. */
    method EmulateCycle(random: bv8) returns (halt: Chip8.Option<Halt>)
      requires Valid()
      modifies this`opcode, this`i, this`pc, this`sp, this`delayTimer, this`soundTimer
      modifies memory, v, stack, display, display.gfx
      ensures Valid() && Outcome(halt, Chip8.Cycle(old(State()), random), old(State()))
    {
      ghost var m := State();
      halt := FetchOpcode();
      if halt.Some? {
        return;
      }
      CycleExecutes(m, opcode, random);
      halt := OpcodeExecute(random);
      if halt.Some? {
        return;
      }
      Tick(State());
    }

    /** The timer part of `emulate_cycle`: each timer counts down to 0
        (the beep at 1 is left out). */
    method Tick(ghost s: Machine)
      requires Valid() && State() == s
      modifies this`delayTimer, this`soundTimer
      ensures Valid() && State() == Chip8.TickTimers(s)
    {
      var delay, sound := delayTimer, soundTimer;
      if delay > 0 {
        delay := delay - 1;
      }
      if sound > 0 {
        sound := sound - 1;
      }
      delayTimer, soundTimer := delay, sound;
    }

    /** `opcode_execute`: the handler the high nibble of the opcode picks. */
    method OpcodeExecute(random: bv8) returns (halt: Chip8.Option<Halt>)
      requires Valid()
      modifies this`i, this`pc, this`sp, this`delayTimer, this`soundTimer
      modifies memory, v, stack, display, display.gfx
      ensures Valid() && Outcome(halt, Chip8.Execute(old(State()), opcode, random), old(State()))
    {
      var family := Chip8.Family(opcode);
      halt := Chip8.None;
      if family == 0x0 {
        halt := System();
      } else if family == 0x1 {
        Jump();
      } else if family == 0x2 {
        halt := Call();
      } else if family == 0x3 {
        SkipIfEqualByte();
      } else if family == 0x4 {
        SkipIfNotEqualByte();
      } else if family == 0x5 {
        SkipIfEqualRegister();
      } else if family == 0x6 {
        LoadByte();
      } else if family == 0x7 {
        AddByte();
      } else if family == 0x8 {
        halt := Arithmetic();
      } else if family == 0x9 {
        SkipIfNotEqualRegister();
      } else if family == 0xA {
        SetIndex();
      } else if family == 0xB {
        JumpOffset();
      } else if family == 0xC {
        RandomByte(random);
      } else if family == 0xD {
        halt := DrawSprite();
      } else if family == 0xE {
        halt := KeySkip();
      } else {
        halt := Misc();
      }
    }

    /** `fetch_opcode`: the big-endian word at pc becomes the current
        opcode; reading past the last byte stops the interpreter. */
    method FetchOpcode() returns (halt: Chip8.Option<Halt>)
      requires Valid()
      modifies this`opcode
      ensures Valid() && State() == old(State())
      ensures match Chip8.Fetch(State())
        case Ok(op) => halt.None? && opcode == op
        case Error(h) => halt == Chip8.Some(h)
    {
      if pc + 1 >= Chip8.MemorySize {
        return Chip8.Some(Chip8.OutOfMemory(pc, 2));
      }
      opcode := ((memory[pc] as bv16) << 8) | (memory[pc + 1] as bv16);
      halt := Chip8.None;
    }

    /** `op_0xxx`: only the low nibble is tested; 0 clears the screen, E
        pops the return address, anything else is not implemented. */
    method System() returns (halt: Chip8.Option<Halt>)
      requires Valid()
      modifies this`pc, this`sp, display, display.gfx
      ensures Valid() && Outcome(halt, Chip8.System(old(State()), opcode), old(State()))
    {
      var sel := Chip8.N(opcode);
      ghost var m := State();
      if sel == 0x0 {
        display.Clear();
        assert State() == m.(screen := Display.Cleared());
      } else if sel == 0xE {
        if sp == 0 {
          return Chip8.Some(Chip8.StackUnderflow);
        }
        sp := sp - 1;
        pc := stack[sp] as nat;
      } else {
        return Chip8.Some(Chip8.NotImplemented(opcode, pc));
      }
      pc := pc + 2;
      halt := Chip8.None;
    }

    /** `op_1xxx`. */
    method Jump()
      requires Valid()
      modifies this`pc
      ensures Valid() && Chip8.Jump(old(State()), opcode) == Chip8.Ok(State())
    {
      pc := Chip8.NNN(opcode) as nat;
    }

    /** `op_2xxx`: a seventeenth nested call overflows the stack array. */
    method Call() returns (halt: Chip8.Option<Halt>)
      requires Valid()
      modifies this`pc, this`sp, stack
      ensures Valid() && Outcome(halt, Chip8.Call(old(State()), opcode), old(State()))
    {
      if sp >= Chip8.StackSize {
        return Chip8.Some(Chip8.StackOverflow);
      }
      var entry := (pc % 0x1_0000) as Chip8.uint16;
      ghost var m := State();
      stack[sp] := entry;
      assert stack[..] == m.stack[sp := entry];
      sp := sp + 1;
      pc := Chip8.NNN(opcode) as nat;
      halt := Chip8.None;
    }

    /** `op_3xxx`. */
    method SkipIfEqualByte()
      requires Valid()
      modifies this`pc
      ensures Valid() && Chip8.SkipIfEqualByte(old(State()), opcode) == Chip8.Ok(State())
    {
      pc := pc + if v[Chip8.X(opcode)] == Chip8.NN(opcode) then 4 else 2;
    }

    /** `op_4xxx`. */
    method SkipIfNotEqualByte()
      requires Valid()
      modifies this`pc
      ensures Valid() && Chip8.SkipIfNotEqualByte(old(State()), opcode) == Chip8.Ok(State())
    {
      pc := pc + if v[Chip8.X(opcode)] != Chip8.NN(opcode) then 4 else 2;
    }

    /** `op_5xxx`. */
    method SkipIfEqualRegister()
      requires Valid()
      modifies this`pc
      ensures Valid() && Chip8.SkipIfEqualRegister(old(State()), opcode) == Chip8.Ok(State())
    {
      pc := pc + if v[Chip8.X(opcode)] == v[Chip8.Y(opcode)] then 4 else 2;
    }

    /** `op_6xxx`. */
    method LoadByte()
      requires Valid()
      modifies this`pc, v
      ensures Valid() && Chip8.LoadByte(old(State()), opcode) == Chip8.Ok(State())
    {
      var x := Chip8.X(opcode);
      ghost var m := State();
      v[x] := Chip8.NN(opcode);
      pc := pc + 2;
      assert v[..] == m.v[x := Chip8.NN(opcode)];
    }

    /** `op_7xxx`: `wrapping_add`, which bv8 addition is. */
    method AddByte()
      requires Valid()
      modifies this`pc, v
      ensures Valid() && Chip8.AddByte(old(State()), opcode) == Chip8.Ok(State())
    {
      var x := Chip8.X(opcode);
      var b := v[x] + Chip8.NN(opcode);
      ghost var m := State();
      v[x] := b;
      pc := pc + 2;
      assert v[..] == m.v[x := b];
    }

    /** `op_9xxx`. */
    method SkipIfNotEqualRegister()
      requires Valid()
      modifies this`pc
      ensures Valid() && Chip8.SkipIfNotEqualRegister(old(State()), opcode) == Chip8.Ok(State())
    {
      pc := pc + if v[Chip8.X(opcode)] != v[Chip8.Y(opcode)] then 4 else 2;
    }

    /** `op_axxx`. */
    method SetIndex()
      requires Valid()
      modifies this`i, this`pc
      ensures Valid() && Chip8.SetIndex(old(State()), opcode) == Chip8.Ok(State())
    {
      i := Chip8.NNN(opcode) as nat;
      pc := pc + 2;
    }

    /** `op_bxxx`: V0 + NNN, which the 16-bit sum of the source holds exactly. */
    method JumpOffset()
      requires Valid()
      modifies this`pc
      ensures Valid() && Chip8.JumpOffset(old(State()), opcode) == Chip8.Ok(State())
    {
      pc := v[0] as nat + Chip8.NNN(opcode) as nat;
    }

    /** `op_cxxx`, with the byte `rand::random` would give passed in. */
    method RandomByte(random: bv8)
      requires Valid()
      modifies this`pc, v
      ensures Valid() && Chip8.RandomByte(old(State()), opcode, random) == Chip8.Ok(State())
    {
      var x, b := Chip8.X(opcode), Chip8.NN(opcode) & random;
      ghost var m := State();
      v[x] := b;
      pc := pc + 2;
      assert v[..] == m.v[x := b];
    }

    /** `op_dxxx`: the display XORs the N bytes at memory[I ..] onto the
        screen at (VX, VY) and VF takes the collision byte; a slice past
        the end of memory panics. */
    method DrawSprite() returns (halt: Chip8.Option<Halt>)
      requires Valid()
      modifies this`pc, v, display, display.gfx
      ensures Valid() && Outcome(halt, Chip8.DrawSprite(old(State()), opcode), old(State()))
    {
      var x, y, n := v[Chip8.X(opcode)] as nat, v[Chip8.Y(opcode)] as nat, Chip8.N(opcode) as nat;
      if i + n > Chip8.MemorySize {
        return Chip8.Some(Chip8.OutOfMemory(i, n));
      }
      ghost var m := State();
      var sprite := memory[i..i + n];
      DrawnState(m, opcode, x, y, sprite);
      DrawAt(x, y, sprite, m);
      halt := Chip8.None;
    }

    /** The effect of DXYN once the sprite is known to lie inside memory:
        XOR it onto the screen, VF := collision, next instruction. */
    method DrawAt(x: nat, y: nat, sprite: seq<bv8>, ghost m: Machine)
      requires Valid() && State() == m
      modifies this`pc, v, display, display.gfx
      ensures Valid()
      ensures var b := Display.XorSprite(m.screen.gfx, x, y, sprite);
        State() == m.(screen := Display.Screen(b.gfx, true), v := m.v[Chip8.Flag := b.collision], pc := m.pc + 2)
    {
      var collision := display.Draw(x, y, sprite);
      v[Chip8.Flag] := collision;
      pc := pc + 2;
      assert v[..] == m.v[Chip8.Flag := collision];
    }

    /** `op_exxx`: EX9E skips when key VX is held and EXA1 when it is not;
        a key number past 15 panics in `pressed`. */
    method KeySkip() returns (halt: Chip8.Option<Halt>)
      requires Valid()
      modifies this`pc
      ensures Valid() && Outcome(halt, Chip8.KeySkip(old(State()), opcode), old(State()))
    {
      var key, sel := v[Chip8.X(opcode)] as nat, Chip8.NN(opcode);
      ghost var m := State();
      var skip: nat;
      if sel == 0x9E || sel == 0xA1 {
        if key >= Keypad.KeyCount {
          return Chip8.Some(Chip8.KeyOutOfRange(key));
        }
        var pressed := keypad.Pressed(key);
        skip := if (if sel == 0x9E then pressed else !pressed) then 4 else 2;
        assert Chip8.KeySkip(m, opcode) == Chip8.Ok(Chip8.SkipIf(m, if sel == 0x9E then m.keys[key] else !m.keys[key]));
      } else {
        skip := 2;
      }
      pc := pc + skip;
      assert State() == m.(pc := m.pc + skip);
      halt := Chip8.None;
    }

    // -------------------------------------------------------------------
    // Family F: timers, index and memory transfers.
    // -------------------------------------------------------------------

    /** `op_fxxx`: the case the low byte picks, then `pc += 2`. */
    method Misc() returns (halt: Chip8.Option<Halt>)
      requires Valid()
      modifies this`i, this`pc, this`delayTimer, this`soundTimer, memory, v
      ensures Valid() && Outcome(halt, Chip8.Misc(old(State()), opcode), old(State()))
    {
      ghost var m := State();
      halt := MiscCase(Chip8.X(opcode), Chip8.NN(opcode), m);
      if halt.Some? {
        return;
      }
      pc := pc + 2;
    }

    /** The case of `op_fxxx` that selector sel picks, on register x of state m. */
    method MiscCase(x: nat, sel: bv8, ghost m: Machine) returns (halt: Chip8.Option<Halt>)
      requires Valid() && State() == m && x < Chip8.RegisterCount
      modifies this`i, this`pc, this`delayTimer, this`soundTimer, memory, v
      ensures Valid() && Outcome(halt, Chip8.MiscCase(m, opcode, x, sel), m)
    {
      if sel == 0x07 || sel == 0x15 || sel == 0x18 || sel == 0x1E || sel == 0x29 {
        Transfer(x, sel);
        halt := Chip8.None;
      } else if sel == 0x0A {
        halt := WaitForKeypress(x);
      } else if sel == 0x33 {
        halt := StoreDigits(x);
      } else if sel == 0x55 {
        halt := StoreRegisters(x);
      } else if sel == 0x65 {
        halt := LoadRegisters(x);
      } else {
        halt := Chip8.Some(Chip8.NotImplemented(opcode, pc));
      }
    }

    /** FX07, FX15, FX18, FX1E and FX29: copies between VX, the timers and I. */
    method Transfer(x: nat, sel: bv8)
      requires Valid() && x < Chip8.RegisterCount
      requires sel == 0x07 || sel == 0x15 || sel == 0x18 || sel == 0x1E || sel == 0x29
      modifies this`i, this`delayTimer, this`soundTimer, v
      ensures Valid() && Chip8.MiscCase(old(State()), opcode, x, sel) == Chip8.Ok(State())
    {
      ghost var m := State();
      if sel == 0x07 {
        v[x] := delayTimer;
        assert v[..] == m.v[x := m.delayTimer];
      } else if sel == 0x15 {
        delayTimer := v[x];
      } else if sel == 0x18 {
        soundTimer := v[x];
      } else if sel == 0x1E {
        i := i + v[x] as nat;
      } else {
        i := v[x] as nat * 5;
      }
    }

    /** `wait_for_keypress` (FX0A): VX := the lowest held key, if any, then
        `pc -= 2`, so that with the `pc += 2` after it the instruction runs
        again until a key is held. Below address 2 the subtraction panics. */
    method WaitForKeypress(x: nat) returns (halt: Chip8.Option<Halt>)
      requires Valid() && x < Chip8.RegisterCount
      modifies this`pc, v
      ensures Valid() && Outcome(halt, Chip8.WaitForKeypress(old(State()), x), old(State()))
    {
      if pc < 2 {
        return Chip8.Some(Chip8.PcUnderflow(pc));
      }
      ghost var m := State();
      var k := FirstHeldKey();
      WaitEndsAt(m, x, k);
      if k < Keypad.KeyCount {
        v[x] := k as bv8;
        assert v[..] == m.v[x := k as bv8];
      }
      pc := pc - 2;
      halt := Chip8.None;
    }

    /** The loop of `wait_for_keypress`: the lowest held key, or 16 when no
        key is held. */
    method FirstHeldKey() returns (k: nat)
      requires Valid()
      ensures k <= Keypad.KeyCount
      ensures forall j :: 0 <= j < k ==> !keypad.keys[j]
      ensures k < Keypad.KeyCount ==> keypad.keys[k]
      ensures k < Keypad.KeyCount <==> Chip8.FirstPressed(keypad.keys[..], 0) == Chip8.Some(k)
    {
      k := 0;
      while k < Keypad.KeyCount
        invariant 0 <= k <= Keypad.KeyCount
        invariant forall j :: 0 <= j < k ==> !keypad.keys[j]
      {
        var pressed := keypad.Pressed(k);
        if pressed {
          break;
        }
        k := k + 1;
      }
    }

    /** FX33: the hundreds, tens and units of VX to memory[I], [I + 1] and
        [I + 2]; an address past the end panics. */
    method StoreDigits(x: nat) returns (halt: Chip8.Option<Halt>)
      requires Valid() && x < Chip8.RegisterCount
      modifies memory
      ensures Valid() && Outcome(halt, Chip8.StoreDigits(old(State()), old(v[x])), old(State()))
    {
      if i + 3 > Chip8.MemorySize {
        return Chip8.Some(Chip8.OutOfMemory(i, 3));
      }
      ghost var m := State();
      var vx := v[x];
      memory[i] := vx / 100;
      memory[i + 1] := (vx / 10) % 10;
      memory[i + 2] := (vx % 100) % 10;
      assert memory[..] == m.memory[i := vx / 100][i + 1 := (vx / 10) % 10][i + 2 := (vx % 100) % 10];
      halt := Chip8.None;
    }

    /** FX55: V0 .. VX to memory[I ..], then I := I + X + 1; an address past
        the end panics. */
    method StoreRegisters(x: nat) returns (halt: Chip8.Option<Halt>)
      requires Valid() && x < Chip8.RegisterCount
      modifies this`i, memory
      ensures Valid() && Outcome(halt, Chip8.StoreRegisters(old(State()), x), old(State()))
    {
      var end := x + 1;
      if i + end > Chip8.MemorySize {
        return Chip8.Some(Chip8.OutOfMemory(i, end));
      }
      CopyOut(i, end);
      i := i + x + 1;
      halt := Chip8.None;
    }

    /** The loop of FX55: memory[to ..] := V0 .. V(count - 1). */
    method CopyOut(to: nat, count: nat)
      requires memory.Length == Chip8.MemorySize && v.Length == Chip8.RegisterCount && memory != v
      requires count <= Chip8.RegisterCount && to + count <= Chip8.MemorySize
      modifies memory
      ensures memory[..] == Chip8.Spill(old(memory[..]), to, v[..count])
    {
      ghost var before := memory[..];
      var k := 0;
      while k < count
        invariant 0 <= k <= count
        invariant forall a :: 0 <= a < Chip8.MemorySize ==> memory[a] == if to <= a < to + k then v[a - to] else before[a]
      {
        memory[to + k] := v[k];
        k := k + 1;
      }
      ghost var stored := Chip8.Spill(before, to, v[..count]);
      assert forall a :: 0 <= a < Chip8.MemorySize ==> memory[a] == stored[a];
      assert memory[..] == stored;
    }

    /** FX65: V0 .. VX from memory[I ..], then I := I + X + 1; an address
        past the end panics. */
    method LoadRegisters(x: nat) returns (halt: Chip8.Option<Halt>)
      requires Valid() && x < Chip8.RegisterCount
      modifies this`i, v
      ensures Valid() && Outcome(halt, Chip8.LoadRegisters(old(State()), x), old(State()))
    {
      var end := x + 1;
      if i + end > Chip8.MemorySize {
        return Chip8.Some(Chip8.OutOfMemory(i, end));
      }
      CopyIn(i, end);
      i := i + end;
      halt := Chip8.None;
    }

    /** The loop of FX65: V0 .. V(count - 1) := memory[from ..]. */
    method CopyIn(from: nat, count: nat)
      requires memory.Length == Chip8.MemorySize && v.Length == Chip8.RegisterCount && memory != v
      requires count <= Chip8.RegisterCount && from + count <= Chip8.MemorySize
      modifies v
      ensures v[..] == memory[from .. from + count] + old(v[..])[count..]
    {
      ghost var before := v[..];
      var k := 0;
      while k < count
        invariant 0 <= k <= count
        invariant forall r :: 0 <= r < Chip8.RegisterCount ==> v[r] == if r < k then memory[from + r] else before[r]
      {
        v[k] := memory[from + k];
        k := k + 1;
      }
      ghost var loaded := memory[from .. from + count] + before[count..];
      assert forall r :: 0 <= r < Chip8.RegisterCount ==> v[r] == loaded[r];
      assert v[..] == loaded;
    }

    // -------------------------------------------------------------------
    // Family 8: register arithmetic.
    // -------------------------------------------------------------------

    /** `op_8xxx`: the case the low nibble picks, then `pc += 2`. */
    method Arithmetic() returns (halt: Chip8.Option<Halt>)
      requires Valid()
      modifies this`pc, v
      ensures Valid() && Outcome(halt, Chip8.Arithmetic(old(State()), opcode), old(State()))
    {
      var x, y, sel := Chip8.X(opcode), Chip8.Y(opcode), Chip8.N(opcode);
      ghost var m := State();
      if sel <= 0x3 {
        Logic(x, y, sel, m);
      } else if sel == 0x4 || sel == 0x5 || sel == 0x7 {
        Flagged(x, y, sel, m);
      } else if sel == 0x6 || sel == 0xE {
        Shift(x, y, sel, m);
      } else {
        return Chip8.Some(Chip8.NotImplemented(opcode, pc));
      }
      assert State() == m.(v := v[..]);
      pc := pc + 2;
      halt := Chip8.None;
    }

    /** 8XY0 .. 8XY3: VX := VY, VX | VY, VX & VY or VX ^ VY, on the
        registers of state m. */
    method Logic(x: nat, y: nat, sel: bv8, ghost m: Machine)
      requires Chip8.WellFormed(m) && v[..] == m.v
      requires x < Chip8.RegisterCount && y < Chip8.RegisterCount && sel <= 0x3
      modifies v
      ensures Chip8.ArithmeticCase(m, opcode, x, y, sel) == Chip8.Ok(m.(v := v[..]))
    {
      var b := Chip8.Combine(sel, v[x], v[y]);
      v[x] := b;
      assert v[..] == m.v[x := b];
    }

    /** 8XY4, 8XY5 and 8XY7: `overflowing_add` or `overflowing_sub`, then
        VX := the result and VF := the carry or borrow, on the registers of
        state m. */
    method Flagged(x: nat, y: nat, sel: bv8, ghost m: Machine)
      requires Chip8.WellFormed(m) && v[..] == m.v
      requires x < Chip8.RegisterCount && y < Chip8.RegisterCount && (sel == 0x4 || sel == 0x5 || sel == 0x7)
      modifies v
      ensures Chip8.ArithmeticCase(m, opcode, x, y, sel) == Chip8.Ok(m.(v := v[..]))
    {
      var result, overflow;
      if sel == 0x4 {
        result, overflow := Chip8.OverflowingAdd(v[x], v[y]).0, Chip8.OverflowingAdd(v[x], v[y]).1;
      } else if sel == 0x5 {
        result, overflow := Chip8.OverflowingSub(v[x], v[y]).0, Chip8.OverflowingSub(v[x], v[y]).1;
      } else {
        result, overflow := Chip8.OverflowingSub(v[y], v[x]).0, Chip8.OverflowingSub(v[y], v[x]).1;
      }
      assert Chip8.ArithmeticCase(m, opcode, x, y, sel) == Chip8.Ok(Chip8.SetWithFlag(m, x, (result, overflow)));
      v[x] := result;
      v[Chip8.Flag] := if overflow then 1 else 0;
      assert v[..] == m.v[x := result][Chip8.Flag := Chip8.FlagByte(overflow)];
    }

    /** 8XY6 and 8XYE: VF := the bit about to be shifted out, then VX is
        shifted, read again after that write; on the registers of state m. */
    method Shift(x: nat, y: nat, sel: bv8, ghost m: Machine)
      requires Chip8.WellFormed(m) && v[..] == m.v
      requires x < Chip8.RegisterCount && y < Chip8.RegisterCount && (sel == 0x6 || sel == 0xE)
      modifies v
      ensures Chip8.ArithmeticCase(m, opcode, x, y, sel) == Chip8.Ok(m.(v := v[..]))
    {
      if sel == 0x6 {
        assert Chip8.ArithmeticCase(m, opcode, x, y, sel) == Chip8.Ok(Chip8.ShiftRight(m, x));
        v[Chip8.Flag] := v[x] & 0x1;
        v[x] := v[x] >> 1;
        assert v[..] == Chip8.ShiftRight(m, x).v;
      } else {
        assert Chip8.ArithmeticCase(m, opcode, x, y, sel) == Chip8.Ok(Chip8.ShiftLeft(m, x));
        v[Chip8.Flag] := v[x] >> 7;
        v[x] := v[x] << 1;
        assert v[..] == Chip8.ShiftLeft(m, x).v;
      }
    }
  }

  /** The state DXYN leaves when the sprite lies inside memory, spelled out
      the way `op_dxxx` builds it. */
  lemma DrawnState(m: Machine, op: bv16, x: nat, y: nat, sprite: seq<bv8>)
    requires Chip8.WellFormed(m) && m.i + Chip8.N(op) as nat <= Chip8.MemorySize
    requires x == m.v[Chip8.X(op)] as nat && y == m.v[Chip8.Y(op)] as nat
    requires sprite == m.memory[m.i .. m.i + Chip8.N(op) as nat]
    ensures var b := Display.XorSprite(m.screen.gfx, x, y, sprite);
      Chip8.DrawSprite(m, op) ==
      Chip8.Ok(m.(screen := Display.Screen(b.gfx, true), v := m.v[Chip8.Flag := b.collision], pc := m.pc + 2))
  {
  }

  /** A cycle whose fetch succeeds is the execution of the fetched opcode
      followed by a timer tick, or the execution's halt. */
  lemma CycleExecutes(m: Machine, op: bv16, random: bv8)
    requires Chip8.WellFormed(m) && Chip8.Fetch(m) == Chip8.Ok(op)
    ensures Chip8.Cycle(m, random) ==
      match Chip8.Execute(m, op, random)
      case Ok(m') => Chip8.Ok(Chip8.TickTimers(m'))
      case Error(h) => Chip8.Error(h)
  {
  }

  /** FX0A when the first held key is k, or when no key is held (k = 16). */
  lemma WaitEndsAt(m: Machine, x: nat, k: nat)
    requires Chip8.WellFormed(m) && x < Chip8.RegisterCount && m.pc >= 2 && k <= Keypad.KeyCount
    requires forall j :: 0 <= j < k ==> !m.keys[j]
    requires k < Keypad.KeyCount ==> m.keys[k]
    ensures k < Keypad.KeyCount ==>
      Chip8.WaitForKeypress(m, x) == Chip8.Ok(m.(v := m.v[x := k as bv8], pc := m.pc - 2))
    ensures k == Keypad.KeyCount ==> Chip8.WaitForKeypress(m, x) == Chip8.Ok(m.(pc := m.pc - 2))
  {
    var first := Chip8.FirstPressed(m.keys, 0);
    if k < Keypad.KeyCount {
      assert first == Chip8.Some(k);
    } else {
      assert first == Chip8.None;
    }
  }
}
