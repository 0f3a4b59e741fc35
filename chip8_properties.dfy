/** What the instructions of src/cpu/mod.rs do, stated for every machine
    state and every opcode of a given shape, and proved from the transition
    function of module Chip8. */
module Chip8Properties {
  import Display
  import Keypad
  import opened Chip8

  // ---------------------------------------------------------------------
  // Decoding.
  // ---------------------------------------------------------------------

  /** The fields nest: NNN is the opcode below its family nibble, NN the
      low byte of NNN, N the low nibble of NN. */
  lemma FieldsNest(op: bv16)
    ensures op == (op & 0xF000) | NNN(op)
    ensures NNN(op) & 0xFF == NN(op) as bv16
    ensures NN(op) & 0xF == N(op)
  {
  }

  /** A fetch succeeds exactly when both bytes are inside memory, and reads
      memory[pc] as the high byte and memory[pc + 1] as the low one. */
  lemma FetchBigEndian(m: Machine)
    requires WellFormed(m)
    ensures Fetch(m).Ok? <==> m.pc + 1 < MemorySize
    ensures Fetch(m).Ok? ==> Fetch(m).value >> 8 == m.memory[m.pc] as bv16
    ensures Fetch(m).Ok? ==> Fetch(m).value & 0xFF == m.memory[m.pc + 1] as bv16
  {
  }

  // ---------------------------------------------------------------------
  // Byte arithmetic. Sixteen-bit sums and differences of two bytes cannot
  // wrap, so they are the true values the eight-bit results are compared with.
  // ---------------------------------------------------------------------

  /** `overflowing_add` gives the sum modulo 256 and reports a carry exactly
      when the true sum exceeds 255. */
  lemma OverflowingAddMeaning(a: bv8, b: bv8)
    ensures OverflowingAdd(a, b).0 as bv16 == (a as bv16 + b as bv16) & 0xFF
    ensures OverflowingAdd(a, b).1 <==> a as bv16 + b as bv16 > 0xFF
  {
  }

  /** `overflowing_sub` gives the difference modulo 256 (the true difference,
      or 256 more than it when that is negative) and reports a borrow exactly
      when the true difference is negative. */
  lemma OverflowingSubMeaning(a: bv8, b: bv8)
    ensures OverflowingSub(a, b).1 <==> a as bv16 < b as bv16
    ensures !OverflowingSub(a, b).1 ==> OverflowingSub(a, b).0 as bv16 == a as bv16 - b as bv16
    ensures OverflowingSub(a, b).1 ==> OverflowingSub(a, b).0 as bv16 == 0x100 + a as bv16 - b as bv16
  {
  }

  // ---------------------------------------------------------------------
  // Start-up and loading.
  // ---------------------------------------------------------------------

  /** After `Cpu::new`: the font at addresses 0 .. 79 and zeros above it,
      pc = i = 0x200, an empty stack, zero registers and timers, no key held
      and a cleared screen waiting to be repainted. */
  lemma InitialState()
    ensures Initial().memory[..|FontSet|] == FontSet
    ensures forall a :: |FontSet| <= a < MemorySize ==> Initial().memory[a] == 0
    ensures Initial().pc == ProgramStart && Initial().i == ProgramStart && Initial().sp == 0
    ensures forall r :: 0 <= r < RegisterCount ==> Initial().v[r] == 0
    ensures Initial().delayTimer == 0 && Initial().soundTimer == 0
    ensures Initial().keys == Keypad.Released() && Initial().screen == Display.Cleared()
  {
  }

  /** Loading a program of b bytes at pc succeeds exactly when it fits,
      puts byte k at pc + k, leaves every other byte and field alone, and
      resets pc to 0x200. */
  lemma LoadPlacesProgram(m: Machine, rom: seq<bv8>)
    requires WellFormed(m)
    ensures Load(m, rom).Ok? <==> |rom| == 0 || m.pc + |rom| <= MemorySize
    ensures Load(m, rom).Ok? ==>
      var m' := Load(m, rom).value;
      (forall k :: 0 <= k < |rom| ==> m'.memory[m.pc + k] == rom[k]) &&
      (forall a :: 0 <= a < MemorySize && !(m.pc <= a < m.pc + |rom|) ==> m'.memory[a] == m.memory[a]) &&
      m' == m.(memory := m'.memory, pc := ProgramStart)
  {
  }

  /** A freshly started interpreter takes any program of up to 3584 bytes,
      which lands at 0x200 without touching the font. */
  lemma LoadAfterStart(rom: seq<bv8>)
    requires |rom| <= MemorySize - ProgramStart
    ensures Load(Initial(), rom).Ok?
    ensures Load(Initial(), rom).value.memory[ProgramStart .. ProgramStart + |rom|] == rom
    ensures Load(Initial(), rom).value.memory[..|FontSet|] == FontSet
    ensures Load(Initial(), rom).value.pc == ProgramStart
  {
  }

  // ---------------------------------------------------------------------
  // Family 0, jumps and subroutines.
  // ---------------------------------------------------------------------

  /** Every opcode of family 0 whose low nibble is 0 clears the screen, 00E0
      among them (only the low nibble is decoded): all pixels dark, a repaint
      requested, pc + 2, and nothing else changed. */
  lemma ClearScreen(m: Machine, op: bv16)
    requires WellFormed(m) && N(op) == 0x0
    ensures System(m, op).Ok?
    ensures var m' := System(m, op).value;
      (forall r, c :: 0 <= r < Display.Height && 0 <= c < Display.Width ==> m'.screen.gfx[r][c] == 0) &&
      m'.screen.drawFlag && m' == m.(screen := m'.screen, pc := m.pc + 2)
  {
  }

  /** 1NNN continues at NNN, with no + 2 and no other change. */
  lemma Jumps(m: Machine, op: bv16)
    requires WellFormed(m)
    ensures Jump(m, op) == Ok(m.(pc := NNN(op) as nat))
  {
  }

  /** BNNN continues at V0 + NNN, with no + 2 and no other change. */
  lemma JumpsWithOffset(m: Machine, op: bv16)
    requires WellFormed(m)
    ensures JumpOffset(m, op).value.pc == m.v[0] as nat + NNN(op) as nat
    ensures JumpOffset(m, op).value == m.(pc := JumpOffset(m, op).value.pc)
  {
  }

  /** 2NNN pushes the address of the call itself and continues at NNN; a
      later 00EE, reached with the stack as the call left it (whatever ran in
      between), pops that entry and continues just after the call. */
  lemma CallThenReturn(m: Machine, call: bv16, m1: Machine, body: Machine, ret: bv16)
    requires WellFormed(m) && m.pc < 0x1_0000 && Call(m, call) == Ok(m1)
    requires WellFormed(body) && body.sp == m1.sp && body.stack == m1.stack
    requires N(ret) == 0xE
    ensures m1 == m.(stack := m.stack[m.sp := m.pc as uint16], sp := m.sp + 1, pc := NNN(call) as nat)
    ensures body.stack[m.sp] as nat == m.pc
    ensures System(body, ret) == Ok(body.(sp := m.sp, pc := m.pc + 2))
  {
    var entry := m.pc as uint16;
    assert entry == (m.pc % 0x1_0000) as uint16;
    assert m.sp < StackSize && m1 == m.(stack := m.stack[m.sp := entry], sp := m.sp + 1, pc := NNN(call) as nat);
    assert body.stack[m.sp] == entry;
    ReturnPops(body, ret);
    assert body.stack[body.sp - 1] as nat + 2 == m.pc + 2;
  }

  /** 00EE with a non-empty stack: sp drops by one and execution continues
      2 bytes after the address in the slot it uncovers. */
  lemma ReturnPops(m: Machine, op: bv16)
    requires WellFormed(m) && N(op) == 0xE && m.sp > 0
    ensures System(m, op) == Ok(m.(sp := m.sp - 1, pc := m.stack[m.sp - 1] as nat + 2))
  {
  }

  /** A call with all sixteen slots in use and a return with none both stop
      the interpreter (the Rust index check and subtraction check). */
  lemma StackLimits(m: Machine, op: bv16)
    requires WellFormed(m)
    ensures Call(m, op).Error? <==> m.sp == StackSize
    ensures Call(m, op).Error? ==> Call(m, op).halt == StackOverflow
    ensures N(op) == 0xE ==> (System(m, op).Error? <==> m.sp == 0)
    ensures N(op) == 0xE && m.sp == 0 ==> System(m, op).halt == StackUnderflow
  {
  }

  // ---------------------------------------------------------------------
  // Conditional skips.
  // ---------------------------------------------------------------------

  /** 3XNN, 4XNN and 5XY_ advance pc by 4 exactly when their condition
      holds and by 2 otherwise, and change nothing else. */
  lemma Skips(m: Machine, op: bv16)
    requires WellFormed(m)
    ensures var r := SkipIfEqualByte(m, op).value;
      r == m.(pc := r.pc) && (r.pc == m.pc + 4 <==> m.v[X(op)] == NN(op)) && (r.pc == m.pc + 2 <==> m.v[X(op)] != NN(op))
    ensures var r := SkipIfNotEqualByte(m, op).value;
      r == m.(pc := r.pc) && (r.pc == m.pc + 4 <==> m.v[X(op)] != NN(op)) && (r.pc == m.pc + 2 <==> m.v[X(op)] == NN(op))
    ensures var r := SkipIfEqualRegister(m, op).value;
      r == m.(pc := r.pc) && (r.pc == m.pc + 4 <==> m.v[X(op)] == m.v[Y(op)]) && (r.pc == m.pc + 2 <==> m.v[X(op)] != m.v[Y(op)])
  {
  }

  /** 9XY_ advances pc by 4 exactly when VX != VY and by 2 otherwise, and
      changes nothing else. */
  lemma SkipsUnlessEqual(m: Machine, op: bv16)
    requires WellFormed(m)
    ensures var r := SkipIfNotEqualRegister(m, op).value;
      r == m.(pc := r.pc) && (r.pc == m.pc + 4 <==> m.v[X(op)] != m.v[Y(op)]) && (r.pc == m.pc + 2 <==> m.v[X(op)] == m.v[Y(op)])
  {
  }

  /** 5XY_ and 9XY_ do not look at their low nibble. */
  lemma RegisterSkipsIgnoreLowNibble(m: Machine, op: bv16)
    requires WellFormed(m)
    ensures SkipIfEqualRegister(m, op) == SkipIfEqualRegister(m, op & 0xFFF0)
    ensures SkipIfNotEqualRegister(m, op) == SkipIfNotEqualRegister(m, op & 0xFFF0)
  {
  }

  /** EX9E skips when key VX is held and EXA1 when it is not; either stops the
      interpreter when VX names no key; every other EX__ just advances by 2. */
  lemma KeySkips(m: Machine, op: bv16)
    requires WellFormed(m)
    ensures var key := m.v[X(op)] as nat;
      ((NN(op) == 0x9E || NN(op) == 0xA1) && key >= Keypad.KeyCount ==>
         KeySkip(m, op) == Error(KeyOutOfRange(key))) &&
      (NN(op) == 0x9E && key < Keypad.KeyCount ==>
         KeySkip(m, op) == Ok(m.(pc := m.pc + if m.keys[key] then 4 else 2))) &&
      (NN(op) == 0xA1 && key < Keypad.KeyCount ==>
         KeySkip(m, op) == Ok(m.(pc := m.pc + if m.keys[key] then 2 else 4))) &&
      (NN(op) != 0x9E && NN(op) != 0xA1 ==> KeySkip(m, op) == Ok(m.(pc := m.pc + 2)))
  {
  }

  // ---------------------------------------------------------------------
  // Registers.
  // ---------------------------------------------------------------------

  /** `wrapping_add` is the sum modulo 256. */
  lemma WrappingAdd(a: bv8, b: bv8)
    ensures (a + b) as bv16 == (a as bv16 + b as bv16) & 0xFF
  {
  }

  /** 6XNN sets VX to NN, changes no other register and advances pc by 2. */
  lemma LoadByteSets(m: Machine, op: bv16)
    requires WellFormed(m)
    ensures var m' := LoadByte(m, op).value;
      m' == m.(v := m'.v, pc := m.pc + 2) && m'.v == m.v[X(op) := NN(op)]
  {
  }

  /** 7XNN adds NN to VX modulo 256 without touching the flag, changes no
      other register and advances pc by 2. */
  lemma AddByteWraps(m: Machine, op: bv16)
    requires WellFormed(m)
    ensures var m', x := AddByte(m, op).value, X(op);
      m' == m.(v := m'.v, pc := m.pc + 2) &&
      (forall r :: 0 <= r < RegisterCount && r != x ==> m'.v[r] == m.v[r]) &&
      m'.v[x] as bv16 == (m.v[x] as bv16 + NN(op) as bv16) & 0xFF
  {
    var x, b := X(op), m.v[X(op)] + NN(op);
    assert AddByte(m, op).value == m.(v := m.v[x := b], pc := m.pc + 2);
    WrappingAdd(m.v[x], NN(op));
  }

  /** 8XY0 .. 8XY3 copy, or, and and xor VY into VX, and change nothing else. */
  lemma RegisterLogic(m: Machine, op: bv16)
    requires WellFormed(m) && N(op) <= 0x3
    ensures Arithmetic(m, op).Ok?
    ensures var m', x, y := Arithmetic(m, op).value, X(op), Y(op);
      m' == m.(v := m'.v, pc := m.pc + 2) &&
      (forall r :: 0 <= r < RegisterCount && r != x ==> m'.v[r] == m.v[r]) &&
      m'.v[x] == if N(op) == 0 then m.v[y] else if N(op) == 1 then m.v[x] | m.v[y]
                 else if N(op) == 2 then m.v[x] & m.v[y] else m.v[x] ^ m.v[y]
  {
  }

  /** Writing a result and then its flag: VF ends as the flag (0 or 1), VX
      as the result unless X is F, and no other register changes. */
  lemma FlagWritten(m: Machine, x: nat, result: (bv8, bool))
    requires WellFormed(m) && x < RegisterCount
    ensures var r := SetWithFlag(m, x, result);
      r == m.(v := r.v) &&
      (r.v[Flag] == 1 <==> result.1) && (r.v[Flag] == 0 || r.v[Flag] == 1) &&
      (x != Flag ==> r.v[x] == result.0) &&
      forall k :: 0 <= k < RegisterCount && k != x && k != Flag ==> r.v[k] == m.v[k]
  {
  }

  /** 8XY4: VX := VX + VY modulo 256 and VF := 1 exactly when the true sum
      exceeds 255 (with X = F the flag wins). */
  lemma AddRegisters(m: Machine, op: bv16)
    requires WellFormed(m) && N(op) == 0x4
    ensures Arithmetic(m, op).Ok?
    ensures var m', x, y := Arithmetic(m, op).value, X(op), Y(op);
      var vx, vy := m.v[x], m.v[y];
      m' == m.(v := m'.v, pc := m.pc + 2) &&
      (forall r :: 0 <= r < RegisterCount && r != x && r != Flag ==> m'.v[r] == m.v[r]) &&
      (m'.v[Flag] == 1 <==> vx as bv16 + vy as bv16 > 0xFF) && (m'.v[Flag] == 0 || m'.v[Flag] == 1) &&
      (x != Flag ==> m'.v[x] as bv16 == (vx as bv16 + vy as bv16) & 0xFF)
  {
    var result := OverflowingAdd(m.v[X(op)], m.v[Y(op)]);
    OverflowingAddMeaning(m.v[X(op)], m.v[Y(op)]);
    FlagWritten(m, X(op), result);
  }

  /** 8XY5: VX := VX - VY modulo 256 and VF := 1 exactly when VX < VY, that
      is on a borrow (with X = F the flag wins). */
  lemma SubtractRegisters(m: Machine, op: bv16)
    requires WellFormed(m) && N(op) == 0x5
    ensures Arithmetic(m, op).Ok?
    ensures var m', x, y := Arithmetic(m, op).value, X(op), Y(op);
      var vx, vy := m.v[x], m.v[y];
      m' == m.(v := m'.v, pc := m.pc + 2) &&
      (forall r :: 0 <= r < RegisterCount && r != x && r != Flag ==> m'.v[r] == m.v[r]) &&
      (m'.v[Flag] == 1 <==> vx < vy) && (m'.v[Flag] == 0 || m'.v[Flag] == 1) &&
      (x != Flag ==> m'.v[x] == vx - vy)
  {
    var x, y := X(op), Y(op);
    var result := OverflowingSub(m.v[x], m.v[y]);
    FlagWritten(m, x, result);
  }

  /** 8XY7: VX := VY - VX modulo 256 and VF := 1 exactly when VY < VX, that
      is on a borrow (with X = F the flag wins). */
  lemma ReverseSubtractRegisters(m: Machine, op: bv16)
    requires WellFormed(m) && N(op) == 0x7
    ensures Arithmetic(m, op).Ok?
    ensures var m', x, y := Arithmetic(m, op).value, X(op), Y(op);
      var vx, vy := m.v[x], m.v[y];
      m' == m.(v := m'.v, pc := m.pc + 2) &&
      (forall r :: 0 <= r < RegisterCount && r != x && r != Flag ==> m'.v[r] == m.v[r]) &&
      (m'.v[Flag] == 1 <==> vy < vx) && (m'.v[Flag] == 0 || m'.v[Flag] == 1) &&
      (x != Flag ==> m'.v[x] == vy - vx)
  {
    var x, y := X(op), Y(op);
    var result := OverflowingSub(m.v[y], m.v[x]);
    FlagWritten(m, x, result);
  }

  /** 8XY6 puts the bit shifted out of VX into VF, so shifting back and
      re-inserting that bit restores VX. With X = F the shift applies to the
      flag just written, which leaves VF = 0. */
  lemma ShiftRightFlag(m: Machine, op: bv16)
    requires WellFormed(m) && N(op) == 0x6
    ensures Arithmetic(m, op).Ok?
    ensures var m', x := Arithmetic(m, op).value, X(op);
      m' == m.(v := m'.v, pc := m.pc + 2) &&
      (forall r :: 0 <= r < RegisterCount && r != x && r != Flag ==> m'.v[r] == m.v[r]) &&
      (x != Flag ==> m'.v[x] == m.v[x] >> 1 && m'.v[Flag] == m.v[x] & 1) &&
      (x != Flag ==> (m'.v[Flag] == 0 || m'.v[Flag] == 1) && (m'.v[x] << 1) | m'.v[Flag] == m.v[x]) &&
      (x == Flag ==> m'.v[Flag] == 0)
  {
    assert ArithmeticCase(m, op, X(op), Y(op), N(op)) == Ok(ShiftRight(m, X(op)));
    ShiftRightLosesNothing(m.v[X(op)]);
  }

  /** The low bit and the byte shifted right by one rebuild the byte. */
  lemma ShiftRightLosesNothing(b: bv8)
    ensures ((b >> 1) << 1) | (b & 0x1) == b
  {
  }

  /** 8XYE puts the bit shifted out of VX into VF, so shifting back and
      re-inserting that bit restores VX. With X = F the shift applies to the
      flag just written, which leaves VF = 2 when the top bit was set. */
  lemma ShiftLeftFlag(m: Machine, op: bv16)
    requires WellFormed(m) && N(op) == 0xE
    ensures Arithmetic(m, op).Ok?
    ensures var m', x := Arithmetic(m, op).value, X(op);
      m' == m.(v := m'.v, pc := m.pc + 2) &&
      (forall r :: 0 <= r < RegisterCount && r != x && r != Flag ==> m'.v[r] == m.v[r]) &&
      (x != Flag ==> (m'.v[Flag] == 0 || m'.v[Flag] == 1) && (m'.v[Flag] << 7) | (m'.v[x] >> 1) == m.v[x]) &&
      (x == Flag ==> m'.v[Flag] == (m.v[x] >> 7) << 1)
  {
    assert ArithmeticCase(m, op, X(op), Y(op), N(op)) == Ok(ShiftLeft(m, X(op)));
    ShiftLeftMeaning(m, X(op));
  }

  /** The registers ShiftLeft leaves behind. */
  lemma ShiftLeftMeaning(m: Machine, x: nat)
    requires WellFormed(m) && x < RegisterCount
    ensures var r, b := ShiftLeft(m, x), m.v[x];
      r == m.(v := r.v) &&
      (x != Flag ==> r.v == m.v[Flag := b >> 7][x := b << 1] && (r.v[Flag] << 7) | (r.v[x] >> 1) == b) &&
      (x == Flag ==> r.v == m.v[Flag := (b >> 7) << 1])
  {
    ShiftLeftLosesNothing(m.v[x]);
  }

  /** The top bit and the byte shifted left by one rebuild the byte. */
  lemma ShiftLeftLosesNothing(b: bv8)
    ensures ((b >> 7) << 7) | ((b << 1) >> 1) == b
  {
  }

  /** CXNN: VX := NN & the random byte, so VX has no bit outside NN. */
  lemma MaskedRandom(m: Machine, op: bv16, random: bv8)
    requires WellFormed(m)
    ensures RandomByte(m, op, random).value == m.(v := m.v[X(op) := NN(op) & random], pc := m.pc + 2)
    ensures RandomByte(m, op, random).value.v[X(op)] & !NN(op) == 0
  {
  }

  // ---------------------------------------------------------------------
  // Drawing.
  // ---------------------------------------------------------------------

  /** DXYN stops the interpreter exactly when the N sprite bytes at
      memory[I ..] would reach past the last byte. */
  lemma DrawSpriteBounds(m: Machine, op: bv16)
    requires WellFormed(m)
    ensures var r := DrawSprite(m, op);
      (r.Ok? <==> m.i + N(op) as nat <= MemorySize) &&
      (r.Error? ==> r.halt == OutOfMemory(m.i, N(op) as nat))
  {
  }

  /** A completed DXYN flips a pixel exactly where a set bit of the sprite
      read from memory[I ..] lands (wrapping at the edges), sets VF to 1
      exactly when a set bit landed on a lit pixel and to 0 otherwise,
      requests a repaint, and changes nothing else but pc + 2. */
  lemma DrawSpriteMeaning(m: Machine, op: bv16, m': Machine)
    requires WellFormed(m) && DrawSprite(m, op) == Ok(m')
    ensures m.i + N(op) as nat <= MemorySize
    ensures var g, x, y := m.screen.gfx, m.v[X(op)] as nat, m.v[Y(op)] as nat;
      var sprite := m.memory[m.i .. m.i + N(op) as nat];
      (forall r: nat, c: nat :: r < Display.Height && c < Display.Width ==>
        m'.screen.gfx[r][c] == if Display.Covers(x, y, sprite, r, c) then g[r][c] ^ 1 else g[r][c]) &&
      (m'.v[Flag] == 1 <==> Display.Collides(g, x, y, sprite)) && (m'.v[Flag] == 0 || m'.v[Flag] == 1)
    ensures m'.screen.drawFlag && m' == m.(screen := m'.screen, v := m.v[Flag := m'.v[Flag]], pc := m.pc + 2)
  {
    var n := N(op) as nat;
    var x, y, sprite := m.v[X(op)] as nat, m.v[Y(op)] as nat, m.memory[m.i .. m.i + n];
    var b := Display.XorSprite(m.screen.gfx, x, y, sprite);
    Display.XorSpriteMeaning(m.screen.gfx, x, y, sprite);
    assert m' == m.(screen := Display.Screen(b.gfx, true), v := m.v[Flag := b.collision], pc := m.pc + 2);
  }

  // ---------------------------------------------------------------------
  // Family F.
  // ---------------------------------------------------------------------

  /** FX0A never moves pc (it steps back 2 and the handler steps forward 2),
      so the instruction repeats until a key is held; VX then becomes the
      lowest held key, and with no key held nothing changes at all. Below
      address 2 the step back underflows and stops the interpreter. */
  lemma WaitForKeyKeepsPc(m: Machine, op: bv16)
    requires WellFormed(m) && NN(op) == 0x0A
    ensures Misc(m, op).Ok? <==> m.pc >= 2
    ensures m.pc < 2 ==> Misc(m, op) == Error(PcUnderflow(m.pc))
    ensures Misc(m, op).Ok? && (forall k :: 0 <= k < Keypad.KeyCount ==> !m.keys[k]) ==> Misc(m, op).value == m
    ensures forall k :: 0 <= k < Keypad.KeyCount && m.keys[k] && (forall j :: 0 <= j < k ==> !m.keys[j]) ==>
      Misc(m, op).Ok? ==> Misc(m, op).value == m.(v := m.v[X(op) := k as bv8])
  {
    match FirstPressed(m.keys, 0)
    case None =>
    case Some(first) =>
      forall k | 0 <= k < Keypad.KeyCount && m.keys[k] && (forall j :: 0 <= j < k ==> !m.keys[j])
        ensures k == first
      {
      }
  }

  /** FX07, FX15 and FX18 copy between VX and the delay and sound timers;
      FX1E adds VX to I and FX29 sets I to 5 * VX, the address of the font
      glyph for digit VX. Each changes that one thing and advances pc by 2. */
  lemma TimerAndIndexTransfers(m: Machine, op: bv16)
    requires WellFormed(m)
    ensures var vx := m.v[X(op)];
      (NN(op) == 0x07 ==> Misc(m, op) == Ok(m.(v := m.v[X(op) := m.delayTimer], pc := m.pc + 2))) &&
      (NN(op) == 0x15 ==> Misc(m, op) == Ok(m.(delayTimer := vx, pc := m.pc + 2))) &&
      (NN(op) == 0x18 ==> Misc(m, op) == Ok(m.(soundTimer := vx, pc := m.pc + 2))) &&
      (NN(op) == 0x1E ==> Misc(m, op) == Ok(m.(i := m.i + vx as nat, pc := m.pc + 2))) &&
      (NN(op) == 0x29 ==> Misc(m, op) == Ok(m.(i := 5 * vx as nat, pc := m.pc + 2)))
  {
  }

  /** The three decimal digits FX33 stores are each below 10 and spell the byte. */
  lemma DecimalDigits(b: bv8)
    ensures b / 100 < 10 && (b / 10) % 10 < 10 && (b % 100) % 10 < 10
    ensures (b / 100) as bv16 * 100 + ((b / 10) % 10) as bv16 * 10 + ((b % 100) % 10) as bv16 == b as bv16
  {
  }

  /** FX33 stops the interpreter exactly when memory[I .. I + 2] reaches
      past the last byte. */
  lemma StoreDigitsBounds(m: Machine, op: bv16)
    requires WellFormed(m) && NN(op) == 0x33
    ensures var r := Misc(m, op);
      (r.Ok? <==> m.i + 3 <= MemorySize) && (r.Error? ==> r.halt == OutOfMemory(m.i, 3))
  {
    assert MiscCase(m, op, X(op), NN(op)) == StoreDigits(m, m.v[X(op)]);
  }

  /** A completed FX33 has written the hundreds, tens and units of VX to
      memory[I], [I + 1] and [I + 2]; no other byte or field changes but
      pc + 2. */
  lemma StoreDigitsMeaning(m: Machine, op: bv16, m': Machine)
    requires WellFormed(m) && NN(op) == 0x33 && Misc(m, op) == Ok(m')
    ensures m.i + 3 <= MemorySize
    ensures var hundreds, tens, units := m'.memory[m.i], m'.memory[m.i + 1], m'.memory[m.i + 2];
      hundreds < 10 && tens < 10 && units < 10 &&
      hundreds as bv16 * 100 + tens as bv16 * 10 + units as bv16 == m.v[X(op)] as bv16
    ensures forall a :: 0 <= a < MemorySize && !(m.i <= a < m.i + 3) ==> m'.memory[a] == m.memory[a]
    ensures m' == m.(memory := m'.memory, pc := m.pc + 2)
  {
    var vx := m.v[X(op)];
    assert MiscCase(m, op, X(op), NN(op)) == StoreDigits(m, vx);
    DigitsWritten(m, vx);
  }

  /** The bytes StoreDigits writes, and that it writes nothing else. */
  lemma DigitsWritten(m: Machine, vx: bv8)
    requires WellFormed(m) && StoreDigits(m, vx).Ok?
    ensures var r := StoreDigits(m, vx).value;
      var hundreds, tens, units := r.memory[m.i], r.memory[m.i + 1], r.memory[m.i + 2];
      hundreds < 10 && tens < 10 && units < 10 &&
      hundreds as bv16 * 100 + tens as bv16 * 10 + units as bv16 == vx as bv16 &&
      (forall a :: 0 <= a < MemorySize && !(m.i <= a < m.i + 3) ==> r.memory[a] == m.memory[a]) &&
      r == m.(memory := r.memory)
  {
    DecimalDigits(vx);
  }

  /** FX55 and FX65 stop the interpreter exactly when memory[I .. I + X]
      reaches past the last byte. */
  lemma RegisterTransferBounds(m: Machine, op: bv16)
    requires WellFormed(m) && (NN(op) == 0x55 || NN(op) == 0x65)
    ensures Misc(m, op).Ok? <==> m.i + X(op) + 1 <= MemorySize
    ensures Misc(m, op).Error? ==> Misc(m, op).halt == OutOfMemory(m.i, X(op) + 1)
  {
  }

  /** A completed FX55 has copied V0 .. VX to memory[I .. I + X], left
      every other byte alone, advanced I by X + 1 and pc by 2. */
  lemma StoreRegistersMeaning(m: Machine, op: bv16, m': Machine)
    requires WellFormed(m) && NN(op) == 0x55 && Misc(m, op) == Ok(m')
    ensures m.i + X(op) + 1 <= MemorySize
    ensures m'.memory[m.i .. m.i + X(op) + 1] == m.v[..X(op) + 1]
    ensures forall a :: 0 <= a < MemorySize && !(m.i <= a <= m.i + X(op)) ==> m'.memory[a] == m.memory[a]
    ensures m' == m.(memory := m'.memory, i := m.i + X(op) + 1, pc := m.pc + 2)
  {
    var x := X(op);
    assert MiscCase(m, op, x, NN(op)) == StoreRegisters(m, x);
    assert m'.memory == m.memory[..m.i] + m.v[..x + 1] + m.memory[m.i + x + 1..];
  }

  /** A completed FX65 has copied memory[I .. I + X] to V0 .. VX, left every
      other register alone, advanced I by X + 1 and pc by 2. */
  lemma LoadRegistersMeaning(m: Machine, op: bv16, m': Machine)
    requires WellFormed(m) && NN(op) == 0x65 && Misc(m, op) == Ok(m')
    ensures m.i + X(op) + 1 <= MemorySize
    ensures m'.v[..X(op) + 1] == m.memory[m.i .. m.i + X(op) + 1] && m'.v[X(op) + 1..] == m.v[X(op) + 1..]
    ensures m' == m.(v := m'.v, i := m.i + X(op) + 1, pc := m.pc + 2)
  {
    var x := X(op);
    assert MiscCase(m, op, x, NN(op)) == LoadRegisters(m, x);
    assert m'.v == m.memory[m.i .. m.i + x + 1] + m.v[x + 1..];
  }

  /** Loading the block FX55 just stored, with I pointed back at it, gives
      each register the value it already has: the state is the one the store
      left, whatever pc is. */
  lemma LoadRestoresStored(m: Machine, x: nat, m1: Machine, pc: nat)
    requires WellFormed(m) && x < RegisterCount && StoreRegisters(m, x) == Ok(m1)
    ensures m1.v == m.v
    ensures LoadRegisters(m1.(i := m.i, pc := pc), x) == Ok(m1.(pc := pc))
  {
    var block := m1.memory[m.i .. m.i + x + 1];
    assert block == m.v[..x + 1];
    assert block + m.v[x + 1..] == m.v;
  }

  /** FX55 followed by ANNN pointing I back at the stored block and FX65 with
      the same X: the store leaves the registers alone, and the load cannot
      fail and changes nothing but pc, so every register gets back the value
      it had, memory stays as FX55 left it and I ends just past the block
      again. */
  lemma StoreLoadRoundTrip(m: Machine, store: bv16, point: bv16, load: bv16, m1: Machine, m2: Machine)
    requires WellFormed(m) && NN(store) == 0x55 && Misc(m, store) == Ok(m1)
    requires NNN(point) as nat == m.i && SetIndex(m1, point) == Ok(m2)
    requires NN(load) == 0x65 && X(load) == X(store)
    ensures m1.v == m.v
    ensures Misc(m2, load) == Ok(m1.(pc := m1.pc + 4))
  {
    var x := X(store);
    MiscSelects(m, store);
    var s1 := StoreRegisters(m, x).value;
    assert m1 == s1.(pc := m.pc + 2);
    LoadRestoresStored(m, x, s1, m.pc + 4);
    assert m2 == s1.(i := m.i, pc := m.pc + 4);
    MiscSelects(m2, load);
    assert LoadRegisters(m2, x) == Ok(s1.(pc := m.pc + 4));
  }

  /** FX55 and FX65 are StoreRegisters and LoadRegisters on X, followed by
      the trailing pc += 2. */
  lemma MiscSelects(m: Machine, op: bv16)
    requires WellFormed(m) && (NN(op) == 0x55 || NN(op) == 0x65)
    ensures NN(op) == 0x55 ==> Misc(m, op) == AdvanceAfter(StoreRegisters(m, X(op)))
    ensures NN(op) == 0x65 ==> Misc(m, op) == AdvanceAfter(LoadRegisters(m, X(op)))
  {
  }

  // ---------------------------------------------------------------------
  // Unknown instructions, the whole step and the timers.
  // ---------------------------------------------------------------------

  /** The opcodes that `not_implemented` rejects: family 0 with a low nibble
      other than 0 and E, family 8 with a low nibble other than 0 .. 7 and E,
      and family F with a low byte outside the nine it decodes. */
  predicate Unimplemented(op: bv16) {
    (Family(op) == 0x0 && N(op) != 0x0 && N(op) != 0xE) ||
    (Family(op) == 0x8 && N(op) > 0x7 && N(op) != 0xE) ||
    (Family(op) == 0xF && NN(op) != 0x07 && NN(op) != 0x0A && NN(op) != 0x15 && NN(op) != 0x18 &&
     NN(op) != 0x1E && NN(op) != 0x29 && NN(op) != 0x33 && NN(op) != 0x55 && NN(op) != 0x65)
  }

  /** An instruction stops the interpreter with `not_implemented`, reporting
      the opcode and the pc it was fetched from (before any pc += 2), exactly
      when it is one of the unimplemented opcodes. */
  lemma NotImplementedExactly(m: Machine, op: bv16, random: bv8)
    requires WellFormed(m)
    ensures Execute(m, op, random) == Error(NotImplemented(op, m.pc)) <==> Unimplemented(op)
  {
    match Family(op)
    case 0x0 =>
      assert Execute(m, op, random) == System(m, op);
    case 0x8 =>
      assert Execute(m, op, random) == Arithmetic(m, op);
      ArithmeticUnimplemented(m, op);
    case 0xF =>
      assert Execute(m, op, random) == Misc(m, op);
      MiscUnimplemented(m, op);
    case _ =>
  }

  /** Family 8 rejects exactly the low nibbles it has no case for. */
  lemma ArithmeticUnimplemented(m: Machine, op: bv16)
    requires WellFormed(m)
    ensures Arithmetic(m, op) == Error(NotImplemented(op, m.pc)) <==> N(op) > 0x7 && N(op) != 0xE
  {
  }

  /** Family F rejects exactly the low bytes it has no case for. */
  lemma MiscUnimplemented(m: Machine, op: bv16)
    requires WellFormed(m)
    ensures Misc(m, op) == Error(NotImplemented(op, m.pc)) <==>
      NN(op) != 0x07 && NN(op) != 0x0A && NN(op) != 0x15 && NN(op) != 0x18 &&
      NN(op) != 0x1E && NN(op) != 0x29 && NN(op) != 0x33 && NN(op) != 0x55 && NN(op) != 0x65
  {
  }

  /** `emulate_cycle` stops exactly when its instruction does; otherwise each
      timer that was positive after the instruction drops by exactly one, a
      zero timer stays zero, and nothing else changes. */
  lemma CycleTicksTimers(m: Machine, random: bv8)
    requires WellFormed(m)
    ensures Cycle(m, random).Ok? <==> Step(m, random).Ok?
    ensures Cycle(m, random).Error? ==> Cycle(m, random) == Step(m, random)
    ensures Cycle(m, random).Ok? ==>
      var s, c := Step(m, random).value, Cycle(m, random).value;
      c == s.(delayTimer := c.delayTimer, soundTimer := c.soundTimer) &&
      (s.delayTimer == 0 ==> c.delayTimer == 0) && (s.delayTimer > 0 ==> c.delayTimer + 1 == s.delayTimer) &&
      (s.soundTimer == 0 ==> c.soundTimer == 0) && (s.soundTimer > 0 ==> c.soundTimer + 1 == s.soundTimer)
  {
  }
}
