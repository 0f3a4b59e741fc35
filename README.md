# Chipper's CHIP-8 interpreter core, in Dafny

This project models the core of Chipper, a CHIP-8 interpreter in Rust:
the `Cpu` of `src/cpu/mod.rs` (memory, the sixteen `V` registers, `I`,
`pc`, the call stack, the two timers, fetch, decode, and every instruction
handler), the `Display` of `src/display.rs` (the 64 x 32 pixel grid, the
XOR sprite blit with its collision byte, and the repaint flag), and the
`Keypad` of `src/keypad/mod.rs` (sixteen key states and the host-key
table). It proves properties of that model.

The model is in two layers:

- `chip8.dfy` (module `Chip8`) describes one machine state as a value,
  `Machine`. It has one function per instruction handler, and `Execute`,
  `Step`, `Cycle`, `Initial` and `Load` on top of them. Where Rust would
  panic or `not_implemented` would exit, the result is `Error(halt)`, and
  `Halt` records the reason.
- `cpu.dfy` (module `Cpu`), `display.dfy` and `keypad.dfy` are the
  imperative layer. `Cpu`, `Display` and `Keypad` are classes. Their
  arrays and fields are updated in place, as the Rust structs are. Each
  `Cpu` method is proved to leave `State()` exactly as the matching
  `Chip8` function says. On a halt, the method returns the `Halt` and
  leaves the state as it was.
- `chip8_properties.dfy` (module `Chip8Properties`) proves what each
  instruction means, for every state and every opcode of its shape.
  Examples: flags, skips, call and return, the FX55/FX65 round trip,
  FX0A, the halts, and the timer tick.
- `display.dfy` proves what `draw` does pixel by pixel. It also proves
  the collision byte, that drawing twice undoes itself, and what the
  second draw reports.
- `keypad.dfy` proves that the key table is a one-to-one mapping, that
  press then release is a round trip, and that unmapped keys are ignored.

The source's quirks are modelled as written:

- `i` starts at 0x200.
- 8XY5 and 8XY7 set VF to 1 on a *borrow*.
- Family 0 looks only at the low nibble, so 00E0 and 00EE are "low nibble
  0" and "low nibble E".
- 5XY_ and 9XY_ ignore their low nibble.
- 2NNN pushes the address of the call itself. 00EE pops it and then adds 2.
- FX0A steps back 2 and lets the handler step forward 2, so pc stays put.
- 8XY6 and 8XYE write VF before reading VX again. So with X = F they leave
  VF = 0, and VF = 2 when the top bit was set.
- `load_to_memory` copies the program to the current `pc`, then resets `pc`
  to 0x200. At start-up this is address 0x200.
- `emulate_cycle` ticks both timers after every instruction.
- A stack overflow (a call with all 16 slots in use) panics on the array
  index. A stack underflow (a return with an empty stack) panics on the
  subtraction. Both are modelled as halts.

## Model

| member | source | states |
|---|---|---|
| Chip8.Family | src/cpu/mod.rs:121 | the instruction family is the opcode's top nibble, a number below 16 |
| Chip8.X | src/cpu/mod.rs:324-327 | `op_x` is bits 8..11, always a valid register number |
| Chip8.Y | src/cpu/mod.rs:330-333 | `op_y` is bits 4..7, always a valid register number |
| Chip8.N | src/cpu/mod.rs:336-339 | `op_n` is the low nibble, below 16 |
| Chip8.NN | src/cpu/mod.rs:342-345 | `op_nn` is the low byte: widened back to 16 bits it equals the opcode masked with 0xFF, so nothing is lost |
| Chip8.NNN | src/cpu/mod.rs:348-351 | `op_nnn` is the low twelve bits, an address below 0x1000 |
| Chip8.FirstPressed | src/cpu/mod.rs:357-364 | the result is the lowest held key at or after `from`; `None` exactly when no key from there is held |
| Chip8Properties.FieldsNest | src/cpu/mod.rs:336-351 | NNN is the opcode without its family nibble, NN is the low byte of NNN, and N is the low nibble of NN |
| Chip8Properties.FetchBigEndian | src/cpu/mod.rs:114-117 | a fetch succeeds exactly when pc + 1 is inside memory; memory[pc] is the high byte and memory[pc + 1] the low byte |
| Chip8Properties.OverflowingAddMeaning | src/cpu/mod.rs:207-208 | the sum is taken modulo 256, with a carry exactly when the true sum exceeds 255 |
| Chip8Properties.OverflowingSubMeaning | src/cpu/mod.rs:213-214 | the difference is taken modulo 256, with a borrow exactly when the true difference is negative |
| Chip8Properties.InitialState | src/cpu/mod.rs:26-47 | after `new`: the font at addresses 0..79, zeros above, pc = i = 0x200, sp = 0, zero registers and timers, no key held, cleared screen with repaint requested |
| Chip8Properties.LoadPlacesProgram | src/cpu/mod.rs:89-112 | a load succeeds exactly when the program fits from pc; byte k lands at pc + k; every other byte and field is unchanged; pc returns to 0x200 |
| Chip8Properties.LoadAfterStart | src/cpu/mod.rs:26-47 | from the start state, any program of up to 3584 bytes loads at 0x200 and leaves the font intact |
| Chip8Properties.ClearScreen | src/cpu/mod.rs:143-156 | any family-0 opcode with low nibble 0 darkens every pixel, requests a repaint, and changes nothing else but pc + 2 |
| Chip8Properties.Jumps | src/cpu/mod.rs:158-161 | 1NNN sets pc to NNN, with no +2 and no other change |
| Chip8Properties.JumpsWithOffset | src/cpu/mod.rs:250-253 | BNNN sets pc to V0 + NNN, with no other change |
| Chip8Properties.CallThenReturn | src/cpu/mod.rs:143-168 | 2NNN writes the call's own pc into slot sp, leaves the other fifteen slots and every other field alone, increments sp and jumps to NNN; a later 00EE, with the stack as the call left it, continues at call pc + 2 |
| Chip8Properties.ReturnPops | src/cpu/mod.rs:148-155 | 00EE on a non-empty stack drops sp by one and continues 2 bytes after the uncovered slot |
| Chip8Properties.StackLimits | src/cpu/mod.rs:163-168 | 2NNN halts exactly when all 16 slots are used, and 00EE halts exactly when none are |
| Chip8Properties.Skips | src/cpu/mod.rs:170-183 | 3XNN, 4XNN and 5XY_ advance pc by 4 exactly when their condition holds and by 2 otherwise; nothing else changes |
| Chip8Properties.SkipsUnlessEqual | src/cpu/mod.rs:238-241 | 9XY_ advances pc by 4 exactly when VX != VY and by 2 otherwise; nothing else changes |
| Chip8Properties.RegisterSkipsIgnoreLowNibble | src/cpu/mod.rs:180-183 | 5XY_ and 9XY_ give the same result whatever their low nibble |
| Chip8Properties.KeySkips | src/cpu/mod.rs:272-282 | EX9E skips exactly when key VX is held, and EXA1 exactly when it is not; both halt when VX names no key; any other EX__ advances by 2 |
| Chip8Properties.WrappingAdd | src/cpu/mod.rs:193 | `wrapping_add` is the sum modulo 256 |
| Chip8Properties.LoadByteSets | src/cpu/mod.rs:185-189 | 6XNN sets VX to NN, changes no other register, and advances pc by 2 |
| Chip8Properties.AddByteWraps | src/cpu/mod.rs:191-195 | 7XNN adds NN to VX modulo 256, leaves VF and every other register alone, and advances pc by 2 |
| Chip8Properties.RegisterLogic | src/cpu/mod.rs:201-204 | 8XY0..8XY3 set VX to VY, VX or VY, VX and VY, or VX xor VY; no other register changes |
| Chip8Properties.FlagWritten | src/cpu/mod.rs:205-227 | writing a result and then its flag leaves VF as 0 or 1, exactly the flag, and VX as the result unless X = F |
| Chip8Properties.AddRegisters | src/cpu/mod.rs:205-210 | 8XY4 sets VX to the sum modulo 256 and VF to 1 exactly when the true sum exceeds 255 |
| Chip8Properties.SubtractRegisters | src/cpu/mod.rs:211-216 | 8XY5 sets VX to VX - VY modulo 256 and VF to 1 exactly when VX < VY (a borrow) |
| Chip8Properties.ReverseSubtractRegisters | src/cpu/mod.rs:222-227 | 8XY7 sets VX to VY - VX modulo 256 and VF to 1 exactly when VY < VX (a borrow) |
| Chip8Properties.ShiftRightFlag | src/cpu/mod.rs:217-221 | for X != F, 8XY6 sets VX to VX >> 1 and VF to the bit shifted out (0 or 1), so shifting back and adding that bit gives the old VX; other registers are unchanged; with X = F, VF ends at 0 |
| Chip8Properties.ShiftRightLosesNothing | src/cpu/mod.rs:219-220 | the low bit plus the byte shifted right and back rebuild the byte |
| Chip8Properties.ShiftLeftFlag | src/cpu/mod.rs:228-232 | 8XYE puts the bit shifted out into VF (0 or 1), so it and VX shifted back give the old VX; with X = F, VF ends at twice the top bit |
| Chip8Properties.ShiftLeftMeaning | src/cpu/mod.rs:228-232 | the exact registers a left shift leaves, for X = F and for every other X |
| Chip8Properties.ShiftLeftLosesNothing | src/cpu/mod.rs:230-231 | the top bit plus the byte shifted left and back rebuild the byte |
| Chip8Properties.MaskedRandom | src/cpu/mod.rs:255-259 | CXNN sets VX to NN and the supplied random byte, so VX has no bit outside NN |
| Chip8Properties.DrawSpriteBounds | src/cpu/mod.rs:261-270 | DXYN halts exactly when memory[I .. I + N] runs past the last byte |
| Chip8Properties.DrawSpriteMeaning | src/cpu/mod.rs:261-270 | DXYN flips exactly the pixels a set sprite bit lands on (with wrap-around); VF is 1 exactly on a collision and otherwise 0; a repaint is requested; pc + 2; nothing else changes |
| Chip8Properties.WaitForKeyKeepsPc | src/cpu/mod.rs:289 | FX0A never changes pc; with no key held nothing changes; otherwise VX becomes the lowest held key; below pc = 2 it halts |
| Chip8Properties.TimerAndIndexTransfers | src/cpu/mod.rs:288-293 | FX07, FX15, FX18, FX1E and FX29 each change exactly their one field (FX29 sets I = 5 * VX) and advance pc by 2 |
| Chip8Properties.DecimalDigits | src/cpu/mod.rs:294-299 | the three digits FX33 stores are each below 10 and spell out the byte |
| Chip8Properties.StoreDigitsBounds | src/cpu/mod.rs:294-299 | FX33 halts exactly when memory[I .. I + 2] runs past the last byte |
| Chip8Properties.StoreDigitsMeaning | src/cpu/mod.rs:294-299 | FX33 writes the hundreds, tens and units of VX to memory[I], [I + 1] and [I + 2]; nothing else changes but pc + 2 |
| Chip8Properties.DigitsWritten | src/cpu/mod.rs:296-298 | the three bytes the digit store writes, and that it writes nothing else |
| Chip8Properties.RegisterTransferBounds | src/cpu/mod.rs:300-317 | FX55 and FX65 halt exactly when memory[I .. I + X] runs past the last byte |
| Chip8Properties.StoreRegistersMeaning | src/cpu/mod.rs:300-308 | FX55 copies V0..VX to memory[I .. I + X], leaves every other byte alone, and sets I to I + X + 1 and pc to pc + 2 |
| Chip8Properties.LoadRegistersMeaning | src/cpu/mod.rs:309-317 | FX65 copies memory[I .. I + X] into V0..VX, leaves the other registers alone, and sets I to I + X + 1 and pc to pc + 2 |
| Chip8Properties.LoadRestoresStored | src/cpu/mod.rs:300-317 | loading the block just stored, with I pointed back at it, gives back the registers unchanged |
| Chip8Properties.StoreLoadRoundTrip | src/cpu/mod.rs:300-317 | FX55, then ANNN back to the block, then FX65 with the same X: every register keeps its value, memory stays as FX55 left it, and I ends just past the block again |
| Chip8Properties.NotImplementedExactly | src/cpu/mod.rs:119-141 | an instruction halts with `not_implemented`, reporting the opcode and the pc it was fetched from, exactly for the unimplemented selectors of families 0, 8 and F |
| Chip8Properties.ArithmeticUnimplemented | src/cpu/mod.rs:233 | family 8 rejects exactly the low nibbles outside 0..7 and E |
| Chip8Properties.MiscUnimplemented | src/cpu/mod.rs:318 | family F rejects exactly the low bytes outside its nine cases |
| Chip8Properties.CycleTicksTimers | src/cpu/mod.rs:49-66 | a cycle halts exactly when its instruction does; otherwise each positive timer drops by exactly 1, a zero timer stays 0, and nothing else changes |
| Cpu.Cpu.constructor | src/cpu/mod.rs:26-47 | builds fresh arrays, keypad and display whose state is `Chip8.Initial()` |
| Cpu.Cpu.LoadFont | src/cpu/mod.rs:42-45 | the font loop leaves FONTSET at addresses 0..79 of a zeroed memory |
| Cpu.Cpu.LoadToMemory | src/cpu/mod.rs:89-112 | copies the program byte by byte from pc and resets pc to 0x200, as `Chip8.Load` says; if it would run past memory, it halts with nothing changed |
| Cpu.Cpu.EmulateCycle | src/cpu/mod.rs:49-66 | fetch, execute and timer tick, with the resulting state (or halt) that `Chip8.Cycle` gives |
| Cpu.Cpu.Tick | src/cpu/mod.rs:54-66 | each positive timer drops by one, and nothing else changes |
| Cpu.Cpu.OpcodeExecute | src/cpu/mod.rs:119-141 | dispatches on the family and ends in the state (or halt) that `Chip8.Execute` gives |
| Cpu.Cpu.FetchOpcode | src/cpu/mod.rs:114-117 | sets `opcode` to the big-endian word at pc, as `Chip8.Fetch` gives it; halts when pc + 1 is past memory |
| Cpu.Cpu.System | src/cpu/mod.rs:143-156 | the clear, the return or the `not_implemented` halt of family 0 |
| Cpu.Cpu.Jump | src/cpu/mod.rs:158-161 | pc := NNN |
| Cpu.Cpu.Call | src/cpu/mod.rs:163-168 | pushes `pc as u16` and jumps to NNN; halts on a full stack |
| Cpu.Cpu.SkipIfEqualByte | src/cpu/mod.rs:170-173 | the 3XNN skip |
| Cpu.Cpu.SkipIfNotEqualByte | src/cpu/mod.rs:175-178 | the 4XNN skip |
| Cpu.Cpu.SkipIfEqualRegister | src/cpu/mod.rs:180-183 | the 5XY_ skip |
| Cpu.Cpu.LoadByte | src/cpu/mod.rs:185-189 | VX := NN |
| Cpu.Cpu.AddByte | src/cpu/mod.rs:191-195 | VX := VX + NN with wrap-around |
| Cpu.Cpu.Arithmetic | src/cpu/mod.rs:197-236 | the family-8 case the low nibble picks, then pc += 2; halts on unknown nibbles |
| Cpu.Cpu.Logic | src/cpu/mod.rs:201-204 | 8XY0..8XY3 on the register array |
| Cpu.Cpu.Flagged | src/cpu/mod.rs:205-227 | 8XY4, 8XY5 and 8XY7: the result to VX, then the flag to VF |
| Cpu.Cpu.Shift | src/cpu/mod.rs:217-232 | 8XY6 and 8XYE: the shifted-out bit to VF, then VX shifted |
| Cpu.Cpu.SkipIfNotEqualRegister | src/cpu/mod.rs:238-241 | the 9XY_ skip |
| Cpu.Cpu.SetIndex | src/cpu/mod.rs:244-248 | I := NNN |
| Cpu.Cpu.JumpOffset | src/cpu/mod.rs:250-253 | pc := V0 + NNN |
| Cpu.Cpu.RandomByte | src/cpu/mod.rs:255-259 | VX := NN & the supplied random byte |
| Cpu.Cpu.DrawSprite | src/cpu/mod.rs:261-270 | draws memory[I .. I + N] at (VX, VY), puts the collision byte in VF, pc + 2; halts when the sprite runs past memory |
| Cpu.Cpu.DrawAt | src/cpu/mod.rs:264-268 | the display and VF afterwards are the grid and collision byte `Display.XorSprite` gives |
| Cpu.Cpu.KeySkip | src/cpu/mod.rs:272-282 | the EX9E / EXA1 skip on key VX; halts when VX names no key |
| Cpu.Cpu.Misc | src/cpu/mod.rs:284-321 | the family-F case the low byte picks, then pc += 2; halts on unknown bytes |
| Cpu.Cpu.MiscCase | src/cpu/mod.rs:286-318 | the case itself, before the trailing pc += 2 |
| Cpu.Cpu.Transfer | src/cpu/mod.rs:288-293 | FX07, FX15, FX18, FX1E and FX29 |
| Cpu.Cpu.WaitForKeypress | src/cpu/mod.rs:355-366 | VX := the lowest held key, if any, then pc -= 2; halts below pc = 2 |
| Cpu.Cpu.FirstHeldKey | src/cpu/mod.rs:357-364 | the loop returns the lowest held key, or 16 when none is held, and agrees with `Chip8.FirstPressed` |
| Cpu.Cpu.StoreDigits | src/cpu/mod.rs:294-299 | the FX33 digit store |
| Cpu.Cpu.StoreRegisters | src/cpu/mod.rs:300-308 | the FX55 register store and the advance of I |
| Cpu.Cpu.CopyOut | src/cpu/mod.rs:303-306 | the loop writes V0..V(count - 1) to memory[to ..] and changes no other byte |
| Cpu.Cpu.LoadRegisters | src/cpu/mod.rs:309-317 | the FX65 register load and the advance of I |
| Cpu.Cpu.CopyIn | src/cpu/mod.rs:312-315 | the loop reads memory[from .. from + count] into V0..V(count - 1) and changes no other register |
| Display.Cleared | src/display.rs:18-31 | the state after `new` and after `clear`: a 0/1 grid with the repaint flag set |
| Display.Presented | src/display.rs:62-88 | `draw_screen` keeps the grid and leaves the flag down |
| Display.Wrap | src/display.rs:44-45 | the wrapped coordinate is below the axis length |
| Display.WrapIsMod | src/display.rs:44-45 | the wrap is the remainder `%` that `draw` computes |
| Display.SpriteBitIsShift | src/display.rs:47 | the sprite-bit test is `sprite[j] & (0x80 >> i) != 0` |
| Display.XorSprite | src/display.rs:33-60 | the blit yields a well-shaped grid, keeps a 0/1 grid 0/1, and returns 0 or 1 |
| Display.PlotBitsPixel | src/display.rs:40-56 | after the first k bits of the loop, exactly the covered pixels whose bit comes before k are flipped |
| Display.PlotBitsCollision | src/display.rs:40-56 | after the first k bits, the collision byte is 1 exactly when one of them landed on a pixel lit in the original grid |
| Display.XorSpriteMeaning | src/display.rs:33-60 | `draw` flips exactly the pixels a set bit lands on (wrapping on both axes) and returns 1 exactly when some set bit lands on a lit pixel |
| Display.CoversWrapped | src/display.rs:44-47 | bit i of row j lands on pixel ((y + j) mod 32, (x + i) mod 64) exactly when it is set |
| Display.XorSpriteInvolution | src/display.rs:33-60 | drawing the same sprite twice at the same place restores the grid |
| Display.RedrawCollision | src/display.rs:33-60 | a second identical draw returns 1 exactly when some set bit of the first landed on a dark pixel |
| Display.DrawTwiceOnBlank | src/display.rs:33-60 | on a dark screen, the first draw returns 0, the second returns 1 exactly when the sprite has a set bit, and the screen is dark again |
| Display.Display.constructor | src/display.rs:18-25 | a fresh all-zero grid with the repaint flag set |
| Display.Display.Clear | src/display.rs:27-31 | every pixel 0 and the repaint flag set |
| Display.Display.Draw | src/display.rs:33-60 | the grid and collision byte are those `XorSprite` gives, and the repaint flag is set |
| Display.Display.DrawRow | src/display.rs:42-55 | the inner loop plots the eight bits of row j, continuing the plot of the earlier rows |
| Display.Display.DrawBit | src/display.rs:44-54 | one inner-loop step plots bit i of row j |
| Display.Display.Toggle | src/display.rs:53 | flips exactly one pixel |
| Display.Display.DrawScreen | src/display.rs:62-88 | lowers the repaint flag when it is set, and changes nothing otherwise; the grid is unchanged |
| Keypad.Index | src/keypad/mod.rs:23-38 | every mapped host key stands for a CHIP-8 key below 16 |
| Keypad.KeyFor | src/keypad/mod.rs:23-38 | every CHIP-8 key has a mapped host key that stands for it |
| Keypad.KeyForIndex | src/keypad/mod.rs:23-38 | the table and its inverse agree: the mapping is a bijection between the sixteen mapped keys and the sixteen CHIP-8 keys |
| Keypad.IndexInjective | src/keypad/mod.rs:23-38 | no two mapped host keys share a CHIP-8 key |
| Keypad.Released | src/keypad/mod.rs:6-10 | the default key state: sixteen keys, none held |
| Keypad.Pressing | src/keypad/mod.rs:19-46 | `press` sets the mapped key's CHIP-8 key to `state` and leaves every other key alone |
| Keypad.PressRelease | src/keypad/test.rs:26-33 | after a press, the key reads held; after the matching release, it reads released and the other keys are as before |
| Keypad.PressEachInTurn | tests/test_keypad.rs:17-26 | pressing and releasing each key in turn from the default returns to the default after every round |
| Keypad.UnmappedIgnored | src/keypad/mod.rs:39 | a host key outside the table changes nothing |
| Keypad.Keypad.constructor | src/keypad/mod.rs:6-10 | `Keypad::default()`: all sixteen keys released |
| Keypad.Keypad.Pressed | src/keypad/mod.rs:14-17 | returns the state of key `index` and changes nothing |
| Keypad.Keypad.Press | src/keypad/mod.rs:19-41 | the key array afterwards is `Pressing` of the one before |
| Keypad.Keypad.SetKey | src/keypad/mod.rs:43-46 | exactly key `index` takes `state` |

## Left out

- Rendering: the SDL renderer, the colours and the scaled rectangles of `draw_screen` are not modelled. Only the repaint flag that `draw_screen` lowers is modelled.
- `Display::new` takes a renderer. The model's display constructor builds only the grid and the flag.
- The one-millisecond sleep in `emulate_cycle` and the commented-out beep are not modelled. They have no effect on state.
- The random byte of CXNN comes from `rand`. Here it is a parameter of `RandomByte`, `Execute`, `Step`, `Cycle` and `EmulateCycle`.
- `load_game` opens a file, and `load_to_memory` reads it and exits on a read error. That I/O is not modelled. The program arrives as a byte sequence, and read errors are outside the model.
- `pc` and `i` are `usize` here, as `nat`. Their 64-bit overflow is not modelled.
- Cpu.Cpu.LoadToMemory: Rust writes bytes until the index panics, so a program that is too long leaves a partial copy in a dead process. The model halts before writing anything.
- Cpu.Cpu.WaitForKeypress: below pc = 2, Rust writes VX and then the subtraction panics. The model halts before the write. The panic is the debug-build overflow check; a release build would wrap pc instead, and that case is not modelled.
- Every other halt also leaves the state unchanged. A Rust panic or `process::exit` ends the program, so nothing after it can observe a partial write.
- Chip8Properties.CallThenReturn: requires pc < 0x10000. Above that, `pc as u16` truncates the pushed address. `Chip8.Call` models the truncation; the lemma does not cover it.
- Chip8.JumpOffset: `(v[0] as u16) + nnn` is computed here as an integer sum. It is at most 0x10FE, so it cannot wrap in 16 bits.
- Display.XorSpriteMeaning: requires at most 32 sprite rows, and so do XorSpriteInvolution, RedrawCollision, DrawTwiceOnBlank, PlotBitsPixel and PlotBitsCollision. With more rows, two rows would land on the same screen row. DXYN passes at most 15 rows.
- Keypad.Keypad.Pressed: requires index < 16. In Rust a larger index panics. Every caller in the model checks the index first, and EX9E/EXA1 model that panic as a halt.
- Chip8Properties.DrawSpriteMeaning, StoreDigitsMeaning, StoreRegistersMeaning, LoadRegistersMeaning and StoreLoadRoundTrip take the result state as a parameter that the instruction must produce. The matching `*Bounds` lemmas state when that result exists.
- `src/cpu.rs`, `src/lib.rs`, `src/main.rs` and `src/defs.rs` are not part of this model: the main loop, event pumping, argument handling and module wiring.
