# CHIP-8 interpreter core in Dafny

This project models the core of a small CHIP-8 virtual machine written in C++:

- the `Processor` class with its memory, registers, stack, timers, framebuffer and keypad;
- its constructor, which loads the font and builds the dispatch tables;
- `load_rom`'s copy of a program image to 0x200;
- the fetch / decode / execute / timer `cycle`;
- the 34 instruction handlers and the null handler.

The model is split into four modules.

- **`Chip8`** (`chip8.dfy`) holds the fixed data:
  - sizes and addresses, and the 80-byte hexadecimal font;
  - the machine state as a value (`Machine`, with `State` its well-sized subtype);
  - the fields of an instruction word;
  - the dispatch tables. There is a primary table of 16 entries. Groups 0, 8 and E use 15-entry secondary tables indexed by the low nibble. Group F uses a 102-entry table indexed by the low byte, and `Dispatch` clamps that byte to slot 0 above 0x65.
- **`Opcodes`** (`opcodes.dfy`) gives one value-level function per handler. Each function states its effect on a `State` in the order the C++ code writes, so VF written before or after Vx matters when x or y is F. The module also holds the properties of these handlers.
- **`Cpu`** (`cpu.dfy`) covers the cycle:
  - `Fetch` reads the big-endian word at pc;
  - `Execute` runs a handler;
  - `Tick` counts the timers down;
  - `Step` is the whole cycle, which either produces the next state or reports a `Fault`.

  It also holds the constructor's state `Initial()` and the program load `LoadProgram`.
- **`Interpreter`** (`processor.dfy`) is the class `Processor` with the source's fields:
  - `array`s for the buffers;
  - scalar fields for index, pc, the stack pointer, the timers and the current opcode.

  Each handler is a method that updates those fields in place. Each method is proved to have exactly the effect of its `Opcodes` function on the abstract state `State()`. `Cycle` is proved against `Cpu.Step`.

The C++ code has four ways to access an array out of bounds. Their outcome is undefined, so the model does not give them one. `Step` reports each as a `Fault`, and `Processor.Cycle` returns that fault with the machine state unchanged. The four cases:

- a fetch with pc + 1 >= 4096. This happens after a jump or call to 0xFFF (1FFF, 2FFF), after a Bnnn past memory, or when execution runs on from 0xFFE;
- a 0xF low nibble in groups 0, 8 and E, which reads slot 15 of a 15-entry table;
- a return with the stack pointer above 16, which no reachable state has;
- Fx33 with index + 2 >= 4096.

The C++ code bounds-checks some accesses and not others. It checks Dxyn's sprite rows against the end of memory, the addresses of Fx55 and Fx65, the push in 2nnn and the empty-stack pop in 00EE. Fx1E touches no array, but it keeps index below 4096. The fetch, table slot 0xF, the pop's upper bound and the writes of Fx33 are unchecked; these are the faults above.

Integer widths are written out:

- bytes, 16-bit words and 32-bit pixels are subset types of `int`;
- additions wrap through `Wrap8` and `Wrap16`;
- the program counter wraps at 16 bits (Fx0A subtracts 2 from it);
- Bnnn computes nnn + V0 without a wrap, since the sum fits in 16 bits.

`|`, `&` and `^` are defined bit by bit on naturals (`Opcodes.Bitwise`).

## Model

| member | source | states |
|---|---|---|
| Chip8.MemoryLayout | include/chip8.hpp:15-42 | The font is 80 bytes. It lies at 0x50..0x9F, below the program start 0x200, which is below the 4096-byte top of memory. The framebuffer has 64 × 32 = 2048 pixels. |
| Chip8.OverrunExactlyOnLowNibbleF | include/chip8.hpp:111-124 | Dispatch reads past a 15-entry secondary table exactly when the high nibble is 0, 8 or E and the low nibble is F. |
| Chip8.LowNibbleDispatch | include/chip8.hpp:111-124 | In groups 0 and E the handler depends only on the low nibble: 00E0/00EE and Ex9E/ExA1. |
| Chip8.TableFClampsToNull | include/chip8.hpp:126-132 | A group-F word whose low byte is above 0x65 dispatches to the null handler. |
| Chip8.NullExactlyWhenUnassigned | src/cpu.cpp:64-100 | Dispatch reaches the null handler if and only if the word's slot was never assigned a handler. |
| Chip8.Dispatch | include/chip8.hpp:111-132 | The two-level dispatch through PrimaryTable (src/cpu.cpp:47-62) and the secondary tables, with group F clamped to slot 0 above 0x65. Its properties are stated by Chip8.OverrunExactlyOnLowNibbleF, Chip8.LowNibbleDispatch, Chip8.TableFClampsToNull and Chip8.NullExactlyWhenUnassigned. |
| Chip8.Table0Entries | src/cpu.cpp:64-77 | The 15 slots of table0: 00E0 at slot 0, 00EE at slot 0xE, the null handler elsewhere. |
| Chip8.Table8Entries | src/cpu.cpp:64-87 | The 15 slots of table8: 8xy0..8xy7 at slots 0..7, 8xyE at 0xE, the null handler elsewhere. |
| Chip8.TableEEntries | src/cpu.cpp:64-90 | The 15 slots of tableE: ExA1 at slot 1, Ex9E at 0xE, the null handler elsewhere. |
| Chip8.TableFEntries | src/cpu.cpp:71-100 | The 102 slots of tableF: the nine Fx handlers at 0x07, 0x0A, 0x15, 0x18, 0x1E, 0x29, 0x33, 0x55 and 0x65, the null handler elsewhere. |
| Opcodes.Op00E0 | src/opcodes.cpp:13-16 | The value-level effect of 00E0: every pixel becomes 0. Its properties are stated by Opcodes.ClearScreen. |
| Opcodes.Op00EE | src/opcodes.cpp:18-24 | The value-level effect of 00EE: with an empty stack nothing changes; otherwise the stack pointer drops by one and pc becomes the stack entry there. Its properties are stated by Opcodes.CallThenReturn, Opcodes.StackBounds. |
| Opcodes.Op1nnn | src/opcodes.cpp:26-29 | The value-level effect of 1nnn: pc becomes nnn. Its properties are stated by Opcodes.JumpTargets. |
| Opcodes.Op2nnn | src/opcodes.cpp:31-37 | The value-level effect of 2nnn: with a full stack nothing changes; otherwise pc is pushed, the stack pointer rises by one and pc becomes nnn. Its properties are stated by Opcodes.CallThenReturn, Opcodes.StackBounds. |
| Opcodes.Op3xnn | src/opcodes.cpp:39-45 | The value-level effect of 3xnn: pc moves on by two when Vx = nn. Its properties are stated by Opcodes.SkipsComplementary. |
| Opcodes.Op4xnn | src/opcodes.cpp:47-53 | The value-level effect of 4xnn: pc moves on by two when Vx ≠ nn. Its properties are stated by Opcodes.SkipsComplementary. |
| Opcodes.Op5xy0 | src/opcodes.cpp:55-61 | The value-level effect of 5xy0: pc moves on by two when Vx = Vy. Its properties are stated by Opcodes.SkipsComplementary. |
| Opcodes.Op6xnn | src/opcodes.cpp:63-67 | The value-level effect of 6xnn: Vx becomes nn. Its properties are stated by Opcodes.LoadImmediate. |
| Opcodes.Op7xnn | src/opcodes.cpp:69-73 | The value-level effect of 7xnn: Vx becomes Vx + nn truncated to 8 bits; VF is not touched. Its properties are stated by Opcodes.AddImmediateNoCarry. |
| Opcodes.Op8xy0 | src/opcodes.cpp:75-80 | The value-level effect of 8xy0: Vx becomes Vy. Its properties are stated by Opcodes.CopyThenSkipIfEqual. |
| Opcodes.Op8xy1 | src/opcodes.cpp:82-87 | The value-level effect of 8xy1: Vx becomes Vx OR Vy. Its properties are stated by Opcodes.LogicalOps, Opcodes.LogicalOpsDetermined. |
| Opcodes.Op8xy2 | src/opcodes.cpp:89-94 | The value-level effect of 8xy2: Vx becomes Vx AND Vy. Its properties are stated by Opcodes.LogicalOps, Opcodes.LogicalOpsDetermined. |
| Opcodes.Op8xy3 | src/opcodes.cpp:96-101 | The value-level effect of 8xy3: Vx becomes Vx XOR Vy. Its properties are stated by Opcodes.LogicalOps, Opcodes.LogicalOpsDetermined. |
| Opcodes.Op8xy4 | src/opcodes.cpp:103-110 | The value-level effect of 8xy4: the 9-bit sum is taken, VF becomes its carry, then Vx its low byte. Its properties are stated by Opcodes.AddWithCarry, Opcodes.AddWithCarryIntoFlag. |
| Opcodes.Op8xy5 | src/opcodes.cpp:112-118 | The value-level effect of 8xy5: VF becomes Vx ≥ Vy, then Vx becomes Vx − Vy mod 256, read after the flag write. Its properties are stated by Opcodes.SubtractWithBorrow, Opcodes.SubtractReadsNewFlag. |
| Opcodes.Op8xy6 | src/opcodes.cpp:120-125 | The value-level effect of 8xy6: VF becomes the low bit of Vx, then Vx is halved. Its properties are stated by Opcodes.Shifts, Opcodes.ShiftsIntoFlag. |
| Opcodes.Op8xy7 | src/opcodes.cpp:127-133 | The value-level effect of 8xy7: VF becomes Vy ≥ Vx, then Vx becomes Vy − Vx mod 256. Its properties are stated by Opcodes.ReverseSubtractWithBorrow. |
| Opcodes.Op8xyE | src/opcodes.cpp:135-140 | The value-level effect of 8xyE: VF becomes the high bit of Vx, then Vx is doubled mod 256. Its properties are stated by Opcodes.Shifts, Opcodes.ShiftsIntoFlag. |
| Opcodes.Op9xy0 | src/opcodes.cpp:142-148 | The value-level effect of 9xy0: pc moves on by two when Vx ≠ Vy. Its properties are stated by Opcodes.SkipsComplementary. |
| Opcodes.OpAnnn | src/opcodes.cpp:150-153 | The value-level effect of Annn: index becomes nnn. Its properties are stated by Opcodes.IndexStaysInMemory. |
| Opcodes.OpBnnn | src/opcodes.cpp:155-158 | The value-level effect of Bnnn: pc becomes nnn + V0, which fits 16 bits. Its properties are stated by Opcodes.JumpTargets. |
| Opcodes.OpCxnn | src/opcodes.cpp:160-165 | The value-level effect of Cxnn: Vx becomes the given random byte AND nn. Its properties are stated by Opcodes.RandomMasked. |
| Opcodes.OpDxyn | src/opcodes.cpp:167-199 | The value-level effect of Dxyn: the framebuffer after the row-by-row, column-by-column XOR of the sprite at (Vx mod 64, Vy mod 32), and VF set to the collision flag. Its properties are stated by Opcodes.DrawCollision, Opcodes.DrawFootprint, Opcodes.DrawTwiceRestores. |
| Opcodes.OpEx9E | src/opcodes.cpp:201-206 | The value-level effect of Ex9E: pc moves on by two when Vx < 16 and key Vx is pressed. Its properties are stated by Opcodes.KeySkips. |
| Opcodes.OpExA1 | src/opcodes.cpp:208-213 | The value-level effect of ExA1: pc moves on by two when Vx < 16 and key Vx is not pressed. Its properties are stated by Opcodes.KeySkips. |
| Opcodes.OpFx07 | src/opcodes.cpp:215-219 | The value-level effect of Fx07: Vx becomes the delay timer. Its properties are stated by Opcodes.TimerRoundTrip. |
| Opcodes.OpFx0A | src/opcodes.cpp:221-238 | The value-level effect of Fx0A: Vx becomes the lowest pressed key, or pc moves back two bytes when none is pressed. Its properties are stated by Opcodes.WaitForKey. |
| Opcodes.OpFx15 | src/opcodes.cpp:240-244 | The value-level effect of Fx15: the delay timer becomes Vx. Its properties are stated by Opcodes.TimerRoundTrip. |
| Opcodes.OpFx18 | src/opcodes.cpp:246-250 | The value-level effect of Fx18: the sound timer becomes Vx. Its properties are stated by Opcodes.TimerRoundTrip. |
| Opcodes.OpFx1E | src/opcodes.cpp:252-257 | The value-level effect of Fx1E: index grows by Vx when the sum is below 4096. Its properties are stated by Opcodes.AddToIndex. |
| Opcodes.OpFx29 | src/opcodes.cpp:259-265 | The value-level effect of Fx29: for Vx < 16, index becomes 0x50 + 5 × Vx. Its properties are stated by Opcodes.FontAddress, Opcodes.FontGlyphA. |
| Opcodes.OpFx33 | src/opcodes.cpp:267-274 | The value-level effect of Fx33: the three decimal digits of Vx go to index, index + 1 and index + 2. Its properties are stated by Opcodes.BcdDigits. |
| Opcodes.OpFx55 | src/opcodes.cpp:276-284 | The value-level effect of Fx55: V0..Vx go to index..index + x, skipping addresses past memory. Its properties are stated by Opcodes.StoreRegistersFootprint. |
| Opcodes.OpFx65 | src/opcodes.cpp:286-294 | The value-level effect of Fx65: V0..Vx are read from index..index + x, skipping addresses past memory. Its properties are stated by Opcodes.StoreThenLoadRegisters. |
| Opcodes.ClearScreen | src/opcodes.cpp:13-16 | 00E0 turns every pixel off and changes nothing else. |
| Opcodes.CallThenReturn | src/opcodes.cpp:18-37 | With room on the stack, 2nnn pushes pc, raises the stack pointer by one and jumps to nnn. The 00EE that follows restores pc and the stack pointer, leaving only the pushed stack slot written. |
| Opcodes.StackBounds | src/opcodes.cpp:18-37 | 2nnn on a full stack and 00EE on an empty stack change nothing. Neither takes the stack pointer above 16. |
| Opcodes.AddWithCarry | src/opcodes.cpp:103-110 | For x ≠ F: VF = 1 if and only if Vx + Vy > 255, and Vx becomes (Vx + Vy) mod 256. No other register and no other field changes. |
| Opcodes.AddWithCarryIntoFlag | src/opcodes.cpp:103-110 | For x = F the carry is overwritten: VF ends as the truncated sum. Nothing else changes. |
| Opcodes.SubtractWithBorrow | src/opcodes.cpp:112-118 | For x, y ≠ F: VF = 1 if and only if Vx ≥ Vy, and Vx becomes (Vx − Vy) mod 256. No other register and no other field changes. |
| Opcodes.ReverseSubtractWithBorrow | src/opcodes.cpp:127-133 | For x, y ≠ F: VF = 1 if and only if Vy ≥ Vx, and Vx becomes (Vy − Vx) mod 256. No other register and no other field changes. |
| Opcodes.SubtractReadsNewFlag | src/opcodes.cpp:112-118 | With y = F, 8xy5 subtracts the flag it has just written, not the old VF. Only Vx and VF change. |
| Opcodes.Shifts | src/opcodes.cpp:120-140 | For x ≠ F: 8xy6 puts the low bit in VF and halves Vx. 8xyE puts the high bit in VF and doubles Vx mod 256. Neither changes any other register or any other field. |
| Opcodes.ShiftsIntoFlag | src/opcodes.cpp:120-140 | For x = F the shifted flag is the result: 8xy6 leaves 0 and 8xyE leaves 0 or 2. Nothing else changes. |
| Opcodes.LoadThenAddImmediate | src/opcodes.cpp:63-73 | V5 := 10 followed by V5 += 5 leaves 15 in V5. |
| Opcodes.LoadImmediate | src/opcodes.cpp:63-67 | 6xnn sets Vx to nn, the low byte of the word, and changes no other register and nothing else. |
| Opcodes.AddImmediateNoCarry | src/opcodes.cpp:69-73 | 7xnn sets Vx to (Vx + nn) mod 256, leaves every other register and VF alone, and changes nothing else. |
| Opcodes.CopyThenSkipIfEqual | src/opcodes.cpp:55-80 | 8xy0 copies Vy into Vx and changes no other register and no other field. A 5xy0 after it skips. |
| Opcodes.SkipsComplementary | src/opcodes.cpp:39-61 | Of 3xnn and 4xnn exactly one skips, and the same holds for 5xy0 and 9xy0. Each skips exactly when its condition holds. A skip moves pc on by two, mod 2^16. 9xy0 is at lines 142-148 of the same file. |
| Opcodes.KeySkips | src/opcodes.cpp:201-213 | When Vx names a key, Ex9E skips if and only if that key is pressed and ExA1 if and only if it is not. For Vx ≥ 16 neither skips and neither changes anything. |
| Opcodes.JumpTargets | src/opcodes.cpp:155-158 | 1nnn sets pc to nnn ≤ 0xFFF and Bnnn sets it to nnn + V0 ≤ 0x10FE; neither changes anything else. Bnnn's target lies past memory for BFFF with V0 = 0xFF. 1nnn is at lines 26-29 of the same file. |
| Opcodes.IndexStaysInMemory | src/opcodes.cpp:252-265 | Annn sets index to nnn < 4096 and changes nothing else. When index starts inside memory, Fx1E and Fx29 keep it there. Annn is at lines 150-153 of the same file. |
| Opcodes.TimerRoundTrip | src/opcodes.cpp:215-250 | Fx15 copies Vx into the delay timer and Fx18 into the sound timer, and Fx07 copies the delay timer into Vx; each changes nothing else. Reading the delay timer back into Vx with Fx07 after Fx15 changes nothing further. |
| Opcodes.XorTwice | src/opcodes.cpp:96-101 | XOR with the same value twice restores a value that fits the width. |
| Opcodes.OrCovers | src/opcodes.cpp:82-87 | Below the width, bit k of a OR b is set if and only if bit k of a or of b is set; so every bit of either operand is in the OR and no other bit is. |
| Opcodes.AndWithin | src/opcodes.cpp:89-94 | Below the width, bit k of a & b is set if and only if bit k is set in both operands; so the common bits are kept and no bit outside either operand is set. |
| Opcodes.LogicalOps | src/opcodes.cpp:82-101 | 8xy1, 8xy2 and 8xy3 change only Vx. Bit k of the new Vx is the OR, AND or XOR of bit k of Vx and Vy, for each of the eight bits. With x ≠ y, 8xy3 applied twice restores the registers. |
| Opcodes.LogicalOpsDetermined | src/opcodes.cpp:82-101 | The per-bit descriptions determine the result: a byte whose eight bits are those of Vx OR Vy (Vx AND Vy, Vx XOR Vy) is exactly what 8xy1 (8xy2, 8xy3) leaves in Vx. |
| Opcodes.BitwiseBit | src/opcodes.cpp:82-101 | Bit k of the bit-by-bit combination of a and b, for k below the width, is the operator applied to bit k of a and bit k of b. |
| Opcodes.BitsDetermineValue | src/opcodes.cpp:82-101 | Two values below 2^width whose bits below the width agree are equal. |
| Opcodes.Bitwise | src/opcodes.cpp:82-101 | The operators OR, AND and XOR on bytes (Or8, And8, Xor8 apply it with width 8). The result fits the width. |
| Opcodes.RandomMasked | src/opcodes.cpp:160-165 | Cxnn leaves in Vx only bits of both the random byte and nn, and changes no other register and no other field. |
| Opcodes.CollidedInRowIff | src/opcodes.cpp:183-197 | The collision scan of one row finds a collision if and only if some lit cell of that row lands on a pixel that was on. |
| Opcodes.CollidedRowsIff | src/opcodes.cpp:177-198 | The collision scan over the rows finds a collision if and only if some cell of some row hits a pixel that was on. |
| Opcodes.HitIsLitPixel | src/opcodes.cpp:177-198 | Each hit cell is a toggled pixel that was non-zero. |
| Opcodes.LitPixelIsHit | src/opcodes.cpp:177-198 | Each toggled pixel that was non-zero comes from a hit cell. |
| Opcodes.CollisionIffLitPixel | src/opcodes.cpp:177-198 | A collision occurs if and only if some toggled pixel was non-zero. |
| Opcodes.DrawCollision | src/opcodes.cpp:167-199 | Dxyn sets VF to 1 exactly when it toggles a pixel that was on, and to 0 otherwise; the flag is recomputed on every draw. |
| Opcodes.DrawCellStep | src/opcodes.cpp:183-196 | One step of the column loop. A lit cell inside the grid toggles its own pixel, which no earlier cell touched. Any other cell changes nothing. |
| Opcodes.DrawRowStep | src/opcodes.cpp:177-198 | The framebuffer after the last column of one row is the framebuffer at the start of the next row. |
| Opcodes.DrawStopsAtMemoryEnd | src/opcodes.cpp:179-180 | Once index + row reaches 4096 the loop stops: the later rows change no pixel and find no collision. |
| Opcodes.DrawFootprint | src/opcodes.cpp:167-199 | Dxyn changes only pixels in the 8 × N rectangle at (Vx mod 64, Vy mod 32), clipped to the grid, in rows whose sprite byte lies inside memory. It changes no register except VF, and nothing outside the registers and the framebuffer. |
| Opcodes.DrawMonochrome | src/opcodes.cpp:190-195 | When every pixel is off (0) or on (0xFFFFFFFF), drawing keeps it so. |
| Opcodes.DrawTwiceRestores | src/opcodes.cpp:167-199 | For x, y ≠ F, drawing the same sprite twice restores the framebuffer. The second flag is 1 if and only if a pixel in the sprite's footprint was on after the first draw. |
| Opcodes.FullRowCells | src/opcodes.cpp:177-198 | A 0xFF sprite byte drawn at (0, 0) with height 1 lights all eight cells of row 0. |
| Opcodes.DrawFullRowOnBlank | src/opcodes.cpp:167-199 | Drawing 0xFF at (0, 0) on a blank screen turns on pixels 0..7 of row 0 and sets VF to 0. |
| Opcodes.ClearThenDrawTwice | src/opcodes.cpp:167-199 | After a clear, drawing 0xFF at (0, 0) twice leaves pixels 0..7 off. The second draw sets VF to 1. |
| Opcodes.FirstPressed | src/opcodes.cpp:226-234 | The key scan returns the lowest pressed key at or after its start, or the key count when no key is pressed. |
| Opcodes.WaitForKey | src/opcodes.cpp:221-238 | With a key pressed, Fx0A puts the lowest pressed key in Vx and changes nothing else. With none pressed, it only moves pc back two bytes, mod 2^16. |
| Opcodes.AddToIndex | src/opcodes.cpp:252-257 | Fx1E adds Vx to index if the sum is below 4096, changing nothing else, and otherwise changes nothing. An index inside memory stays inside. |
| Opcodes.FontAddress | src/opcodes.cpp:259-265 | For Vx < 16, Fx29 points index at the five-byte glyph of digit Vx inside the font and changes nothing else; for Vx ≥ 16 it changes nothing. |
| Opcodes.FontGlyphA | src/opcodes.cpp:259-265 | For Vx = 10, Fx29 sets index to 0x50 + 50. With the font intact, the five bytes there are the glyph "A". |
| Opcodes.FontLowNibbles | include/chip8.hpp:25-42 | Every font byte has a zero low nibble. |
| Opcodes.FontGlyphsNarrow | include/chip8.hpp:25-42 | No glyph lights a sprite column beyond the fourth. |
| Opcodes.BcdDigits | src/opcodes.cpp:267-274 | Fx33 writes the hundreds, tens and units of Vx at index, index+1 and index+2; the rest of memory and the other state are unchanged. |
| Opcodes.StoreRegistersFootprint | src/opcodes.cpp:276-284 | Fx55 writes register i to index + i for each i ≤ x with index + i < 4096. It changes no other memory byte and no other state. |
| Opcodes.StoreThenLoadRegisters | src/opcodes.cpp:276-294 | Fx65 after Fx55 with the same x and index leaves the machine exactly as the dump left it, with the registers unchanged. |
| Cpu.Execute | src/cpu.cpp:116 | Runs the dispatched handler's value-level function on the machine whose pc is already advanced; the null handler changes nothing. Its properties are stated by Cpu.ExecuteLeavesTimers and Cpu.ExecuteKeepsGood. |
| Cpu.Tick | src/cpu.cpp:118-126 | Each non-zero timer drops by one. Its properties are stated by Cpu.TimersCountDown and Cpu.LoadTimerThenTick. |
| Cpu.Step | src/cpu.cpp:111-127 | One cycle: fetch (or a fetch fault), pc + 2, dispatch (or a table overrun), the handler (or its bounds fault), then Tick. Its properties are stated by Cpu.StepRunsHandler, Cpu.FetchFault, Cpu.TableOverrunFault, Cpu.BcdFault and Cpu.StepKeepsGood. |
| Cpu.Initial | src/cpu.cpp:37-45 | The constructed machine. Its properties are stated by Cpu.InitialLayout and Cpu.InitialGood. |
| Cpu.LoadProgram | src/cpu.cpp:25-26 | The image copied to 0x200 onwards, cut off at the top of memory. Its properties are stated by Cpu.LoadCopies, Cpu.LoadFullImage, Cpu.LoadEmpty and Cpu.LoadKeepsFont. |
| Cpu.Fetch | src/cpu.cpp:113 | The instruction word has memory[pc] as its high byte and memory[pc + 1] as its low byte, so its high nibble is the high nibble of memory[pc]. |
| Cpu.FontLoadedStep | src/cpu.cpp:42-45 | Each iteration of the font loop writes one font byte at 0x50 + i. |
| Cpu.InitialLayout | src/cpu.cpp:37-45 | The constructed machine has pc = 0x200 and the font at 0x50. Every other byte of memory, pixel, register, stack slot, index, stack pointer and timer is 0. |
| Cpu.StepRunsHandler | src/cpu.cpp:111-127 | A cycle that passes the fetch, the dispatch and the handler's bounds check does three things: it advances pc by two, runs the dispatched handler on the fetched word, and counts the timers down. |
| Cpu.StepOverruns | include/chip8.hpp:111-124 | A cycle whose word reads past a secondary table faults with TableOverrun. |
| Cpu.StepFaultsInHandler | src/opcodes.cpp:267-274 | A cycle whose handler would access outside its arrays reports that handler's fault. |
| Cpu.FetchFault | src/cpu.cpp:113 | A cycle faults on the fetch if and only if pc + 1 ≥ 4096. |
| Cpu.TableOverrunFault | include/chip8.hpp:111-124 | Once the fetch succeeds, a cycle faults with TableOverrun if and only if the word's high nibble is 0, 8 or E and its low nibble is F. |
| Cpu.BcdFault | src/opcodes.cpp:267-274 | An Fx33 cycle faults if and only if index + 2 ≥ 4096, and otherwise completes. |
| Cpu.NullInstruction | src/opcodes.cpp:296-299 | An unassigned word only advances pc by two and counts each non-zero timer down by one. |
| Cpu.ExecuteLeavesTimers | src/opcodes.cpp:240-250 | No handler except Fx15 writes the delay timer, and none except Fx18 writes the sound timer. |
| Cpu.TimersCountDown | src/cpu.cpp:118-126 | In a cycle whose instruction does not load the delay (sound) timer, that timer drops by one if it was non-zero and stays 0 otherwise. |
| Cpu.LoadTimerThenTick | src/cpu.cpp:118-126 | An Fx15 (Fx18) cycle with Vx = v completes with v − 1 in the delay (sound) timer, or 0 when v = 0. |
| Cpu.ExecuteKeepsGood | src/opcodes.cpp:13-299 | Every handler keeps three things: index inside memory, the stack pointer at most 16, and every pixel off or on. |
| Cpu.StepKeepsGood | src/cpu.cpp:111-127 | From such a state a cycle never faults on the stack pointer. If it completes, the next state keeps the same three properties. |
| Cpu.InitialGood | src/cpu.cpp:37-45 | The constructed machine keeps the same three properties. |
| Cpu.LoadKeepsGood | src/cpu.cpp:25-26 | Loading a program keeps the same three properties. |
| Cpu.CallThenReturnCycles | src/opcodes.cpp:18-37 | A call cycle with room on the stack, whose target holds 00EE, moves pc to nnn. The return cycle after it brings pc back to the word after the call and the stack pointer back to its old value. |
| Cpu.JumpWithOffsetBeyondMemory | src/opcodes.cpp:155-158 | BFFF with V0 = 0xFF sets pc to 0x10FE, and the next cycle faults on the fetch. |
| Cpu.LoadCopies | src/cpu.cpp:25-26 | Loading copies the first min(\|bytes\|, 0xE00) bytes of the image to 0x200 onwards and changes nothing else. |
| Cpu.LoadFullImage | src/cpu.cpp:25-26 | An image of at least 0xE00 bytes fills memory up to address 0xFFF, and the rest of the image is dropped. |
| Cpu.LoadEmpty | src/cpu.cpp:25-26 | An empty image changes nothing. |
| Cpu.LoadKeepsFont | src/cpu.cpp:25-26 | Loading never overwrites the font. |
| Interpreter.Processor.constructor | src/cpu.cpp:37-45 | The constructor allocates fresh, distinct arrays and copies the font in a loop. Its state is exactly Cpu.Initial(). |
| Interpreter.Processor.LoadProgram | src/cpu.cpp:25-26 | The memory array afterwards is Cpu.LoadProgram of the old state. |
| Interpreter.Processor.Op00E0 | src/opcodes.cpp:13-16 | The new state is Opcodes.Op00E0 of the old one. |
| Interpreter.Processor.Op00EE | src/opcodes.cpp:18-24 | The new state is Opcodes.Op00EE of the old one. |
| Interpreter.Processor.Op1nnn | src/opcodes.cpp:26-29 | The new state is Opcodes.Op1nnn of the old one. |
| Interpreter.Processor.Op2nnn | src/opcodes.cpp:31-37 | The new state is Opcodes.Op2nnn of the old one. |
| Interpreter.Processor.Op3xnn | src/opcodes.cpp:39-45 | The new state is Opcodes.Op3xnn of the old one. |
| Interpreter.Processor.Op4xnn | src/opcodes.cpp:47-53 | The new state is Opcodes.Op4xnn of the old one. |
| Interpreter.Processor.Op5xy0 | src/opcodes.cpp:55-61 | The new state is Opcodes.Op5xy0 of the old one. |
| Interpreter.Processor.Op6xnn | src/opcodes.cpp:63-67 | The new state is Opcodes.Op6xnn of the old one. |
| Interpreter.Processor.Op7xnn | src/opcodes.cpp:69-73 | The new state is Opcodes.Op7xnn of the old one. |
| Interpreter.Processor.Op8xy0 | src/opcodes.cpp:75-80 | The new state is Opcodes.Op8xy0 of the old one. |
| Interpreter.Processor.Op8xy1 | src/opcodes.cpp:82-87 | The new state is Opcodes.Op8xy1 of the old one. |
| Interpreter.Processor.Op8xy2 | src/opcodes.cpp:89-94 | The new state is Opcodes.Op8xy2 of the old one. |
| Interpreter.Processor.Op8xy3 | src/opcodes.cpp:96-101 | The new state is Opcodes.Op8xy3 of the old one. |
| Interpreter.Processor.Op8xy4 | src/opcodes.cpp:103-110 | The new state is Opcodes.Op8xy4 of the old one, with VF written before Vx. |
| Interpreter.Processor.Op8xy5 | src/opcodes.cpp:112-118 | The new state is Opcodes.Op8xy5 of the old one, with VF written before Vx. |
| Interpreter.Processor.Op8xy6 | src/opcodes.cpp:120-125 | The new state is Opcodes.Op8xy6 of the old one. |
| Interpreter.Processor.Op8xy7 | src/opcodes.cpp:127-133 | The new state is Opcodes.Op8xy7 of the old one. |
| Interpreter.Processor.Op8xyE | src/opcodes.cpp:135-140 | The new state is Opcodes.Op8xyE of the old one. |
| Interpreter.Processor.Op9xy0 | src/opcodes.cpp:142-148 | The new state is Opcodes.Op9xy0 of the old one. |
| Interpreter.Processor.OpAnnn | src/opcodes.cpp:150-153 | The new state is Opcodes.OpAnnn of the old one. |
| Interpreter.Processor.OpBnnn | src/opcodes.cpp:155-158 | The new state is Opcodes.OpBnnn of the old one. |
| Interpreter.Processor.OpCxnn | src/opcodes.cpp:160-165 | The new state is Opcodes.OpCxnn of the old one and the given random byte. |
| Interpreter.Processor.OpDxyn | src/opcodes.cpp:167-199 | The nested row and column loops, with the early break at the end of memory, yield the framebuffer and flag of Opcodes.OpDxyn. |
| Interpreter.Processor.OpEx9E | src/opcodes.cpp:201-206 | The new state is Opcodes.OpEx9E of the old one. |
| Interpreter.Processor.OpExA1 | src/opcodes.cpp:208-213 | The new state is Opcodes.OpExA1 of the old one. |
| Interpreter.Processor.OpFx07 | src/opcodes.cpp:215-219 | The new state is Opcodes.OpFx07 of the old one. |
| Interpreter.Processor.OpFx0A | src/opcodes.cpp:221-238 | The key-scan loop with its early exit yields Opcodes.OpFx0A: the lowest pressed key, or pc moved back two bytes. |
| Interpreter.Processor.OpFx15 | src/opcodes.cpp:240-244 | The new state is Opcodes.OpFx15 of the old one. |
| Interpreter.Processor.OpFx18 | src/opcodes.cpp:246-250 | The new state is Opcodes.OpFx18 of the old one. |
| Interpreter.Processor.OpFx1E | src/opcodes.cpp:252-257 | The new state is Opcodes.OpFx1E of the old one. |
| Interpreter.Processor.OpFx29 | src/opcodes.cpp:259-265 | The new state is Opcodes.OpFx29 of the old one. |
| Interpreter.Processor.OpFx33 | src/opcodes.cpp:267-274 | With index + 2 inside memory, the new state is Opcodes.OpFx33 of the old one. |
| Interpreter.Processor.OpFx55 | src/opcodes.cpp:276-284 | The dump loop, skipping addresses past memory, yields Opcodes.OpFx55. |
| Interpreter.Processor.OpFx65 | src/opcodes.cpp:286-294 | The load loop, skipping addresses past memory, yields Opcodes.OpFx65. |
| Interpreter.Processor.Execute | src/cpu.cpp:116 | Running the dispatched handler has exactly the effect of Cpu.Execute. |
| Interpreter.Processor.CountDownTimers | src/cpu.cpp:118-126 | The new state is Cpu.Tick of the old one: each non-zero timer drops by one. |
| Interpreter.Processor.Cycle | src/cpu.cpp:111-127 | When Cpu.Step completes, the fields hold its next state and no fault is returned. When Cpu.Step faults, that fault is returned and the state is unchanged. The array fields keep referring to the same arrays. |

## Left out

- The SDL platform layer, the main loop's pacing and window, and the host's writes to `keypad` and reads of `video` are left out. The keypad is simply part of the state each cycle reads.
- `load_rom`'s file handling is left out: opening the file, stream errors and the integer return code. `LoadProgram` takes the image as a byte sequence and models the copy of up to 0xE00 bytes to 0x200. The load never touches the state outside that range.
- `randGen` (a Mersenne Twister seeded from `std::random_device`) is left out, because it is a source of randomness. Its byte is the `rand` parameter of `OpCxnn`, `Execute`, `Step` and `Cycle`.
- The member-function-pointer tables are left out as pointers. They are modelled as the sequences `PrimaryTable`, `Table0Entries`, `Table8Entries`, `TableEEntries` and `TableFEntries`, which hold the same assignments as the constructor's loops and stores. The constructor does not rebuild them at run time.
- The `opcode` field is left uninitialised by the C++ constructor. The model sets it to 0; no handler reads it before the first fetch writes it.
- Interpreter.Processor.Cycle: the out-of-bounds cases are undefined behaviour in C++. The model reports each as a fault and leaves the state unchanged. How far the C++ code gets before the bad access differs by case:
  - fetch at pc + 1 ≥ 4096: the bad access is the fetch's read, so nothing has been written yet;
  - table slot 0xF: `opcode` and `pc` are already written when slot 15 of the 15-entry table is read;
  - Fx33 past memory: `opcode` and `pc` are written, then memory[index]; when index is 4094, memory[4095] is written as well. Only then comes the write past the end;
  - return with the stack pointer above 16: no state satisfying `Valid()` gets there, so the difference does not arise.
- Interpreter.Processor.OpFx33: requires index + 2 < 4096, because the C++ handler writes memory[index + 2] without a check. `Cycle` turns the other case into the BcdBeyondMemory fault.
- Interpreter.Processor.Execute: requires for Fx33 the same bound that OpFx33 needs. The StackPointerBeyondStack fault of `Cpu.Step` cannot arise from the class, whose invariant keeps the stack pointer at most 16.
