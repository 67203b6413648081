# CHIP-8 interpreter core, in Dafny

This project models the machine at the heart of `chip8.js`, a CHIP-8
interpreter written as one JavaScript class, `Chip8`. The model covers:

- the state `initVM` builds: 4 KiB of RAM, sixteen byte registers V0..VF, the
  separate VF field, I, PC, SP, a sixteen-entry call stack, the delay and
  sound timers, the held keys and the `playing` flag;
- the display array `VRAM`;
- the font install, `clearScreen`, `flipPixel` and the memory half of
  `loadROM`;
- the timer half of `xpuCycle` and `cycle`;
- `exec`: fetch, decode, every handler, and the save and restore of V[0xF]
  around each handler.

The project has five modules:

- `Words` (`words.dfy`): the integer widths of the typed arrays, JavaScript's
  truncating `%`, and `&`, `|` and `^` on bytes.
- `Decoder` (`decoder.dfy`): splits an instruction word into its fields and
  chooses the handler.
- `Semantics` (`semantics.dfy`): the machine as a value. `Step` is one
  `exec`, `Tick` is the timer step, `Cycle` is both, `LoadRom` is the onload
  body.
- `Machine` (`machine.dfy`): the class `Chip8`. Its fields and arrays are
  the object's, and its methods update them in place. Each method is proved
  to leave the object in the state the matching `Semantics` function gives.
- `Properties` (`properties.dfy`): what the interpreter promises, proved
  about the `Semantics` functions. It covers the decoding round trip,
  dispatch against the instruction table, the flag register, byte
  arithmetic, skips, the call stack, BCD and register transfers, drawing a
  sprite twice, the timers, the font and program load.

Three handlers, 8XY4, 00E0 and FX0A, do not do what their own comments say,
because of a slip in the code. For these three `Step` and the class follow
the comments. The code as written is kept beside them and compared with
them; see "## Findings". Two other comments are copy-paste errors and the
code is right: the comment on 6XNN (chip8.js:244) is 3XNN's, and the
comment on FX65 (chip8.js:305) is FX55's. There the model follows the code:
6XNN stores NN in Vx, and FX65 loads V0..VX from RAM.

Some choices follow the code rather than the usual CHIP-8 description:

- 8XYE leaves `Vx & 0x80` (0 or 0x80) in VF, not 0 or 1.
- 2NNN pushes to slot `SP % 12` and jumps only when the pushed PC is
  non-zero. 00EE pops `stack[--SP]` with no mask; a slot outside the stack
  gives an undefined PC, written `Lost`.
- BNNN, FX1E, FX55 and FX65 leave their addresses unmasked. A read outside
  RAM gives 0 and a write outside RAM is dropped. FX33 masks its three
  addresses with 0xFFF.
- `flipPixel` does not wrap coordinates. The display array grows when a
  sprite runs past its end, so the model keeps every cell a sprite can reach.
- A word with no handler of its own runs nothing in the model
  (`Properties.NoOpEffect`). In the
  JavaScript such a word may run another handler, do nothing or throw,
  depending on the first word executed; "## Left out" lists the cases. The
  "Undefined opcode" halt cannot happen, because every class nibble has an
  entry in the table.
- FX0A reads the key states of the global `c8`. The model takes `c8` to be
  the object that runs the instruction.

## Model

| member | source | states |
|---|---|---|
| `Words.JsRem` | chip8.js:240 | The remainder of `SP % 0xC` has the dividend's sign, is smaller than 12 in magnitude, and differs from the dividend by a multiple of 12, which pins it down. |
| `Words.DivModNest` | chip8.js:320-325 | Dividing by b and then by c is dividing by b·c, and the remainder modulo b·c splits into the two digits. |
| `Words.Bitwise` | chip8.js:270-272 | A bit-by-bit AND/OR/XOR of the k low bits is below 2^k. |
| `Decoder.Decode` | chip8.js:320-325 | The fields nest: word = class·0x1000 + NNN, NNN = X·0x100 + NN, NN = Y·0x10 + N, each field in its width. |
| `Properties.FetchSplitsBytes` | chip8.js:314-325 | The class and X are the high and low nibbles of RAM[PC]; Y and N are those of RAM[PC+1]; NN is RAM[PC+1]. |
| `Properties.DecodeAssembled` | chip8.js:320-325 | Decoding the word assembled from nested fields gives those fields back. |
| `Decoder.Classify` | chip8.js:327-331 | No contract of its own: the dispatch by class nibble, then N (class 8), NN (classes E and F) or the whole word (class 0). Its meaning is stated by `Properties.ClassifyMatchesTable`. |
| `Decoder.DefinesFlag` | chip8.js:250-297 | No contract of its own: the handlers that assign VF (DXYN, 8XY4-8XY7, 8XYE). `Properties.FlagRestored` and `Properties.FlagSynced` state what it decides. |
| `Properties.ClassifyMatchesTable` | chip8.js:327-331 | A word selects a handler exactly when it matches that handler's mask and value in the instruction table (00E0, 8xy4, Ex9E, Fx65, ...). |
| `Semantics.Fetch` | chip8.js:314 | No contract of its own: `RAM[PC] << 8 \| RAM[PC+1]`. `Properties.FetchSplitsBytes` and `Properties.FirstInstructionAfterLoad` state its result. |
| `Semantics.Step` | chip8.js:207-344 | One `exec`. Its own contract keeps the array sizes; its effects are stated by `Machine.Chip8.Exec` and the lemmas below. |
| `Semantics.Execute` | chip8.js:340-344 | Runs one handler chosen by the dispatch; keeps the array sizes. |
| `Semantics.Control` | chip8.js:238-248 | 00EE, 1NNN, 2NNN, the register skips and BNNN; keeps the array sizes. |
| `Semantics.Arith` | chip8.js:244-297 | 6XNN, 7XNN, 8XYN and CXNN with Uint8 wrap-around; keeps the array sizes. |
| `Semantics.AddCarryAsWritten` | chip8.js:273-278 | 8XY4 as written: the carry test reads the wrapped byte. |
| `Semantics.Memory` | chip8.js:302-311 | ANNN, FX1E, FX29, FX33, FX55 and FX65; keeps the array sizes. |
| `Semantics.StoreRegisters` | chip8.js:304 | FX55 leaves RAM the same size: writes past the end are dropped. |
| `Semantics.LoadRegisters` | chip8.js:305 | FX65 leaves sixteen registers. |
| `Semantics.FirstKey` | chip8.js:232-236 | The key chosen is held, and no held key is lower (the first key JavaScript lists). |
| `Semantics.InputTimers` | chip8.js:298-301 | FX07, FX15, FX18, EX9E, EXA1 and FX0A; keeps the array sizes. |
| `Semantics.WaitKeyAsWritten` | chip8.js:232-236 | FX0A as written: returns at once when no key is held and otherwise stores 1. |
| `Semantics.Flip` | chip8.js:167-171 | Toggling one cell keeps the display's size. |
| `Semantics.Flips` | chip8.js:250-267 | Flipping the sprite's cells in order keeps the display's size. |
| `Semantics.Shifted` | chip8.js:264 | No contract of its own: the sprite byte after c `<<= 1` steps, kept to a byte. `Machine.Chip8.DrawRow` proves the loop's `sprite` equals it. |
| `Semantics.IsSet` | chip8.js:261 | No contract of its own: `sprite & 0x80` after c shifts. `Semantics.RowCells` and `Machine.Chip8.DrawColumn` use it. |
| `Semantics.RowCells` | chip8.js:258-265 | Every cell k of the first c columns of a sprite row satisfies Vx ≤ k − 64·py < Vx + c. The cells are counted along the display array from (Vx, py), so with Vx ≥ 57 the later columns fall in the following display row. |
| `Semantics.RowCellsStep` | chip8.js:258-265 | One more column adds its cell to a row exactly when that column's bit is set. |
| `Semantics.SpriteCellsStep` | chip8.js:255-266 | One more sprite row appends that row's cells, read from RAM[I + row]. |
| `Semantics.SpriteCells` | chip8.js:255-266 | Every cell a sprite reaches is a cell of the (grown) display. |
| `Semantics.ClearAsWritten` | chip8.js:237 | No contract of its own: 00E0 as written returns the state unchanged. `Properties.ClearIgnoredAsWritten` states the consequence. |
| `Semantics.ClearScreen` | chip8.js:159-163 | `clearScreen`; keeps the array sizes. |
| `Semantics.Draw` | chip8.js:250-267 | DXYN: flips the sprite's cells and sets VF from the collisions; keeps the array sizes. |
| `Semantics.Tick` | chip8.js:155-156 | Neither timer ever rises, and a beep is sounded only while playing with ST = 2. |
| `Semantics.Cycle` | chip8.js:126-130 | No contract of its own: `exec` then the timer step. `Machine.Chip8.Cycle` is proved against it and `Properties.Idle` states it does nothing when stopped. |
| `Semantics.FontByteAt` | chip8.js:73-75 | Font byte 5d + k is row k of glyph d: nibble (16 − 4k) of glyph word d, moved into the high nibble. |
| `Semantics.InitVm` | chip8.js:42-75 | No contract of its own: the state `initVM` builds. `Properties.InitVmState` states its contents. |
| `Semantics.Boot` | chip8.js:42-123 | The constructed state has the sizes of the typed arrays. |
| `Semantics.LoadRom` | chip8.js:184-198 | The loaded state has the sizes of the typed arrays. |
| `Semantics.KeyDown` | chip8.js:94-99 | After keydown the key is held, every other key keeps its state, and nothing else in the machine changes. |
| `Semantics.KeyUp` | chip8.js:94-99 | After keyup the key is not held, every other key keeps its state, and nothing else in the machine changes. |
| `Machine.Chip8.constructor` | chip8.js:11-14 | The new object holds the boot state: font in RAM, zeroed registers and stack, PC 0x200, blank display, not playing. |
| `Machine.Chip8.InitVm` | chip8.js:42-82 | `initVM` resets every register, the stack and RAM, installs the font and clears the keys; the display is untouched. |
| `Machine.Chip8.InstallFont` | chip8.js:73-75 | The outer loop writes the 80 font bytes at 0..79 and no other byte. |
| `Machine.Chip8.InstallGlyph` | chip8.js:74-75 | The inner loop writes the five rows of glyph d at c..c+4 and no other byte. |
| `Machine.Chip8.ClearScreen` | chip8.js:159-163 | Every display cell is unlit afterwards; nothing else changes. |
| `Machine.Chip8.FlipPixel` | chip8.js:167-171 | Exactly cell x + 64·y is toggled, and the result is whether it was lit before. |
| `Machine.Chip8.LoadRom` | chip8.js:184-198 | The object ends in `Semantics.LoadRom` of its old state. |
| `Machine.Chip8.ZeroProgramArea` | chip8.js:188-190 | RAM from 0x200 to its end is zero; the bytes below 0x200 are kept. |
| `Machine.Chip8.CopyProgram` | chip8.js:192-194 | The program's bytes are at 0x200 onward as far as RAM reaches; every other byte is kept. |
| `Machine.Chip8.KeyDown` | chip8.js:94-99 | The object ends in `Semantics.KeyDown` of its old state. |
| `Machine.Chip8.KeyUp` | chip8.js:94-99 | The object ends in `Semantics.KeyUp` of its old state. |
| `Machine.Chip8.Exec` | chip8.js:207-363 | The object ends in `Semantics.Step` of its old state. |
| `Machine.Chip8.Dispatch` | chip8.js:327-344 | The chosen handler leaves the object in `Semantics.Execute` of its old state. |
| `Machine.Chip8.ExecControl` | chip8.js:238-248 | The flow handlers follow `Semantics.Control`, touching only PC, SP and the stack. |
| `Machine.Chip8.ExecArith` | chip8.js:244-297 | The register handlers follow `Semantics.Arith`, touching only V and VF. |
| `Machine.Chip8.ExecFlagged` | chip8.js:273-297 | 8XY4, 8XY5, 8XY6, 8XY7 and 8XYE, the handlers that also write VF, follow `Semantics.Arith`. |
| `Machine.Chip8.ExecMemory` | chip8.js:302-311 | The memory handlers follow `Semantics.Memory`, touching only I, RAM and V. |
| `Machine.Chip8.StoreRegs` | chip8.js:304 | The FX55 loop leaves RAM as `Semantics.StoreRegisters` gives. |
| `Machine.Chip8.LoadRegs` | chip8.js:305 | The FX65 loop leaves V as `Semantics.LoadRegisters` gives. |
| `Machine.Chip8.ExecInputTimers` | chip8.js:298-301 | The key and timer handlers follow `Semantics.InputTimers`, touching only DT, ST, PC and V. |
| `Machine.Chip8.Draw` | chip8.js:250-267 | The row loop leaves the display and VF as `Semantics.Draw` gives. |
| `Machine.Chip8.DrawSprite` | chip8.js:255-266 | Starting from VF = 0, the row loop flips the sprite's cells in drawing order; VF is 1 exactly when a flip hit a lit cell. |
| `Machine.Chip8.DrawSpriteRow` | chip8.js:257-265 | One pass of the row loop extends the flipped cells by that row's cells, read from RAM[I + y]. |
| `Machine.Chip8.DrawRow` | chip8.js:258-265 | The bit loop over one row flips exactly that row's set-bit cells, in order, and keeps VF 0 or 1. |
| `Machine.Chip8.DrawColumn` | chip8.js:261-264 | One column: when bit 7 of the shifted byte is set, flips its cell and raises VF exactly on a collision; otherwise changes nothing. |
| `Machine.Chip8.XpuCycle` | chip8.js:135-157 | Timers and beep as `Semantics.Tick`; nothing else changes. |
| `Machine.Chip8.Cycle` | chip8.js:126-130 | `exec` then `xpuCycle`, as `Semantics.Cycle`. |
| `Properties.NoOpEffect` | chip8.js:327-331 | A word that selects no handler moves PC past itself and changes nothing else. |
| `Properties.StepAdvancesPc` | chip8.js:314-318 | A handler that neither jumps, skips nor waits leaves PC two past the instruction. |
| `Properties.FlagRestored` | chip8.js:342-344 | A handler that does not assign VF cannot change V[0xF], even when it writes V[0xF] itself (6FNN, 7FNN, FF65). |
| `Properties.FlagSynced` | chip8.js:342-344 | After each executed instruction, the VF field equals V[0xF]. |
| `Properties.RegisterAssign` | chip8.js:218-271 | 6XNN, 8XY0, 8XY1 and 8XY2 store NN, Vy, Vx \| Vy and Vx & Vy into Vx. PC moves past the instruction and nothing else changes, V[0xF] included. |
| `Properties.XorAssign` | chip8.js:272 | 8XY3 stores Vx ^ Vy into Vx. PC moves past the instruction and nothing else changes, V[0xF] included. |
| `Properties.AddImmediate` | chip8.js:245 | 7XNN gives (Vx + NN) mod 256, keeps every other register, V[0xF] included, and changes nothing else but PC. |
| `Properties.AddWithCarry` | chip8.js:273-278 | 8XY4: Vx + Vy = new Vx + 256·VF with VF ≤ 1; with X = F the carry wins; other registers kept, and nothing else but PC and VF changes. |
| `Properties.SubtractWithBorrow` | chip8.js:279-284 | 8XY5: (Vx − Vy) mod 256, and VF = 1 iff Vx > Vy (else 0); other registers kept, and nothing else but PC and VF changes. |
| `Properties.SubtractReversed` | chip8.js:219-225 | 8XY7: (Vy − Vx) mod 256, and VF = 1 iff Vy > Vx (else 0); other registers kept, and nothing else but PC and VF changes. |
| `Properties.ShiftRightOut` | chip8.js:285-289 | 8XY6: VF ≤ 1 and Vx = 2·new Vx + VF; other registers kept, and nothing else but PC and VF changes. |
| `Properties.ShiftLeftOut` | chip8.js:291-297 | 8XYE: VF is 0 or 0x80, and 2·Vx = new Vx + 2·VF; other registers kept, and nothing else but PC and VF changes. |
| `Properties.AddThenSubtract` | chip8.js:273-284 | The 8XY4 and 8XY5 handlers undo each other on Vx when X ≠ Y. Over whole execs X and Y must also differ from F, because the carry left in V[0xF] changes what 8XY5 reads. |
| `Properties.XorXor` | chip8.js:272 | XOR with the same operand twice gives back the low bits of the first (by induction on the width). |
| `Properties.XorInvolutive` | chip8.js:272 | On bytes, (a ^ b) ^ b = a. |
| `Properties.XorTwice` | chip8.js:272 | 8XY3 run twice with the same Vy restores Vx. |
| `Properties.AndIsSubmask` | chip8.js:249 | OR-ing b with (a AND b) gives b on the low k bits (by induction). |
| `Properties.AndSubmask` | chip8.js:249 | On bytes, a & b has no bit b lacks and is at most b. |
| `Properties.RandomSubmask` | chip8.js:249 | CXNN's result is a submask of NN, at most NN; V[0xF] and the other registers are kept, and nothing else but PC changes. |
| `Properties.SkipEffect` | chip8.js:241-246 | 3XNN, 4XNN, 5XY0, 9XY0, EX9E and EXA1 move PC 4 past the instruction when their test holds, 2 otherwise, and change nothing else. |
| `Properties.JumpEffect` | chip8.js:239-248 | 1NNN sets PC to NNN and BNNN to NNN + V0, unmasked; nothing else changes. |
| `Properties.ReturnEffect` | chip8.js:238 | 00EE lowers SP by one and sets PC to the slot SP then names; a slot outside the stack (a lone 00EE at SP = 0) leaves PC undefined. Nothing else changes. |
| `Properties.CallEffect` | chip8.js:240 | 2NNN for every SP: SP goes up by one. A non-negative SP writes the advanced PC into slot SP mod 12. A negative SP writes slot 0 when it is a multiple of 12 and nothing otherwise. PC becomes NNN exactly when the advanced PC is truthy, and nothing else changes. |
| `Properties.CallPushes` | chip8.js:240 | 2NNN with 0 ≤ SP < 12: PC is NNN, SP is one higher, and slot SP holds the address after the call. |
| `Properties.CallThenReturn` | chip8.js:238-240 | 2NNN at a with 0 ≤ SP < 12 jumps to NNN. A later 00EE with SP and the slot unchanged returns to a + 2 and restores SP. |
| `Properties.IndexEffect` | chip8.js:247-302 | ANNN sets I to NNN and FX1E adds Vx to I, unmasked; PC moves on and nothing else changes. |
| `Properties.DecimalDigits` | chip8.js:306-311 | A byte's hundreds, tens and units digits give the byte back. |
| `Properties.BcdDigits` | chip8.js:306-311 | FX33 stores three decimal digits with 100·d0 + 10·d1 + d2 = Vx at (I+k) & 0xFFF; the rest of RAM, V and I are kept, and nothing else but PC changes. |
| `Properties.StoreRegistersEffect` | chip8.js:304 | FX55: RAM[I+k] = Vk for k ≤ X within RAM; other cells, V and I are kept, and nothing else but PC changes. |
| `Properties.LoadRegistersEffect` | chip8.js:305 | FX65: Vk = RAM[I+k] (0 past RAM) for k ≤ X, except V[0xF] which is restored; higher registers, RAM and I are kept, and nothing else but PC changes. |
| `Properties.StoreThenLoad` | chip8.js:304-305 | FX65 after FX55 at the same I gives V0..VX back. |
| `Properties.WaitKeyEffect` | chip8.js:232-236 | FX0A with no key held leaves the machine on the same instruction. Otherwise Vx is the lowest held key, PC moves on, and the other registers, V[0xF] included, and the rest of the state are kept. |
| `Properties.KeySkip` | chip8.js:298 | EX9E skips after key Vx goes down and does not skip after it goes up. |
| `Properties.SkipAfterKeyDown` | chip8.js:298 | EX9E run right after key Vx goes down moves PC four bytes. |
| `Properties.NoSkipAfterKeyUp` | chip8.js:298 | EX9E run right after key Vx goes up moves PC two bytes. |
| `Properties.TimerRegisters` | chip8.js:290-301 | FX07 reads DT into Vx, keeping the other registers and V[0xF]. FX15 and FX18 set DT and ST from Vx. Each changes nothing else but PC. |
| `Properties.Idle` | chip8.js:137-209 | When not playing, `exec`, the timer step and `cycle` change nothing and do not beep. |
| `Properties.TickEffect` | chip8.js:155-156 | DT and ST drop by one only while positive, so they stop at 0. The beep sounds iff ST goes from 2 to 1. Nothing else changes. |
| `Properties.TimersRunDown` | chip8.js:155-156 | After n timer steps each timer is max(T − n, 0). A sound timer started at ≥ 2 has beeped exactly once once n ≥ ST − 1, and never otherwise. |
| `Properties.FlipTwice` | chip8.js:167-171 | `flipPixel` twice restores the cell, exactly one of the two calls reports a collision, and no other cell changes. |
| `Properties.FlipsToggle` | chip8.js:250-267 | Flipping distinct cells inverts exactly those cells. |
| `Properties.FlipsCollide` | chip8.js:250-267 | Flipping distinct cells reports a collision iff one of them was lit. |
| `Properties.RowCellsIncreasing` | chip8.js:258-265 | A row's cells are visited left to right. |
| `Properties.SpriteCellsBelow` | chip8.js:255-266 | Every cell of an n-row sprite lies below index Vx + 64·(Vy + n), where sprite row n would start. With Vx ≥ 57 a row's cells spill into the next display row, which the bound allows. |
| `Properties.SpriteCellsIncreasing` | chip8.js:255-266 | A sprite's cells are strictly increasing, so no draw flips a cell twice. |
| `Properties.DrawFlips` | chip8.js:250-267 | The DXYN handler leaves the old display with the sprite's cells flipped in order. VF is 1 when a flip collided and 0 otherwise. Nothing else changes. |
| `Properties.DrawEffect` | chip8.js:250-267 | One exec of DXYN: the display is flipped as `DrawFlips` says, VF and V[0xF] are 1 on a collision and 0 otherwise, PC moves on, and nothing else changes. |
| `Properties.FlipsTwice` | chip8.js:250-267 | Flipping the same distinct cells twice restores the display. The flags say whether a cell was lit, or unlit, before the first pass. |
| `Properties.DrawTwice` | chip8.js:250-267 | DXYN twice with the same I, Vx and Vy restores the display. The second VF is 1 iff a sprite cell was unlit before the first draw, so no first collision and a set bit give a second collision. |
| `Properties.DrawStepTwice` | chip8.js:250-267 | The same DXYN executed twice in a row (X, Y ≠ F) restores the display, and the collision corollary holds. |
| `Properties.ClearBlanks` | chip8.js:159-163 | 00E0 (as intended) unlights every cell and changes nothing but the display, PC and VF. |
| `Properties.NibbleShift` | chip8.js:75 | Dropping `shift` bits one at a time and keeping four is `(word >> shift) & 0xF`. |
| `Properties.NibbleFour` | chip8.js:75 | Shifting four more bits drops one hexadecimal digit. |
| `Properties.GlyphRows` | chip8.js:75 | The shifts 16, 12, 8, 4 and 0 pick the five hexadecimal digits of a glyph word, most significant first. |
| `Properties.GlyphDigits` | chip8.js:66-75 | Each glyph is the five hexadecimal digits of its font word, most significant first, each moved into the high nibble. |
| `Properties.GlyphZero` | chip8.js:66-70 | The glyph of 0 is F0 90 90 90 F0. |
| `Properties.FontLayout` | chip8.js:73-75 | Glyph d lies at 5d..5d+4. |
| `Properties.FontGlyphEffect` | chip8.js:303 | FX29 for any Vx: I = 5·Vx, unmasked, and nothing else but PC changes. |
| `Properties.GlyphAddressed` | chip8.js:303 | With the font in place and Vx < 16, FX29 points I at glyph Vx. |
| `Properties.InitVmState` | chip8.js:42-75 | `initVM` leaves the font at 0..79 and zeros above it, zeroed registers and stack, VF, I, SP and both timers 0, PC 0x200, no key held, not playing, and the display untouched. The boot state adds a blank display. |
| `Properties.LoadRomLayout` | chip8.js:184-198 | After a load RAM below 0x200 holds the font and then zeros. The program is at 0x200 as far as it fits, and zeros follow. The display is blank, registers, VF and stack are zero, PC is 0x200, no key is held, and the machine is playing. |
| `Properties.FirstInstructionAfterLoad` | chip8.js:193-197 | The first word fetched after a load is the program's first two bytes. |
| `Properties.CarryLostAsWritten` | chip8.js:276 | 8XY4 as written always leaves VF 0; at Vx = 0xFF, Vy = 2 it stores 1 with VF 0 where the intended VF is 1. |
| `Properties.ClearIgnoredAsWritten` | chip8.js:237 | 00E0 as written leaves a lit cell lit; the intended clear unlights it. |
| `Properties.WaitKeyAsWrittenDiffers` | chip8.js:232-236 | FX0A as written (taking the global `c8` to be this object) does not wait when no key is held, and stores 1 when key 5 is held; the intended handler steps back and stores 5. |

## Left out

- Canvas and sound: the canvas set-up in `initGPU`, the redraw loop in `xpuCycle`, the audio element and the `beep` getter. The beep is the boolean result of `Tick` and `XpuCycle`.
- Browser keys: `keyMap` and the window key handlers. Keys are a set of identifiers changed by `KeyDown` and `KeyUp`. The identifiers range over 0..0x10, so they include 0, which the key map never produces, and 0x10, which it does.
- The network request in `loadROM`: the response bytes are a parameter, and only the onload body is modelled.
- The `setTimeout` loop in the constructor, `hz` and the `opt` object: this is scheduling and configuration.
- `Math.random` and `Math.round` in CXNN: the handler takes a random byte as a parameter. AND-ing it with NN yields exactly the values `round(random·NN) & NN` can yield.
- FX33's floating-point division: integer division, which matches the Uint8 store's truncation.
- The JavaScript mechanics of the dispatch table. The model dispatches by class and sub-field, follows each handler's own comment, and runs nothing for a word with no handler of its own. The JavaScript differs as follows:
  - The table is built on the first `exec`, and its closures keep that call's `opcode`.
  - 8XY0 has N = 0, which the dispatch treats as false, so 8XY0 always reaches the 0x8000 entry. That entry rewrites the table with `Object.assign`: key 0 becomes `Vx = Vy` and key 7 becomes 8XY7's subtraction. It then calls `tmp_ins[N]` only when the first executed word is itself a table key. So 8XY0 runs `Vx = Vy` only in that case; otherwise it does nothing for the whole run.
  - Before the rewrite 8XY7 runs FX07's `Vx = DT`; afterwards FX07 runs 8XY7.
  - 8XY8, 8XY9, 8XYB, 8XYC, 8XYD and 8XYF also reach the 0x8000 entry. When the first executed word was a table key (00E0 is one), `tmp_ins[N]` is undefined and calling it throws a TypeError. The throw ends the constructor's `setTimeout` loop with `playing` still true. Otherwise they do nothing.
  - A class-0 word with no key of its own (0x0123) reaches entry 0. Before the rewrite that does nothing; afterwards it runs `Vx = Vy` (V1 = V2 for 0x0123).
  - The sub-field keys are shared across classes, so words whose sub-field matches another class's key run that key's handler: 0x0001 and E001 run 8XY1, 8XYA and E00A run FX0A, FXEE runs 00EE, and so on.
- The "Undefined opcode" halt: every class nibble has an entry in the table, so it cannot happen and is not modelled.
- The debug mirrors `opcode`, `NNNN`, `instr` and `V0`..`VF`. The fields `X`, `Y`, `N`, `NN` and `NNN` are not part of the state: `exec` recomputes them from the fetched word before every handler (chip8.js:320-325), and the model passes them to the handlers as `Fields`.
- Array allocation: `initVM` allocates fresh typed arrays, while the class resets its arrays in place. No other object holds them, so nothing can tell the difference.
- The display grows as a JavaScript array does. The model fixes its size at the furthest cell a sprite can reach, 263 + 64·269 cells.
- Number precision: I, SP and PC are unbounded integers. JavaScript numbers are exact up to 2^53, far beyond what a run reaches.
- `Semantics.Step`, `Execute`, `Control`, `Arith`, `Memory`, `InputTimers`, `Draw`, `ClearScreen`, `Boot` and `LoadRom`: each one's own contract states only the array sizes. What one `exec` of each handler does is stated by a `Properties` lemma about `Step`:
  - `RegisterAssign`, `XorAssign`, `AddImmediate`, `AddWithCarry`, `SubtractWithBorrow`, `SubtractReversed`, `ShiftRightOut`, `ShiftLeftOut` and `RandomSubmask` cover the register handlers.
  - `JumpEffect`, `CallEffect`, `ReturnEffect` and `SkipEffect` cover control flow.
  - `CallPushes` and `CallThenReturn` add the call-and-return round trip.
  - `IndexEffect`, `FontGlyphEffect`, `BcdDigits`, `StoreRegistersEffect` and `LoadRegistersEffect` cover memory.
  - `TimerRegisters` and `WaitKeyEffect` cover the timers and keys.
  - `ClearBlanks` and `DrawEffect` cover the display.
  - `GlyphAddressed` adds that FX29 points I at the glyph once the font is in place.
  - `NoOpEffect` covers the words that select no handler.
  - `InitVmState` covers `Boot`, and `LoadRomLayout` covers `LoadRom`.
  The `Machine` methods are proved equal to these functions. Each per-handler lemma states the values the handler writes, and also states the whole result as a record update of the old state, so what stays unchanged is stated too. `InitVmState` and `LoadRomLayout` state every field of the result one by one. `CallPushes`, `CallThenReturn` and `GlyphAddressed` are corollaries and state only what they name.
- FX0A's reference to the global `c8`: the model reads the keys of the machine that runs the instruction, which is `c8` only when the page named its one interpreter `c8`.

## Findings

| source | as written | input that shows it | evidently intended | confidence | as-written member | corrected member |
|---|---|---|---|---|---|---|
| chip8.js:276 | 8XY4 tests the carry after the sum was stored into the Uint8Array, so VF is always 0 | V[X] = 0xFF, V[Y] = 0x02: V[X] becomes 0x01 and VF 0 | VF = 1 when Vx + Vy exceeds 0xFF (the comment's "carry") | high, not executed | `Properties.CarryLostAsWritten` (on `Semantics.AddCarryAsWritten`) | `Properties.AddWithCarry` |
| chip8.js:237 | 00E0 returns the method `clearScreen` without calling it, so the display is unchanged | any state with a lit cell: it is still lit after 00E0 | clear the display (the comment's "Clear display") | high, not executed | `Properties.ClearIgnoredAsWritten` (on `Semantics.ClearAsWritten`) | `Properties.ClearBlanks` |
| chip8.js:232-236 | FX0A (which reads the global `c8`, taken here to be the running machine) returns when no key is held, although PC has already moved on, so nothing waits; with a key held it stores the entry `true`, i.e. 1 | no key held: the next instruction runs; key 5 held: Vx = 1 | wait until a key is held, then store its identifier | high, not executed | `Properties.WaitKeyAsWrittenDiffers` (on `Semantics.WaitKeyAsWritten`) | `Properties.WaitKeyEffect` |
