/**
 * The CHIP-8 machine as values: the state the `Chip8` class keeps in its
 * fields (chip8.js lines 42-59 and 123), and what one instruction, one timer
 * step, a program load and a key event do to it. The class in module Machine
 * is proved to follow these functions; the lemmas in module Properties are
 * about them.
 */
module Semantics {
  import opened Words
  import opened Decoder

  const RamSize: nat := 0x1000
  const ProgramStart: nat := 0x200
  const ScreenWidth: nat := 64
  const ScreenHeight: nat := 32
  /** Cells of the display proper: 64 columns by 32 rows, row-major. */
  const ScreenCells: nat := ScreenWidth * ScreenHeight

  /**
   * The display is a plain JavaScript array, which grows when `flipPixel`
   * writes past its end: a sprite at Vx, Vy up to 255 reaches column 255 + 7
   * of row 255 + 14. The model keeps every cell a draw can reach; the cells
   * from ScreenCells on are off screen, and a cell never written reads as
   * unlit, as `undefined` does.
   */
  const VramCells: nat := (255 + 7 + 1) + ScreenWidth * (255 + 14)

  /** Key identifiers the key map can produce (0x1 to 0x10) and the hexadecimal keypad's 0x0. */
  type KeyId = k: int | 0 <= k <= 0x10

  /**
   * The program counter. It becomes `undefined` (and then NaN) when 00EE
   * reads a stack slot outside 0..15; `Lost` stands for that value.
   */
  datatype Pc = Addr(a: int) | Lost

  /**
   * The interpreter's state. `vf` is the object field VF, kept apart from
   * the register V[0xF]: handlers write their flag into it, and `exec`
   * copies it into V[0xF] after each handler.
   */
  datatype State = State(
    ram: seq<Byte>,
    v: seq<Byte>,
    vf: Byte,
    i: nat,
    pc: Pc,
    sp: int,
    stack: seq<Word16>,
    dt: Byte,
    st: Byte,
    vram: seq<bool>,
    keys: set<KeyId>,
    playing: bool)

  predicate WellFormed(s: State)
  {
    |s.ram| == RamSize && |s.v| == 16 && |s.stack| == 16 && |s.vram| == VramCells
  }

  // ---------------------------------------------------------------- memory

  /** A read of RAM: outside the typed array JavaScript yields `undefined`, which every use turns into 0. */
  function ByteAt(ram: seq<Byte>, a: int): Byte
  {
    if 0 <= a < |ram| then ram[a] else 0
  }

  function Advance(pc: Pc, d: int): Pc
  {
    match pc
    case Addr(a) => Addr(a + d)
    case Lost => Lost
  }

  /** The instruction word at PC: the high byte at PC, the low byte at PC + 1. */
  function Fetch(s: State): Word16
  {
    match s.pc
    case Addr(a) => ByteAt(s.ram, a) * 0x100 + ByteAt(s.ram, a + 1)
    case Lost => 0
  }

  function Instruction(s: State): Fields
  {
    Decode(Fetch(s))
  }

  /** JavaScript's `+(condition)`: 1 or 0. */
  function Flag(b: bool): Byte
  {
    if b then 1 else 0
  }

  function SetV(s: State, x: Nibble, b: Byte): (r: State)
    requires WellFormed(s)
    ensures WellFormed(r)
  {
    s.(v := s.v[x := b])
  }

  // ------------------------------------------------------------ execution

  /**
   * `exec`: nothing happens unless the machine is playing. Otherwise fetch,
   * advance PC by 2, decode, save V[0xF] into VF, run the handler, and copy
   * VF back into V[0xF].
   */
  function Step(s: State, rnd: Byte): (r: State)
    requires WellFormed(s)
    ensures WellFormed(r)
  {
    if !s.playing then s
    else
      var f := Instruction(s);
      var begun := s.(pc := Advance(s.pc, 2), vf := s.v[0xF]);
      var done := Execute(begun, Classify(f), f, rnd);
      done.(v := done.v[0xF := done.vf])
  }

  /** One handler. `rnd` is the random byte CXNN consumes. */
  function Execute(s: State, op: Op, f: Fields, rnd: Byte): (r: State)
    requires WellFormed(s)
    ensures WellFormed(r)
  {
    match op
    case ClearDisplay => ClearScreen(s)
    case DrawSprite => Draw(s, f)
    case Flow(o) => Control(s, o, f)
    case Alu(o) => Arith(s, o, f, rnd)
    case Mem(o) => Memory(s, o, f)
    case Io(o) => InputTimers(s, o, f)
    case NoOp => s
  }

  function SkipIf(s: State, taken: bool): State
  {
    if taken then s.(pc := Advance(s.pc, 2)) else s
  }

  /** The value a `Uint16Array` stores for PC: modulo 2^16, and 0 for NaN. */
  function ToWord16(pc: Pc): Word16
  {
    match pc
    case Addr(a) => a % 0x1_0000
    case Lost => 0
  }

  /** Whether PC is truthy in JavaScript (neither 0 nor NaN). */
  predicate Truthy(pc: Pc)
  {
    pc.Addr? && pc.a != 0
  }

  function Control(s: State, op: FlowOp, f: Fields): (r: State)
    requires WellFormed(s)
    ensures WellFormed(r)
  {
    match op
    case Return =>
      // PC = stack[--SP]: no mask on SP
      var sp := s.sp - 1;
      s.(sp := sp, pc := if 0 <= sp < 16 then Addr(s.stack[sp]) else Lost)
    case Jump => s.(pc := Addr(f.nnn))
    case Call =>
      // (stack[SP++ % 0xC] = PC) && (PC = NNN): a negative slot is not written
      var slot := JsRem(s.sp, 12);
      var stack := if 0 <= slot then s.stack[slot := ToWord16(s.pc)] else s.stack;
      s.(sp := s.sp + 1, stack := stack, pc := if Truthy(s.pc) then Addr(f.nnn) else s.pc)
    case SkipEqImm => SkipIf(s, s.v[f.x] == f.nn)
    case SkipNeImm => SkipIf(s, s.v[f.x] != f.nn)
    case SkipEqReg => SkipIf(s, s.v[f.x] == s.v[f.y])
    case SkipNeReg => SkipIf(s, s.v[f.x] != s.v[f.y])
    case JumpOffset => s.(pc := Addr(f.nnn + s.v[0]))
  }

  /**
   * Register arithmetic; every store into V is modulo 256. 8XY4 sets the
   * carry as its comment says (see AddCarryAsWritten for the code as written).
   * 8XYE's flag is `Vx & 0x80`, so 0 or 0x80.
   */
  function Arith(s: State, op: AluOp, f: Fields, rnd: Byte): (r: State)
    requires WellFormed(s)
    ensures WellFormed(r)
  {
    var vx, vy := s.v[f.x], s.v[f.y];
    match op
    case LoadImm => SetV(s, f.x, f.nn)
    case AddImm => SetV(s, f.x, (vx + f.nn) % 0x100)
    case Move => SetV(s, f.x, vy)
    case Or => SetV(s, f.x, BitOr(vx, vy))
    case And => SetV(s, f.x, BitAnd(vx, vy))
    case Xor => SetV(s, f.x, BitXor(vx, vy))
    case AddCarry => SetV(s, f.x, (vx + vy) % 0x100).(vf := Flag(vx + vy > 0xFF))
    case SubBorrow => SetV(s, f.x, (vx - vy) % 0x100).(vf := Flag(vx > vy))
    case ShiftRight => SetV(s, f.x, vx / 2).(vf := vx % 2)
    case SubReverse => SetV(s, f.x, (vy - vx) % 0x100).(vf := Flag(vy > vx))
    case ShiftLeft => SetV(s, f.x, (2 * vx) % 0x100).(vf := if vx >= 0x80 then 0x80 else 0)
    case Random => SetV(s, f.x, BitAnd(rnd, f.nn))
  }

  /** The code as written for 8XY4: the carry test reads the byte already stored, which is never above 0xFF. */
  function AddCarryAsWritten(s: State, f: Fields): (r: State)
    requires WellFormed(s)
    ensures WellFormed(r)
  {
    var stored := (s.v[f.x] as int + s.v[f.y]) % 0x100;
    SetV(s, f.x, stored).(vf := Flag(stored > 0xFF))
  }

  /** FX55: RAM[I + k] = V[k] for k <= X; a write past the end of RAM is dropped. */
  function StoreRegisters(ram: seq<Byte>, v: seq<Byte>, base: nat, x: Nibble): (r: seq<Byte>)
    requires |v| == 16
    ensures |r| == |ram|
  {
    seq(|ram|, a requires 0 <= a < |ram| => if base <= a <= base + x then v[a - base] else ram[a])
  }

  /** FX65: V[k] = RAM[I + k] for k <= X. */
  function LoadRegisters(ram: seq<Byte>, v: seq<Byte>, base: nat, x: Nibble): (r: seq<Byte>)
    requires |v| == 16
    ensures |r| == 16
  {
    seq(16, k requires 0 <= k < 16 => LoadedRegister(ram, v, base, x, k))
  }

  function LoadedRegister(ram: seq<Byte>, v: seq<Byte>, base: nat, x: Nibble, k: Nibble): Byte
    requires |v| == 16
  {
    if k <= x then ByteAt(ram, base + k) else v[k]
  }

  /**
   * The address register and memory. I is never masked except by FX33,
   * which masks each of its three addresses with 0xFFF.
   */
  function Memory(s: State, op: MemOp, f: Fields): (r: State)
    requires WellFormed(s)
    ensures WellFormed(r)
  {
    var vx: int := s.v[f.x];
    match op
    case LoadIndex => s.(i := f.nnn)
    case AddIndex => s.(i := s.i + vx)
    case FontGlyph => s.(i := vx * 5)
    case StoreBcd =>
      s.(ram := s.ram[s.i % 0x1000 := (vx / 100) % 10]
                     [(s.i + 1) % 0x1000 := (vx / 10) % 10]
                     [(s.i + 2) % 0x1000 := vx % 10])
    case StoreRegs => s.(ram := StoreRegisters(s.ram, s.v, s.i, f.x))
    case LoadRegs => s.(v := LoadRegisters(s.ram, s.v, s.i, f.x))
  }

  /** The lowest key at or above `from`; JavaScript lists integer keys of an object in ascending order. */
  function FirstKey(keys: set<KeyId>, from: nat): (k: KeyId)
    requires keys != {}
    requires forall j :: j in keys ==> from <= j
    ensures k in keys
    ensures forall j :: j in keys ==> k <= j
    decreases 0x10 - from
  {
    if from in keys then from
    else FirstKey(keys, from + 1)
  }

  function LowestKey(keys: set<KeyId>): KeyId
    requires keys != {}
  {
    FirstKey(keys, 0)
  }

  /**
   * Timers and keys. FX0A waits as its comment says: with no key held it
   * steps PC back onto itself, otherwise it stores the lowest held key (see
   * WaitKeyAsWritten for the code as written).
   */
  function InputTimers(s: State, op: IoOp, f: Fields): (r: State)
    requires WellFormed(s)
    ensures WellFormed(r)
  {
    var vx := s.v[f.x];
    match op
    case ReadDelay => SetV(s, f.x, s.dt)
    case SetDelay => s.(dt := vx)
    case SetSound => s.(st := vx)
    case SkipKey => SkipIf(s, vx in s.keys)
    case SkipNotKey => SkipIf(s, vx !in s.keys)
    case WaitKey =>
      if s.keys == {} then s.(pc := Advance(s.pc, -2))
      else SetV(s, f.x, LowestKey(s.keys))
  }

  /**
   * The code as written for FX0A: PC has already moved on, so nothing waits,
   * and the value stored is the key's entry `true`, which a Uint8Array keeps as 1.
   * The handler reads the key states of the global `c8`; the model takes
   * `c8` to be the object that runs the instruction.
   */
  function WaitKeyAsWritten(s: State, f: Fields): (r: State)
    requires WellFormed(s)
    ensures WellFormed(r)
  {
    if s.keys == {} then s else SetV(s, f.x, 1)
  }

  // -------------------------------------------------------------- display

  /** `flipPixel`: toggle cell `k` and report whether it was lit. */
  function Flip(vram: seq<bool>, k: int): (r: (seq<bool>, bool))
    requires 0 <= k < |vram|
    ensures |r.0| == |vram|
  {
    (vram[k := !vram[k]], vram[k])
  }

  predicate InRange(ks: seq<int>, size: nat)
  {
    forall j :: 0 <= j < |ks| ==> 0 <= ks[j] < size
  }

  /** Flip the cells `ks` in order; the flag is whether any flip hit a lit cell. */
  function Flips(vram: seq<bool>, ks: seq<int>): (r: (seq<bool>, bool))
    requires InRange(ks, |vram|)
    ensures |r.0| == |vram|
    decreases |ks|
  {
    if ks == [] then (vram, false)
    else
      var p := Flips(vram, ks[..|ks| - 1]);
      var q := Flip(p.0, ks[|ks| - 1]);
      (q.0, p.1 || q.1)
  }

  /** Flipping one more cell extends the flipped display and the collision flag. */
  lemma FlipsSnoc(vram: seq<bool>, ks: seq<int>, k: int)
    requires InRange(ks, |vram|) && 0 <= k < |vram|
    ensures InRange(ks + [k], |vram|)
    ensures Flips(vram, ks + [k])
         == (Flip(Flips(vram, ks).0, k).0, Flips(vram, ks).1 || Flip(Flips(vram, ks).0, k).1)
  {
    assert (ks + [k])[..|ks|] == ks;
  }

  /**
   * The sprite row `b` after `c` shifts `sprite <<= 1`. The interpreter shifts
   * a JavaScript number, which keeps growing, but only its bit 7 is ever
   * examined, so keeping it modulo 256 examines the same bits.
   */
  function Shifted(b: Byte, c: nat): Byte
  {
    if c == 0 then b else (2 * Shifted(b, c - 1)) % 0x100
  }

  /** Column `c` of sprite row `b` is set: `sprite & 0x80` after `c` shifts. */
  predicate IsSet(b: Byte, c: nat)
  {
    Shifted(b, c) >= 0x80
  }

  /** The cells `px + c + 64 * py` of the set bits among the first `c` columns of row byte `b`. */
  function RowCells(b: Byte, px: nat, py: nat, c: nat): (ks: seq<int>)
    requires c <= 8
    ensures forall j :: 0 <= j < |ks| ==> px <= ks[j] - ScreenWidth * py < px + c
  {
    if c == 0 then []
    else RowCells(b, px, py, c - 1) + (if IsSet(b, c - 1) then [px + (c - 1) + ScreenWidth * py] else [])
  }

  /** One more column of a row adds its cell exactly when that column's bit is set. */
  lemma RowCellsStep(b: Byte, px: nat, py: nat, c: nat, done: seq<int>)
    requires c < 8
    ensures done + RowCells(b, px, py, c + 1)
         == done + RowCells(b, px, py, c) + (if IsSet(b, c) then [px + c + ScreenWidth * py] else [])
  {
  }

  /** The cells a sprite of `rows` rows read from RAM at `base` covers at (vx, vy), in drawing order. */
  function SpriteCells(ram: seq<Byte>, base: nat, vx: Byte, vy: Byte, rows: nat): (ks: seq<int>)
    requires rows <= 15
    ensures InRange(ks, VramCells)
    decreases rows
  {
    if rows == 0 then []
    else
      var row := RowCells(ByteAt(ram, base + rows - 1), vx, vy + rows - 1, 8);
      SpriteCells(ram, base, vx, vy, rows - 1) + row
  }

  /** One more row of a sprite adds that row's cells after the earlier rows'. */
  lemma SpriteCellsStep(ram: seq<Byte>, base: nat, vx: Byte, vy: Byte, rows: nat)
    requires rows < 15
    ensures SpriteCells(ram, base, vx, vy, rows + 1)
         == SpriteCells(ram, base, vx, vy, rows) + RowCells(ByteAt(ram, base + rows), vx, vy + rows, 8)
  {
  }

  function ClearScreen(s: State): (r: State)
    requires WellFormed(s)
    ensures WellFormed(r)
  {
    s.(vram := seq(|s.vram|, _ => false))
  }

  /** The code as written for 00E0: it returns the method `clearScreen` without calling it. */
  function ClearAsWritten(s: State): State
  {
    s
  }

  /** DXYN: flip the cells of the sprite; VF is 1 when a flip hit a lit cell, else 0. */
  function Draw(s: State, f: Fields): (r: State)
    requires WellFormed(s)
    ensures WellFormed(r)
  {
    var ks := SpriteCells(s.ram, s.i, s.v[f.x], s.v[f.y], f.n);
    var (vram, hit) := Flips(s.vram, ks);
    s.(vram := vram, vf := Flag(hit))
  }

  // --------------------------------------------------------------- timers

  /**
   * The timer half of `xpuCycle`: when playing, DT and ST each drop by one
   * if positive, and the beep sounds when ST has just dropped to 1.
   */
  function Tick(s: State): (r: (State, bool))
    ensures r.0.dt <= s.dt && r.0.st <= s.st
    ensures r.1 ==> s.playing && s.st == 2
  {
    if !s.playing then (s, false)
    else
      var dt := if s.dt > 0 then s.dt - 1 else s.dt;
      var st := if s.st > 0 then s.st - 1 else s.st;
      (s.(dt := dt, st := st), s.st > 0 && st == 1)
  }

  /** `cycle`: one instruction, then one timer step. */
  function Cycle(s: State, rnd: Byte): (r: (State, bool))
    requires WellFormed(s)
  {
    Tick(Step(s, rnd))
  }

  // ---------------------------------------------------- start-up and load

  /** The glyphs of 0-9 and A-F, one hexadecimal digit per row, five rows each. */
  const FontSet: seq<nat> := [
    0xF999F, 0x26227, 0xF1F8F, 0xF1F1F,
    0x99F11, 0xF8F1F, 0xF8F9F, 0xF1244,
    0xF9F9F, 0xF9F1F, 0xF9F99, 0xE9E9E,
    0xF888F, 0xE999E, 0xF8F8F, 0xF8F88]

  const FontBytes: nat := 5 * 16

  /** `(word >> shift) & 0xF` on a non-negative word: drop the `shift` low bits one at a time, then keep four. */
  function NibbleAt(word: nat, shift: nat): Nibble
  {
    if shift == 0 then word % 0x10 else NibbleAt(word / 2, shift - 1)
  }

  /** Row `k` of the glyph for digit `d`: the digit `fontSet[d] >> (16 - 4k) & 0xF`, moved into the high nibble. */
  function GlyphByte(d: Nibble, k: nat): Byte
    requires k < 5
  {
    NibbleAt(FontSet[d], 16 - 4 * k) * 0x10
  }

  /** The font byte at address `c`: row `c % 5` of glyph `c / 5`. */
  function FontByte(c: nat): Byte
    requires c < FontBytes
  {
    GlyphByte(c / 5, c % 5)
  }

  lemma FontByteAt(d: Nibble, k: nat)
    requires k < 5
    ensures FontByte(5 * d + k) == GlyphByte(d, k)
  {
    var c := 5 * d + k;
    assert c / 5 == d && c % 5 == k;
  }

  /** The five rows of the glyph for hexadecimal digit `d`. */
  function Glyph(d: Nibble): seq<Byte>
  {
    seq(5, k requires 0 <= k < 5 => GlyphByte(d, k))
  }

  function FontRam(): (ram: seq<Byte>)
    ensures |ram| == RamSize
  {
    seq(RamSize, a requires 0 <= a < RamSize => if a < FontBytes then FontByte(a) else 0)
  }

  /** The state `initVM` builds, on a display of `vram` (`initVM` does not touch the display). */
  function InitVm(vram: seq<bool>): State
  {
    State(FontRam(), seq(16, _ => 0), 0, 0, Addr(ProgramStart), 0, seq(16, _ => 0), 0, 0, vram, {}, false)
  }

  /** The state the constructor builds: `initVM`, then `initGPU`'s blank display. */
  function Boot(): (s: State)
    ensures WellFormed(s)
  {
    InitVm(seq(VramCells, _ => false))
  }

  /**
   * `loadROM`'s onload: reinitialise, zero RAM from 0x200, copy the program
   * to 0x200 (bytes past the end of RAM are dropped), clear the display,
   * PC = 0x200, playing.
   */
  function LoadRom(s: State, prog: seq<Byte>): (r: State)
    requires WellFormed(s)
    ensures WellFormed(r)
  {
    var init := InitVm(s.vram);
    var ram := seq(RamSize, a requires 0 <= a < RamSize =>
      if a < ProgramStart then init.ram[a]
      else if a - ProgramStart < |prog| then prog[a - ProgramStart]
      else 0);
    init.(ram := ram, vram := seq(VramCells, _ => false), pc := Addr(ProgramStart), playing := true)
  }

  // ----------------------------------------------------------------- keys

  /** A key event for a mapped key: it is held until its key-up. */
  function KeyDown(s: State, k: KeyId): (r: State)
    ensures forall j :: j in r.keys <==> (j == k || j in s.keys)
    ensures r == s.(keys := r.keys)
  {
    s.(keys := s.keys + {k})
  }

  /** A key-up: the key is no longer held, and every other key stays as it was. */
  function KeyUp(s: State, k: KeyId): (r: State)
    ensures forall j :: j in r.keys <==> (j != k && j in s.keys)
    ensures r == s.(keys := r.keys)
  {
    s.(keys := s.keys - {k})
  }
}
