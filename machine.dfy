/**
 * The `Chip8` class of chip8.js: its typed arrays, its registers and the
 * methods that update them in place. Every method is proved to leave the
 * object in the state the matching function of module Semantics gives for
 * the state it started from.
 */
module Machine {
  import opened Words
  import opened Decoder
  import opened Semantics

  class Chip8 {
    /** `RAM`, a Uint8Array of 0x1000 bytes. */
    const ram: array<Byte>
    /** `V`, a Uint8Array of 16 registers. */
    const v: array<Byte>
    /** `stack`, a Uint16Array of 16 return addresses. */
    const stack: array<Word16>
    /** `VRAM`: 64 x 32 display cells, followed by the off-screen cells a sprite can spill into. */
    const vram: array<bool>
    var vf: Byte
    var i: nat
    var pc: Pc
    var sp: int
    var dt: Byte
    var st: Byte
    var keyStates: set<KeyId>
    var playing: bool

    ghost predicate Valid()
    {
      && ram.Length == RamSize
      && v.Length == 16
      && stack.Length == 16
      && vram.Length == VramCells
      && ram != v
    }

    /** The state the object holds, as a value. */
    ghost function Snapshot(): (s: State)
      reads this, ram, v, stack, vram
      requires Valid()
      ensures WellFormed(s)
    {
      State(ram[..], v[..], vf, i, pc, sp, stack[..], dt, st, vram[..], keyStates, playing)
    }

    /** `initVM` followed by `initGPU`; the self-rescheduling timer loop is not part of this model. */
    constructor ()
      ensures Valid()
      ensures Snapshot() == Boot()
    {
      ram := new Byte[RamSize](_ => 0);
      v := new Byte[16](_ => 0);
      stack := new Word16[16](_ => 0);
      vram := new bool[VramCells](_ => false);
      new;
      InitVm();
    }

    /**
     * `initVM`: fresh zeroed RAM, registers and stack (the arrays are reset in
     * place), PC = 0x200, the font installed, no key held, not playing.
     */
    method InitVm()
      requires Valid()
      modifies this, ram, v, stack
      ensures Snapshot() == Semantics.InitVm(old(vram[..]))
    {
      playing := false;
      forall a | 0 <= a < ram.Length {
        ram[a] := 0;
      }
      forall r | 0 <= r < v.Length {
        v[r] := 0;
      }
      vf := 0;
      i := 0;
      forall r | 0 <= r < stack.Length {
        stack[r] := 0;
      }
      dt, st := 0, 0;
      pc := Addr(ProgramStart);
      sp := 0;
      InstallFont();
      keyStates := {};
      assert ram[..] == FontRam();
    }

    /** The font loop: the glyphs of 0-F one after another from address 0. */
    method InstallFont()
      requires Valid()
      modifies ram
      ensures forall a :: 0 <= a < FontBytes ==> ram[a] == FontByte(a)
      ensures forall a :: FontBytes <= a < ram.Length ==> ram[a] == old(ram[a])
    {
      var d, c := 0, 0;
      while d < |FontSet|
        invariant 0 <= d <= |FontSet| && c == 5 * d
        invariant forall a :: 0 <= a < c ==> ram[a] == FontByte(a)
        invariant forall a :: c <= a < ram.Length ==> ram[a] == old(ram[a])
      {
        InstallGlyph(d, c);
        forall a | c <= a < c + 5
          ensures ram[a] == FontByte(a)
        {
          FontByteAt(d, a - c);
        }
        d, c := d + 1, c + 5;
      }
    }

    /** Glyph `d`'s five rows from address `c`: `(fontSet[d] >> j & 0xF)` for j = 16, 12, ..., 0, each moved to the high nibble. */
    method InstallGlyph(d: Nibble, c: nat)
      requires Valid() && c + 5 <= ram.Length
      modifies ram
      ensures forall a :: c <= a < c + 5 ==> ram[a] == GlyphByte(d, a - c)
      ensures forall a :: 0 <= a < ram.Length && !(c <= a < c + 5) ==> ram[a] == old(ram[a])
    {
      var j, a := 16, c;
      while j >= 0
        invariant 0 <= a - c <= 5 && j == 16 - 4 * (a - c)
        invariant forall b :: c <= b < a ==> ram[b] == GlyphByte(d, b - c)
        invariant forall b :: 0 <= b < ram.Length && !(c <= b < a) ==> ram[b] == old(ram[b])
      {
        ram[a] := NibbleAt(FontSet[d], j) * 0x10;
        j, a := j - 4, a + 1;
      }
    }

    method ClearScreen()
      requires Valid()
      modifies vram
      ensures Snapshot() == Semantics.ClearScreen(old(Snapshot()))
    {
      var k := 0;
      while k < vram.Length
        invariant 0 <= k <= vram.Length
        invariant forall j :: 0 <= j < k ==> !vram[j]
      {
        vram[k] := false;
        k := k + 1;
      }
      assert vram[..] == seq(VramCells, _ => false);
    }

    /** Toggle the cell at column x of row y (no wrap: x past 63 runs into the next row); true if it was lit. */
    method FlipPixel(x: nat, y: nat) returns (collided: bool)
      requires Valid()
      requires x + ScreenWidth * y < vram.Length
      modifies vram
      ensures (vram[..], collided) == Flip(old(vram[..]), x + ScreenWidth * y)
    {
      var k := x + ScreenWidth * y;
      vram[k] := !vram[k];
      collided := !(vram[k] == true);
    }

    /** `loadROM`'s onload body; `prog` is the response the request delivered. */
    method LoadRom(prog: seq<Byte>)
      requires Valid()
      modifies this, ram, v, stack, vram
      ensures Snapshot() == Semantics.LoadRom(old(Snapshot()), prog)
    {
      playing := false;
      InitVm();
      ghost var init := Semantics.InitVm(old(vram[..]));
      ZeroProgramArea();
      CopyProgram(prog);
      ClearScreen();
      pc := Addr(ProgramStart);
      playing := true;
      assert forall b :: 0 <= b < ProgramStart ==> ram[b] == init.ram[b];
      assert ram[..] == Semantics.LoadRom(old(Snapshot()), prog).ram;
    }

    /** Zero RAM from 0x200 to its end; the font area below stays. */
    method ZeroProgramArea()
      requires Valid()
      modifies ram
      ensures forall b :: 0 <= b < ProgramStart ==> ram[b] == old(ram[b])
      ensures forall b :: ProgramStart <= b < ram.Length ==> ram[b] == 0
    {
      var a := ProgramStart;
      while a < ram.Length
        invariant ProgramStart <= a <= ram.Length
        invariant forall b :: 0 <= b < ProgramStart ==> ram[b] == old(ram[b])
        invariant forall b :: ProgramStart <= b < a ==> ram[b] == 0
      {
        ram[a] := 0;
        a := a + 1;
      }
    }

    /** Copy the program to 0x200 onward, byte by byte; bytes that would land past the end of RAM are dropped. */
    method CopyProgram(prog: seq<Byte>)
      requires Valid()
      modifies ram
      ensures forall b :: 0 <= b < ProgramStart ==> ram[b] == old(ram[b])
      ensures forall b :: ProgramStart <= b < ram.Length ==>
        ram[b] == if b - ProgramStart < |prog| then prog[b - ProgramStart] else old(ram[b])
    {
      var k := 0;
      while k < |prog|
        invariant 0 <= k <= |prog|
        invariant forall b :: 0 <= b < ProgramStart ==> ram[b] == old(ram[b])
        invariant forall b :: ProgramStart <= b < ram.Length ==>
          ram[b] == if b - ProgramStart < k then prog[b - ProgramStart] else old(ram[b])
      {
        if k + ProgramStart < ram.Length {  // a typed array drops writes past its end
          ram[k + ProgramStart] := prog[k];
        }
        k := k + 1;
      }
    }

    method KeyDown(k: KeyId)
      requires Valid()
      modifies this`keyStates
      ensures Snapshot() == Semantics.KeyDown(old(Snapshot()), k)
    {
      keyStates := keyStates + {k};
    }

    method KeyUp(k: KeyId)
      requires Valid()
      modifies this`keyStates
      ensures Snapshot() == Semantics.KeyUp(old(Snapshot()), k)
    {
      keyStates := keyStates - {k};
    }

    function ReadByte(a: int): Byte
      reads this, ram
    {
      if 0 <= a < ram.Length then ram[a] else 0
    }

    /** `exec`: fetch, advance PC, decode, keep V[0xF] in VF around the handler. */
    method Exec(rnd: Byte)
      requires Valid()
      modifies this, ram, v, stack, vram
      ensures Snapshot() == Step(old(Snapshot()), rnd)
    {
      if playing != true {
        return;
      }
      ghost var s0 := Snapshot();
      var w := match pc
        case Addr(a) => ReadByte(a) * 0x100 + ReadByte(a + 1)
        case Lost => 0;
      assert w == Fetch(s0);
      pc := Advance(pc, 2);
      var f := Decode(w);
      vf := v[0xF];
      ghost var begun := Snapshot();
      assert begun == s0.(pc := Advance(s0.pc, 2), vf := s0.v[0xF]);
      Dispatch(Classify(f), f, rnd);
      ghost var done := Snapshot();
      v[0xF] := vf;
      assert Snapshot() == done.(v := done.v[0xF := done.vf]);
    }

    method Dispatch(op: Op, f: Fields, rnd: Byte)
      requires Valid()
      modifies this, ram, v, stack, vram
      ensures Snapshot() == Execute(old(Snapshot()), op, f, rnd)
    {
      match op
      case ClearDisplay => ClearScreen();
      case DrawSprite => Draw(f);
      case Flow(o) => ExecControl(o, f);
      case Alu(o) => ExecArith(o, f, rnd);
      case Mem(o) => ExecMemory(o, f);
      case Io(o) => ExecInputTimers(o, f);
      case NoOp =>
    }

    method ExecControl(op: FlowOp, f: Fields)
      requires Valid()
      modifies this`pc, this`sp, stack
      ensures Snapshot() == Control(old(Snapshot()), op, f)
    {
      match op
      case Return =>
        sp := sp - 1;
        pc := if 0 <= sp < stack.Length then Addr(stack[sp]) else Lost;
      case Jump =>
        pc := Addr(f.nnn);
      case Call =>
        var slot := JsRem(sp, 12);
        sp := sp + 1;
        if 0 <= slot {
          stack[slot] := ToWord16(pc);
        }
        if Truthy(pc) {
          pc := Addr(f.nnn);
        }
      case SkipEqImm =>
        if v[f.x] == f.nn { pc := Advance(pc, 2); }
      case SkipNeImm =>
        if v[f.x] != f.nn { pc := Advance(pc, 2); }
      case SkipEqReg =>
        if v[f.x] == v[f.y] { pc := Advance(pc, 2); }
      case SkipNeReg =>
        if v[f.x] != v[f.y] { pc := Advance(pc, 2); }
      case JumpOffset =>
        pc := Addr(f.nnn + v[0]);
    }

    method ExecArith(op: AluOp, f: Fields, rnd: Byte)
      requires Valid()
      modifies v, this`vf
      ensures Snapshot() == Arith(old(Snapshot()), op, f, rnd)
    {
      if op.AddCarry? || op.SubBorrow? || op.ShiftRight? || op.SubReverse? || op.ShiftLeft? {
        ExecFlagged(op, f, rnd);
      } else {
        var vx: int, vy: int := v[f.x], v[f.y];
        match op
        case LoadImm => v[f.x] := f.nn;
        case AddImm => v[f.x] := (vx + f.nn) % 0x100;
        case Move => v[f.x] := vy;
        case Or => v[f.x] := BitOr(vx, vy);
        case And => v[f.x] := BitAnd(vx, vy);
        case Xor => v[f.x] := BitXor(vx, vy);
        case Random => v[f.x] := BitAnd(rnd, f.nn);
      }
    }

    /** The 8XY_ operations that also write VF: 8XY4, 8XY5, 8XY6, 8XY7 and 8XYE. */
    method ExecFlagged(op: AluOp, f: Fields, rnd: Byte)
      requires Valid()
      requires op.AddCarry? || op.SubBorrow? || op.ShiftRight? || op.SubReverse? || op.ShiftLeft?
      modifies v, this`vf
      ensures Snapshot() == Arith(old(Snapshot()), op, f, rnd)
    {
      var vx: int, vy: int := v[f.x], v[f.y];
      match op
      case AddCarry =>
        v[f.x] := (vx + vy) % 0x100;
        vf := Flag(vx + vy > 0xFF);
      case SubBorrow =>
        vf := Flag(vx > vy);
        v[f.x] := (vx - vy) % 0x100;
      case ShiftRight =>
        vf := vx % 2;
        v[f.x] := vx / 2;
      case SubReverse =>
        vf := Flag(vy > vx);
        v[f.x] := (vy - vx) % 0x100;
      case ShiftLeft =>
        vf := if vx >= 0x80 then 0x80 else 0;
        v[f.x] := (2 * vx) % 0x100;
    }

    method ExecMemory(op: MemOp, f: Fields)
      requires Valid()
      modifies this`i, ram, v
      ensures Snapshot() == Memory(old(Snapshot()), op, f)
    {
      var vx: int := v[f.x];
      match op
      case LoadIndex => i := f.nnn;
      case AddIndex => i := i + vx;
      case FontGlyph => i := vx * 5;
      case StoreBcd =>
        ram[i % 0x1000] := (vx / 100) % 10;
        ram[(i + 1) % 0x1000] := (vx / 10) % 10;
        ram[(i + 2) % 0x1000] := vx % 10;
      case StoreRegs => StoreRegs(f.x);
      case LoadRegs => LoadRegs(f.x);
    }

    /** FX55: V0..VX to RAM[I..I+X], one register at a time; the typed array drops writes past its end. */
    method StoreRegs(x: Nibble)
      requires Valid()
      modifies ram
      ensures ram[..] == StoreRegisters(old(ram[..]), v[..], i, x)
    {
      var k := 0;
      while k <= x
        invariant 0 <= k <= x + 1
        invariant forall a :: 0 <= a < ram.Length ==>
          ram[a] == if i <= a < i + k then v[a - i] else old(ram[a])
      {
        if i + k < ram.Length {
          ram[i + k] := v[k];
        }
        k := k + 1;
      }
      assert ram[..] == StoreRegisters(old(ram[..]), v[..], i, x);
    }

    /** FX65: V0..VX from RAM[I..I+X], one register at a time. */
    method LoadRegs(x: Nibble)
      requires Valid()
      modifies v
      ensures v[..] == LoadRegisters(ram[..], old(v[..]), i, x)
    {
      var k := 0;
      while k <= x
        invariant 0 <= k <= x + 1
        invariant forall r :: 0 <= r < v.Length ==>
          v[r] == if r < k then ReadByte(i + r) else old(v[r])
      {
        v[k] := ReadByte(i + k);
        k := k + 1;
      }
      assert v[..] == LoadRegisters(ram[..], old(v[..]), i, x);
    }

    method ExecInputTimers(op: IoOp, f: Fields)
      requires Valid()
      modifies this`dt, this`st, this`pc, v
      ensures Snapshot() == InputTimers(old(Snapshot()), op, f)
    {
      var vx := v[f.x];
      match op
      case ReadDelay => v[f.x] := dt;
      case SetDelay => dt := vx;
      case SetSound => st := vx;
      case SkipKey =>
        if vx in keyStates { pc := Advance(pc, 2); }
      case SkipNotKey =>
        if vx !in keyStates { pc := Advance(pc, 2); }
      case WaitKey =>
        if keyStates == {} {
          pc := Advance(pc, -2);
        } else {
          v[f.x] := LowestKey(keyStates);
        }
    }

    /** The display and VF are what flipping the cells `ks` of `before` in order gives. */
    ghost predicate Shows(before: seq<bool>, ks: seq<int>)
      reads this, vram
      requires InRange(ks, |before|)
    {
      && vram[..] == Flips(before, ks).0
      && (vf == 1 <==> Flips(before, ks).1)
      && (vf == 0 || vf == 1)
    }

    /** DXYN: row by row from RAM[I], bit by bit from the most significant; VF = 1 once any flip collides. */
    method Draw(f: Fields)
      requires Valid()
      modifies this`vf, vram
      ensures Snapshot() == Semantics.Draw(old(Snapshot()), f)
    {
      ghost var s := Snapshot();
      var vx, vy := v[f.x], v[f.y];
      vf := 0;
      DrawSprite(vx, vy, f.n, s.vram, s.ram);
      ghost var cells := SpriteCells(s.ram, s.i, s.v[f.x], s.v[f.y], f.n);
      assert Snapshot() == s.(vram := Flips(s.vram, cells).0, vf := Flag(Flips(s.vram, cells).1));
    }

    /** The outer loop of DXYN: sprite rows 0 to n - 1, starting from a clear VF. */
    method DrawSprite(vx: Byte, vy: Byte, n: Nibble, ghost before: seq<bool>, ghost mem: seq<Byte>)
      requires Valid() && ram[..] == mem && vram[..] == before && vf == 0
      modifies this`vf, vram
      ensures Shows(before, SpriteCells(mem, i, vx, vy, n))
    {
      var y := 0;
      while y < n
        invariant 0 <= y <= n
        invariant ram[..] == mem
        invariant Shows(before, SpriteCells(mem, i, vx, vy, y))
      {
        DrawSpriteRow(vx, vy, y, before, mem);
        y := y + 1;
      }
    }

    /** One pass of DXYN's outer loop: sprite row `y`, read from RAM[I + y], drawn at row Vy + y. */
    method DrawSpriteRow(vx: Byte, vy: Byte, y: nat, ghost before: seq<bool>, ghost mem: seq<Byte>)
      requires Valid() && y < 15 && ram[..] == mem && |before| == VramCells
      requires Shows(before, SpriteCells(mem, i, vx, vy, y))
      modifies this`vf, vram
      ensures Shows(before, SpriteCells(mem, i, vx, vy, y + 1))
    {
      var row := ReadByte(i + y);
      assert row == ByteAt(mem, i + y);
      SpriteCellsStep(mem, i, vx, vy, y);
      DrawRow(row, vx, vy + y, before, SpriteCells(mem, i, vx, vy, y));
    }

    /**
     * Column `c` of a sprite row whose shifted bits are `sprite`: when bit 7
     * is set, flip the cell at (px + c, py) and raise VF if it was lit.
     */
    method DrawColumn(sprite: int, row: Byte, px: Byte, py: nat, c: nat, ghost before: seq<bool>, ghost done: seq<int>)
      requires Valid()
      requires py <= 255 + 14 && c < 8 && sprite == Shifted(row, c)
      requires InRange(done + RowCells(row, px, py, c), VramCells) && |before| == VramCells
      requires Shows(before, done + RowCells(row, px, py, c))
      modifies this`vf, vram
      ensures InRange(done + RowCells(row, px, py, c + 1), VramCells)
      ensures Shows(before, done + RowCells(row, px, py, c + 1))
    {
      ghost var prefix := done + RowCells(row, px, py, c);
      RowCellsStep(row, px, py, c, done);
      if sprite >= 0x80 {  // sprite & 0x80
        var k := px + c + ScreenWidth * py;
        FlipsSnoc(before, prefix, k);
        var hit := FlipPixel(px + c, py);
        if hit { vf := 1; }
      } else {
        assert prefix + [] == prefix;
      }
    }

    /** The inner loop of DXYN: the eight bits of one sprite row at column px of row py. */
    method DrawRow(row: Byte, px: Byte, py: nat, ghost before: seq<bool>, ghost done: seq<int>)
      requires Valid()
      requires py <= 255 + 14
      requires InRange(done, VramCells) && |before| == VramCells
      requires Shows(before, done)
      modifies this`vf, vram
      ensures InRange(done + RowCells(row, px, py, 8), VramCells)
      ensures Shows(before, done + RowCells(row, px, py, 8))
    {
      var sprite: int := row;
      var x := 0;
      assert done + RowCells(row, px, py, 0) == done;
      while x < 8
        invariant 0 <= x <= 8
        invariant 0 <= sprite < 0x100 && sprite == Shifted(row, x)
        invariant InRange(done + RowCells(row, px, py, x), VramCells)
        invariant Shows(before, done + RowCells(row, px, py, x))
      {
        DrawColumn(sprite, row, px, py, x, before, done);
        sprite := (2 * sprite) % 0x100;  // sprite <<= 1, modulo 256
        x := x + 1;
      }
    }

    /** The timer half of `xpuCycle`; the result is the beep event. */
    method XpuCycle() returns (beep: bool)
      requires Valid()
      modifies this`dt, this`st
      ensures (Snapshot(), beep) == Tick(old(Snapshot()))
    {
      if playing != true {
        return false;
      }
      if dt > 0 {
        dt := dt - 1;
      }
      beep := false;
      if st > 0 {
        st := st - 1;
        beep := st == 1;
      }
    }

    /** `cycle`: one instruction, then the timers. */
    method Cycle(rnd: Byte) returns (beep: bool)
      requires Valid()
      modifies this, ram, v, stack, vram
      ensures (Snapshot(), beep) == Semantics.Cycle(old(Snapshot()), rnd)
    {
      Exec(rnd);
      beep := XpuCycle();
    }
  }
}
