/**
 * Instruction decoding: splitting a 16-bit CHIP-8 instruction word into its
 * fields (chip8.js lines 320-325) and choosing the handler that runs it
 * (the dispatch chain at chip8.js lines 327-331, written as a match over the
 * opcode class and its sub-field).
 */
module Decoder {
  import opened Words

  /** The fields of an instruction word: class nibble, X, Y, N, NN and NNN. */
  datatype Fields = Fields(hi: Nibble, x: Nibble, y: Nibble, n: Nibble, nn: Byte, nnn: Addr12)

  /**
   * Masks the word as the interpreter does (`& 0xF`, `& 0xFF`, `& 0xFFF`,
   * `(w & 0x0F00) >> 8`, `(w & 0x00F0) >> 4`); the class nibble is `w >> 12`.
   * The fields nest: NNN is X followed by NN, NN is Y followed by N, and the
   * class nibble followed by NNN gives back the word.
   */
  function Decode(w: Word16): (f: Fields)
    ensures w == f.hi * 0x1000 + f.nnn
    ensures f.nnn == f.x * 0x100 + f.nn
    ensures f.nn == f.y * 0x10 + f.n
  {
    DivModNest(w, 0x100, 0x10);
    DivModNest(w, 0x10, 0x10);
    Fields(w / 0x1000, (w / 0x100) % 0x10, (w / 0x10) % 0x10, w % 0x10, w % 0x100, w % 0x1000)
  }

  /** Control transfers and conditional skips on registers. */
  datatype FlowOp =
    | Return      // 00EE
    | Jump        // 1NNN
    | Call        // 2NNN
    | SkipEqImm   // 3XNN
    | SkipNeImm   // 4XNN
    | SkipEqReg   // 5XY0
    | SkipNeReg   // 9XY0
    | JumpOffset  // BNNN

  /** Register arithmetic. */
  datatype AluOp =
    | LoadImm     // 6XNN
    | AddImm      // 7XNN
    | Move        // 8XY0
    | Or          // 8XY1
    | And         // 8XY2
    | Xor         // 8XY3
    | AddCarry    // 8XY4
    | SubBorrow   // 8XY5
    | ShiftRight  // 8XY6
    | SubReverse  // 8XY7
    | ShiftLeft   // 8XYE
    | Random      // CXNN

  /** The address register and memory. */
  datatype MemOp =
    | LoadIndex   // ANNN
    | AddIndex    // FX1E
    | FontGlyph   // FX29
    | StoreBcd    // FX33
    | StoreRegs   // FX55
    | LoadRegs    // FX65

  /** Timers and keys. */
  datatype IoOp =
    | ReadDelay   // FX07
    | SetDelay    // FX15
    | SetSound    // FX18
    | SkipKey     // EX9E
    | SkipNotKey  // EXA1
    | WaitKey     // FX0A

  /** The handler an instruction word selects. */
  datatype Op =
    | ClearDisplay   // 00E0
    | DrawSprite     // DXYN
    | Flow(flow: FlowOp)
    | Alu(alu: AluOp)
    | Mem(mem: MemOp)
    | Io(io: IoOp)
    | NoOp           // a word with no handler of its own: the model runs nothing for it

  /** The handlers that assign the flag field VF, whose value then survives into V[0xF]. */
  predicate DefinesFlag(op: Op)
  {
    || op == DrawSprite
    || (op.Alu? && op.alu in {AddCarry, SubBorrow, ShiftRight, SubReverse, ShiftLeft})
  }

  /**
   * Dispatch. Classes 1-7 and 9-D are chosen by the class nibble alone (so 5XYN
   * and 9XYN run whatever N is); class 0 by the whole word, class 8 by N,
   * classes E and F by NN. An unrecognised sub-field selects no handler.
   * This follows the handlers' comments, not the JavaScript table: there the
   * `Object.assign` in the 0x8000 entry rewrites keys 0 and 7, so 8XY0, 8XY7
   * and FX07 run whichever entry the table holds at the time.
   */
  function Classify(f: Fields): Op
  {
    match f.hi
    case 0x0 =>
      if f.nnn == 0x0E0 then ClearDisplay
      else if f.nnn == 0x0EE then Flow(Return)
      else NoOp
    case 0x1 => Flow(Jump)
    case 0x2 => Flow(Call)
    case 0x3 => Flow(SkipEqImm)
    case 0x4 => Flow(SkipNeImm)
    case 0x5 => Flow(SkipEqReg)
    case 0x6 => Alu(LoadImm)
    case 0x7 => Alu(AddImm)
    case 0x8 =>
      (match f.n
       case 0x0 => Alu(Move)
       case 0x1 => Alu(Or)
       case 0x2 => Alu(And)
       case 0x3 => Alu(Xor)
       case 0x4 => Alu(AddCarry)
       case 0x5 => Alu(SubBorrow)
       case 0x6 => Alu(ShiftRight)
       case 0x7 => Alu(SubReverse)
       case 0xE => Alu(ShiftLeft)
       case _ => NoOp)
    case 0x9 => Flow(SkipNeReg)
    case 0xA => Mem(LoadIndex)
    case 0xB => Flow(JumpOffset)
    case 0xC => Alu(Random)
    case 0xD => DrawSprite
    case 0xE =>
      if f.nn == 0x9E then Io(SkipKey)
      else if f.nn == 0xA1 then Io(SkipNotKey)
      else NoOp
    case _ =>
      (match f.nn
       case 0x07 => Io(ReadDelay)
       case 0x0A => Io(WaitKey)
       case 0x15 => Io(SetDelay)
       case 0x18 => Io(SetSound)
       case 0x1E => Mem(AddIndex)
       case 0x29 => Mem(FontGlyph)
       case 0x33 => Mem(StoreBcd)
       case 0x55 => Mem(StoreRegs)
       case 0x65 => Mem(LoadRegs)
       case _ => NoOp)
  }

  /**
   * The instruction table in the usual CHIP-8 opcode notation, as a mask over the
   * word and the value the masked word must have: `00E0`, `1nnn`, `8xy4`,
   * `Ex9E`, `Fx65` and so on. 5XY0 and 9XY0 are matched on the class nibble
   * alone, as the interpreter does. NoOp has no entry.
   */
  function Pattern(op: Op): (p: (Word16, Word16))
  {
    match op
    case ClearDisplay => (0xFFFF, 0x00E0)
    case DrawSprite => (0xF000, 0xD000)
    case Flow(o) =>
      (match o
       case Return => (0xFFFF, 0x00EE)
       case Jump => (0xF000, 0x1000)
       case Call => (0xF000, 0x2000)
       case SkipEqImm => (0xF000, 0x3000)
       case SkipNeImm => (0xF000, 0x4000)
       case SkipEqReg => (0xF000, 0x5000)
       case SkipNeReg => (0xF000, 0x9000)
       case JumpOffset => (0xF000, 0xB000))
    case Alu(o) =>
      (match o
       case LoadImm => (0xF000, 0x6000)
       case AddImm => (0xF000, 0x7000)
       case Move => (0xF00F, 0x8000)
       case Or => (0xF00F, 0x8001)
       case And => (0xF00F, 0x8002)
       case Xor => (0xF00F, 0x8003)
       case AddCarry => (0xF00F, 0x8004)
       case SubBorrow => (0xF00F, 0x8005)
       case ShiftRight => (0xF00F, 0x8006)
       case SubReverse => (0xF00F, 0x8007)
       case ShiftLeft => (0xF00F, 0x800E)
       case Random => (0xF000, 0xC000))
    case Mem(o) =>
      (match o
       case LoadIndex => (0xF000, 0xA000)
       case AddIndex => (0xF0FF, 0xF01E)
       case FontGlyph => (0xF0FF, 0xF029)
       case StoreBcd => (0xF0FF, 0xF033)
       case StoreRegs => (0xF0FF, 0xF055)
       case LoadRegs => (0xF0FF, 0xF065))
    case Io(o) =>
      (match o
       case ReadDelay => (0xF0FF, 0xF007)
       case SetDelay => (0xF0FF, 0xF015)
       case SetSound => (0xF0FF, 0xF018)
       case SkipKey => (0xF0FF, 0xE09E)
       case SkipNotKey => (0xF0FF, 0xE0A1)
       case WaitKey => (0xF0FF, 0xF00A))
    case NoOp => (0, 0)
  }

  /**
   * `w & mask == value` for the four masks the table uses, written with
   * division and remainder: each mask keeps whole nibbles.
   */
  predicate Matches(w: Word16, p: (Word16, Word16))
  {
    var (mask, value) := p;
    if mask == 0xFFFF then w == value
    else if mask == 0xF000 then w / 0x1000 == value / 0x1000
    else if mask == 0xF00F then w / 0x1000 == value / 0x1000 && w % 0x10 == value % 0x10
    else if mask == 0xF0FF then w / 0x1000 == value / 0x1000 && w % 0x100 == value % 0x100
    else false
  }
}
