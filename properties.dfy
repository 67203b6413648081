/**
 * What the interpreter promises, stated about the functions of module
 * Semantics: decoding, the flag register, register arithmetic, skips, the
 * call stack, memory transfers, the display, the timers and program load.
 * The class in module Machine follows these functions step for step, so
 * every lemma here holds of it as well.
 */
module Properties {
  import opened Words
  import opened Decoder
  import opened Semantics

  // ------------------------------------------------------------- decoding

  /** The fields come straight from the two bytes at PC: class and X from the first, Y and N from the second. */
  lemma FetchSplitsBytes(s: State)
    requires WellFormed(s) && s.pc.Addr? && 0 <= s.pc.a && s.pc.a + 1 < RamSize
    ensures Instruction(s).hi == s.ram[s.pc.a] / 0x10
    ensures Instruction(s).x == s.ram[s.pc.a] % 0x10
    ensures Instruction(s).y == s.ram[s.pc.a + 1] / 0x10
    ensures Instruction(s).n == s.ram[s.pc.a + 1] % 0x10
    ensures Instruction(s).nn == s.ram[s.pc.a + 1]
  {
    var hiByte: int, loByte: int := s.ram[s.pc.a], s.ram[s.pc.a + 1];
    var f := Instruction(s);
    assert Fetch(s) == hiByte * 0x100 + loByte;
    assert f.hi * 0x1000 + f.x * 0x100 + f.y * 0x10 + f.n == hiByte * 0x100 + loByte;
    DigitsUnique(f.hi * 0x10 + f.x, f.y * 0x10 + f.n, hiByte, loByte, 0x100);
    DigitsUnique(f.hi, f.x, hiByte / 0x10, hiByte % 0x10, 0x10);
    DigitsUnique(f.y, f.n, loByte / 0x10, loByte % 0x10, 0x10);
  }

  /** Fields whose wider fields nest the narrower ones, as Decode's always do. */
  predicate Nested(f: Fields)
  {
    f.nnn == f.x * 0x100 + f.nn && f.nn == f.y * 0x10 + f.n
  }

  /** Decoding inverts assembling a word from its class and NNN. */
  lemma DecodeAssembled(f: Fields)
    requires Nested(f)
    ensures Decode(f.hi * 0x1000 + f.nnn) == f
  {
    var w := f.hi * 0x1000 + f.nnn;
    var g := Decode(w);
    DigitsUnique(g.hi, g.nnn, f.hi, f.nnn, 0x1000);
    DigitsUnique(g.x, g.nn, f.x, f.nn, 0x100);
    DigitsUnique(g.y, g.n, f.y, f.n, 0x10);
  }

  /** The table's mask test, read on the fields of the word. */
  lemma MatchesOnFields(w: Word16, p: (Word16, Word16))
    ensures var f := Decode(w);
      Matches(w, p) <==>
        if p.0 == 0xFFFF then f.hi == p.1 / 0x1000 && f.nnn == p.1 % 0x1000
        else if p.0 == 0xF000 then f.hi == p.1 / 0x1000
        else if p.0 == 0xF00F then f.hi == p.1 / 0x1000 && f.n == p.1 % 0x10
        else if p.0 == 0xF0FF then f.hi == p.1 / 0x1000 && f.nn == p.1 % 0x100
        else false
  {
    var f := Decode(w);
    DigitsUnique(f.hi, f.nnn, w / 0x1000, w % 0x1000, 0x1000);
    DigitsUnique(f.hi * 0x100 + f.x * 0x10 + f.y, f.n, w / 0x10, w % 0x10, 0x10);
    DigitsUnique(f.hi * 0x10 + f.x, f.nn, w / 0x100, w % 0x100, 0x100);
  }

  /**
   * Dispatch agrees with the instruction table: a word selects a handler
   * exactly when it matches that handler's mask and value.
   */
  lemma ClassifyMatchesTable(w: Word16, op: Op)
    requires op != NoOp
    ensures Classify(Decode(w)) == op <==> Matches(w, Pattern(op))
  {
    match op
    case ClearDisplay => MatchesOnFields(w, Pattern(op));
    case DrawSprite => MatchesOnFields(w, Pattern(op));
    case Flow(o) => FlowMatchesTable(w, o);
    case Alu(o) => AluMatchesTable(w, o);
    case Mem(o) => MemMatchesTable(w, o);
    case Io(o) => IoMatchesTable(w, o);
  }

  lemma FlowMatchesTable(w: Word16, o: FlowOp)
    ensures Classify(Decode(w)) == Flow(o) <==> Matches(w, Pattern(Flow(o)))
  {
    MatchesOnFields(w, Pattern(Flow(o)));
  }

  lemma AluMatchesTable(w: Word16, o: AluOp)
    ensures Classify(Decode(w)) == Alu(o) <==> Matches(w, Pattern(Alu(o)))
  {
    MatchesOnFields(w, Pattern(Alu(o)));
  }

  lemma MemMatchesTable(w: Word16, o: MemOp)
    ensures Classify(Decode(w)) == Mem(o) <==> Matches(w, Pattern(Mem(o)))
  {
    MatchesOnFields(w, Pattern(Mem(o)));
  }

  lemma IoMatchesTable(w: Word16, o: IoOp)
    ensures Classify(Decode(w)) == Io(o) <==> Matches(w, Pattern(Io(o)))
  {
    MatchesOnFields(w, Pattern(Io(o)));
  }

  // ----------------------------------------------------- fetch and flags

  /** Handlers that neither jump, skip nor wait: after them PC is simply past the instruction. */
  predicate Sequential(op: Op)
  {
    !op.Flow? && op != Io(SkipKey) && op != Io(SkipNotKey) && op != Io(WaitKey)
  }

  /** A word with no handler of its own only moves PC past itself: nothing else changes. */
  lemma NoOpEffect(s: State, rnd: Byte)
    requires WellFormed(s) && s.playing && Classify(Instruction(s)) == NoOp
    ensures Step(s, rnd) == s.(pc := Advance(s.pc, 2), vf := s.v[0xF])
  {
    assert s.v[0xF := s.v[0xF]] == s.v;
  }

  /** PC moves past the two instruction bytes before the handler runs, and no sequential handler moves it again. */
  lemma StepAdvancesPc(s: State, rnd: Byte)
    requires WellFormed(s) && s.playing && s.pc.Addr?
    requires Sequential(Classify(Instruction(s)))
    ensures Step(s, rnd).pc == Addr(s.pc.a + 2)
  {
    var f := Instruction(s);
    var begun := s.(pc := Advance(s.pc, 2), vf := s.v[0xF]);
    var op := Classify(f);
    match op
    case ClearDisplay =>
    case DrawSprite =>
    case Alu(o) =>
    case Mem(o) =>
    case Io(o) =>
    case NoOp =>
  }

  /**
   * A handler that does not assign VF cannot change V[0xF]: a write of its
   * own to V[0xF] (6FNN, 7FNN, FF65, ...) is undone when VF is copied back.
   */
  lemma FlagRestored(s: State, rnd: Byte)
    requires WellFormed(s) && s.playing
    requires !DefinesFlag(Classify(Instruction(s)))
    ensures Step(s, rnd).v[0xF] == s.v[0xF]
    ensures Step(s, rnd).vf == s.v[0xF]
  {
    var f := Instruction(s);
    var begun := s.(pc := Advance(s.pc, 2), vf := s.v[0xF]);
    var op := Classify(f);
    assert Execute(begun, op, f, rnd).vf == begun.vf by {
      match op
      case ClearDisplay =>
      case Flow(o) =>
      case Alu(o) =>
      case Mem(o) =>
      case Io(o) =>
      case NoOp =>
    }
  }

  /** After every executed instruction the field VF and the register V[0xF] agree. */
  lemma FlagSynced(s: State, rnd: Byte)
    requires WellFormed(s) && s.playing
    ensures Step(s, rnd).vf == Step(s, rnd).v[0xF]
  {
  }

  // ------------------------------------------------------------ arithmetic

  /** The registers other than `x` and V[0xF] keep their values. */
  predicate OthersKept(s: State, r: State, x: Nibble)
    requires WellFormed(s) && WellFormed(r)
  {
    forall k :: 0 <= k < 0xF && k != x ==> r.v[k] == s.v[k]
  }

  /** 7XNN adds NN modulo 256 and leaves every other register, V[0xF] included, alone. */
  lemma AddImmediate(s: State, rnd: Byte)
    requires WellFormed(s) && s.playing && Classify(Instruction(s)) == Alu(AddImm)
    ensures var f, r := Instruction(s), Step(s, rnd);
      && (f.x != 0xF ==> r.v[f.x] == (s.v[f.x] + f.nn) % 0x100)
      && r.v[0xF] == s.v[0xF]
      && OthersKept(s, r, f.x)
      && r == s.(v := r.v, pc := Advance(s.pc, 2), vf := s.v[0xF])
  {
  }

  /**
   * 6XNN, 8XY0, 8XY1 and 8XY2 store NN, Vy, Vx | Vy and Vx & Vy into Vx; PC
   * moves past the instruction and nothing else changes, V[0xF] included
   * (a write to it is undone when VF is copied back).
   */
  lemma RegisterAssign(s: State, rnd: Byte)
    requires WellFormed(s) && s.playing
    requires Classify(Instruction(s)) in {Alu(LoadImm), Alu(Move), Alu(Or), Alu(And)}
    ensures var f, r := Instruction(s), Step(s, rnd);
      var vx, vy := s.v[f.x], s.v[f.y];
      && (f.x != 0xF && Classify(f) == Alu(LoadImm) ==> r.v[f.x] == f.nn)
      && (f.x != 0xF && Classify(f) == Alu(Move) ==> r.v[f.x] == vy)
      && (f.x != 0xF && Classify(f) == Alu(Or) ==> r.v[f.x] == BitOr(vx, vy))
      && (f.x != 0xF && Classify(f) == Alu(And) ==> r.v[f.x] == BitAnd(vx, vy))
      && r.v[0xF] == s.v[0xF]
      && OthersKept(s, r, f.x)
      && r == s.(v := r.v, pc := Advance(s.pc, 2), vf := s.v[0xF])
  {
  }

  /** 8XY3 stores Vx ^ Vy into Vx; PC moves past the instruction and nothing else changes, V[0xF] included. */
  lemma XorAssign(s: State, rnd: Byte)
    requires WellFormed(s) && s.playing && Classify(Instruction(s)) == Alu(Xor)
    ensures var f, r := Instruction(s), Step(s, rnd);
      && (f.x != 0xF ==> r.v[f.x] == BitXor(s.v[f.x], s.v[f.y]))
      && r.v[0xF] == s.v[0xF]
      && OthersKept(s, r, f.x)
      && r == s.(v := r.v, pc := Advance(s.pc, 2), vf := s.v[0xF])
  {
  }

  /** 8XY4: the nine-bit sum splits into the stored byte and the carry in VF; with X = F the carry wins. */
  lemma AddWithCarry(s: State, rnd: Byte)
    requires WellFormed(s) && s.playing && Classify(Instruction(s)) == Alu(AddCarry)
    ensures var f, r := Instruction(s), Step(s, rnd);
      && r.v[0xF] <= 1
      && (f.x != 0xF ==> s.v[f.x] as int + s.v[f.y] == r.v[f.x] as int + 0x100 * (r.v[0xF] as int))
      && (f.x == 0xF ==> r.v[0xF] == Flag(s.v[f.x] as int + s.v[f.y] > 0xFF))
      && OthersKept(s, r, f.x)
      && r == s.(v := r.v, pc := Advance(s.pc, 2), vf := r.v[0xF])
  {
  }

  /** 8XY5: Vx - Vy modulo 256, VF = 1 exactly when Vx > Vy. */
  lemma SubtractWithBorrow(s: State, rnd: Byte)
    requires WellFormed(s) && s.playing && Classify(Instruction(s)) == Alu(SubBorrow)
    ensures var f, r := Instruction(s), Step(s, rnd);
      && (r.v[0xF] == 1 <==> s.v[f.x] > s.v[f.y])
      && (r.v[0xF] == 0 <==> s.v[f.x] <= s.v[f.y])
      && (f.x != 0xF ==> r.v[f.x] == (s.v[f.x] as int - s.v[f.y]) % 0x100)
      && OthersKept(s, r, f.x)
      && r == s.(v := r.v, pc := Advance(s.pc, 2), vf := r.v[0xF])
  {
  }

  /** 8XY7: Vy - Vx modulo 256, VF = 1 exactly when Vy > Vx. */
  lemma SubtractReversed(s: State, rnd: Byte)
    requires WellFormed(s) && s.playing && Classify(Instruction(s)) == Alu(SubReverse)
    ensures var f, r := Instruction(s), Step(s, rnd);
      && (r.v[0xF] == 1 <==> s.v[f.y] > s.v[f.x])
      && (r.v[0xF] == 0 <==> s.v[f.y] <= s.v[f.x])
      && (f.x != 0xF ==> r.v[f.x] == (s.v[f.y] as int - s.v[f.x]) % 0x100)
      && OthersKept(s, r, f.x)
      && r == s.(v := r.v, pc := Advance(s.pc, 2), vf := r.v[0xF])
  {
  }

  /** 8XY6: the bit shifted out lands in VF, so Vx = 2 * new Vx + VF. */
  lemma ShiftRightOut(s: State, rnd: Byte)
    requires WellFormed(s) && s.playing && Classify(Instruction(s)) == Alu(ShiftRight)
    ensures var f, r := Instruction(s), Step(s, rnd);
      && r.v[0xF] <= 1
      && (f.x != 0xF ==> s.v[f.x] == 2 * r.v[f.x] + r.v[0xF])
      && (f.x == 0xF ==> r.v[0xF] == s.v[0xF] % 2)
      && OthersKept(s, r, f.x)
      && r == s.(v := r.v, pc := Advance(s.pc, 2), vf := r.v[0xF])
  {
  }

  /** 8XYE: VF is the bit shifted out left in place (0 or 0x80), so 2 * Vx = new Vx + 2 * VF. */
  lemma ShiftLeftOut(s: State, rnd: Byte)
    requires WellFormed(s) && s.playing && Classify(Instruction(s)) == Alu(ShiftLeft)
    ensures var f, r := Instruction(s), Step(s, rnd);
      && (r.v[0xF] == 0 || r.v[0xF] == 0x80)
      && (f.x != 0xF ==> 2 * s.v[f.x] as int == r.v[f.x] as int + 2 * (r.v[0xF] as int))
      && (f.x == 0xF ==> (r.v[0xF] == 0x80 <==> s.v[0xF] >= 0x80))
      && OthersKept(s, r, f.x)
      && r == s.(v := r.v, pc := Advance(s.pc, 2), vf := r.v[0xF])
  {
  }

  /**
   * The 8XY4 and 8XY5 handlers undo each other on Vx when X and Y differ. Over
   * whole execs X and Y must also differ from F, since the carry 8XY4 leaves
   * in V[0xF] would otherwise change what 8XY5 reads.
   */
  lemma AddThenSubtract(s: State, f: Fields, rnd: Byte)
    requires WellFormed(s) && f.x != f.y
    ensures Arith(Arith(s, AddCarry, f, rnd), SubBorrow, f, rnd).v[f.x] == s.v[f.x]
  {
  }

  /** The low bit and the rest of a bitwise result are the combined low bits and the bitwise result of the rest. */
  lemma BitwiseSplit(op: BitOp, a: nat, b: nat, k: nat)
    requires k > 0
    ensures Low(Bitwise(op, a, b, k)) == Combine(op, Low(a), Low(b))
    ensures Bitwise(op, a, b, k) / 2 == Bitwise(op, a / 2, b / 2, k - 1)
  {
  }

  /** XOR with the same operand twice gives back the `k` low bits of the first. */
  lemma {:induction false} XorXor(a: nat, b: nat, k: nat)
    ensures Bitwise(XorOp, Bitwise(XorOp, a, b, k), b, k) == a % Pow2(k)
    decreases k
  {
    if k > 0 {
      var once := Bitwise(XorOp, a, b, k);
      BitwiseSplit(XorOp, a, b, k);
      XorXor(a / 2, b / 2, k - 1);
      assert a % Pow2(k) == a % 2 + 2 * ((a / 2) % Pow2(k - 1)) by {
        ModTwoPow(a, k);
      }
    }
  }

  /** OR-ing a mask with its AND against anything gives the mask: the AND is a submask. */
  lemma {:induction false} AndIsSubmask(a: nat, b: nat, k: nat)
    ensures Bitwise(OrOp, Bitwise(AndOp, a, b, k), b, k) == b % Pow2(k)
    decreases k
  {
    if k > 0 {
      BitwiseSplit(AndOp, a, b, k);
      AndIsSubmask(a / 2, b / 2, k - 1);
      ModTwoPow(b, k);
    }
  }

  /** Taking the `k` low bits splits off the lowest bit and the `k - 1` low bits of the rest. */
  lemma ModTwoPow(a: nat, k: nat)
    requires k > 0
    ensures a % Pow2(k) == a % 2 + 2 * ((a / 2) % Pow2(k - 1))
  {
    var p := Pow2(k - 1);
    var q := (a / 2) / p;
    assert a == 2 * p * q + (a % 2 + 2 * ((a / 2) % p));
    assert 0 <= a % 2 + 2 * ((a / 2) % p) < 2 * p;
    DivModUnique(a, 2 * p, q, a % 2 + 2 * ((a / 2) % p));
  }

  /** Euclidean division is unique. */
  lemma DivModUnique(a: int, m: int, q: int, r: int)
    requires m > 0 && 0 <= r < m && a == m * q + r
    ensures a % m == r && a / m == q
  {
    var q', r' := a / m, a % m;
    assert a == q' * m + r';
    DigitsUnique(q, r, q', r', m);
  }

  /** 8XY3 run twice with the same Vy gives Vx back. */
  lemma XorTwice(s: State, f: Fields, rnd: Byte)
    requires WellFormed(s) && f.x != f.y
    ensures Arith(Arith(s, Xor, f, rnd), Xor, f, rnd).v[f.x] == s.v[f.x]
  {
    var once := Arith(s, Xor, f, rnd);
    assert once == SetV(s, f.x, BitXor(s.v[f.x], s.v[f.y]));
    var twice := Arith(once, Xor, f, rnd);
    assert twice == SetV(once, f.x, BitXor(once.v[f.x], once.v[f.y]));
    XorInvolutive(s.v[f.x], s.v[f.y]);
  }

  /** A byte XOR-ed twice with the same byte is unchanged. */
  lemma XorInvolutive(a: Byte, b: Byte)
    ensures BitXor(BitXor(a, b), b) == a
  {
    Pow2Byte();
    XorXor(a, b, 8);
    ModSmall(a, 8);
  }

  /** `a & b` is a submask of `b`: OR-ing it into `b` adds nothing, so it is at most `b`. */
  lemma AndSubmask(a: Byte, b: Byte)
    ensures BitOr(BitAnd(a, b), b) == b
    ensures BitAnd(a, b) <= b
  {
    var masked := BitAnd(a, b);
    Pow2Byte();
    assert BitOr(masked, b) == b by {
      AndIsSubmask(a, b, 8);
      ModSmall(b, 8);
    }
    assert masked <= BitOr(masked, b) by {
      OrAtLeast(masked, b, 8);
      ModSmall(masked, 8);
    }
  }

  lemma ModSmall(a: nat, k: nat)
    requires a < Pow2(k)
    ensures a % Pow2(k) == a
  {
    DivModUnique(a, Pow2(k), 0, a);
  }

  lemma Pow2Byte()
    ensures Pow2(8) == 0x100
  {
    assert Pow2(4) == 0x10;
  }

  /** CXNN: the random byte is masked with NN, so the result has no bit NN lacks. */
  lemma RandomSubmask(s: State, rnd: Byte)
    requires WellFormed(s) && s.playing && Classify(Instruction(s)) == Alu(Random)
    ensures var f, r := Instruction(s), Step(s, rnd);
      && (f.x != 0xF ==> BitOr(r.v[f.x], f.nn) == f.nn && r.v[f.x] <= f.nn)
      && r.v[0xF] == s.v[0xF]
      && OthersKept(s, r, f.x)
      && r == s.(v := r.v, pc := Advance(s.pc, 2), vf := s.v[0xF])
  {
    var f := Instruction(s);
    var masked := BitAnd(rnd, f.nn);
    AndSubmask(rnd, f.nn);
    var begun := s.(pc := Advance(s.pc, 2), vf := s.v[0xF]);
    assert Execute(begun, Alu(Random), f, rnd) == SetV(begun, f.x, masked);
    var r := Step(s, rnd);
    assert f.x != 0xF ==> r.v[f.x] == masked;
  }

  /** An OR has every bit of its first operand, so is at least its low bits. */
  lemma {:induction false} OrAtLeast(a: nat, b: nat, k: nat)
    ensures Bitwise(OrOp, a, b, k) >= a % Pow2(k)
    decreases k
  {
    if k > 0 {
      OrAtLeast(a / 2, b / 2, k - 1);
      ModTwoPow(a, k);
    }
  }

  // --------------------------------------------------------------- skips

  /** The conditional skips, each with the test under which it skips the next instruction. */
  predicate SkipOp(op: Op)
  {
    op in {Flow(SkipEqImm), Flow(SkipNeImm), Flow(SkipEqReg), Flow(SkipNeReg), Io(SkipKey), Io(SkipNotKey)}
  }

  predicate SkipTest(op: Op, vx: Byte, vy: Byte, nn: Byte, keys: set<KeyId>)
  {
    match op
    case Flow(SkipEqImm) => vx == nn
    case Flow(SkipNeImm) => vx != nn
    case Flow(SkipEqReg) => vx == vy
    case Flow(SkipNeReg) => vx != vy
    case Io(SkipKey) => vx in keys
    case Io(SkipNotKey) => vx !in keys
    case _ => false
  }

  /**
   * 3XNN, 4XNN, 5XY0, 9XY0, EX9E and EXA1 move PC 4 past the instruction
   * when their test holds and 2 otherwise, and change nothing else.
   */
  lemma SkipEffect(s: State, rnd: Byte)
    requires WellFormed(s) && s.playing && SkipOp(Classify(Instruction(s)))
    ensures var f := Instruction(s);
      var taken := SkipTest(Classify(f), s.v[f.x], s.v[f.y], f.nn, s.keys);
      Step(s, rnd) == s.(pc := Advance(s.pc, if taken then 4 else 2), vf := s.v[0xF])
  {
    var f := Instruction(s);
    var begun := s.(pc := Advance(s.pc, 2), vf := s.v[0xF]);
    assert begun.v[0xF := begun.vf] == s.v;
    assert Advance(Advance(s.pc, 2), 2) == Advance(s.pc, 4);
  }

  /** 1NNN sets PC to NNN and BNNN to NNN + V0, unmasked; nothing else changes. */
  lemma JumpEffect(s: State, rnd: Byte)
    requires WellFormed(s) && s.playing
    requires Classify(Instruction(s)) in {Flow(Jump), Flow(JumpOffset)}
    ensures var f := Instruction(s);
      var target := if Classify(f) == Flow(Jump) then f.nnn else f.nnn + s.v[0];
      Step(s, rnd) == s.(pc := Addr(target), vf := s.v[0xF])
  {
    assert s.v[0xF := s.v[0xF]] == s.v;
  }

  // ---------------------------------------------------------- call stack

  /**
   * 2NNN at address `a` with 0 <= SP < 12 jumps to NNN; a later 00EE, with
   * SP and the pushed slot as the call left them, returns to `a + 2` and
   * restores SP.
   */
  lemma CallThenReturn(s: State, u: State, rnd: Byte, rnd': Byte)
    requires WellFormed(s) && s.playing && s.pc.Addr? && 0 <= s.pc.a
    requires 0 <= s.sp < 12
    requires Classify(Instruction(s)) == Flow(Call)
    requires WellFormed(u) && u.playing && Classify(Instruction(u)) == Flow(Return)
    requires u.sp == Step(s, rnd).sp && u.stack[s.sp] == Step(s, rnd).stack[s.sp]
    ensures Step(s, rnd).pc == Addr(Instruction(s).nnn)
    ensures Step(s, rnd).sp == s.sp + 1
    ensures Step(u, rnd').pc == Addr(s.pc.a + 2)
    ensures Step(u, rnd').sp == s.sp
  {
    CallPushes(s, rnd);
    ReturnEffect(u, rnd');
  }

  /** 2NNN with 0 <= SP < 12: PC = NNN, SP one higher, and the slot SP named holds the address after the call. */
  lemma CallPushes(s: State, rnd: Byte)
    requires WellFormed(s) && s.playing && s.pc.Addr? && 0 <= s.pc.a
    requires 0 <= s.sp < 12
    requires Classify(Instruction(s)) == Flow(Call)
    ensures var r := Step(s, rnd);
      r.pc == Addr(Instruction(s).nnn) && r.sp == s.sp + 1 && r.stack[s.sp] == s.pc.a + 2
  {
    var f := Instruction(s);
    var begun := s.(pc := Advance(s.pc, 2), vf := s.v[0xF]);
    assert JsRem(s.sp, 12) == s.sp;
    assert Execute(begun, Flow(Call), f, rnd).stack[s.sp] == s.pc.a + 2;
  }

  /**
   * 2NNN for every SP. The slot is JavaScript's `SP % 12`: SP modulo 12 for
   * a non-negative SP, and for a negative SP either slot 0 (a multiple of 12,
   * whose remainder is -0) or no write at all. PC becomes NNN only when the
   * advanced PC is truthy; otherwise the `&&` stops before the jump.
   */
  lemma CallEffect(s: State, rnd: Byte)
    requires WellFormed(s) && s.playing && Classify(Instruction(s)) == Flow(Call)
    ensures var f, r, next := Instruction(s), Step(s, rnd), Advance(s.pc, 2);
      && r.sp == s.sp + 1
      && (0 <= s.sp ==> r.stack == s.stack[s.sp % 12 := ToWord16(next)])
      && (s.sp < 0 && s.sp % 12 == 0 ==> r.stack == s.stack[0 := ToWord16(next)])
      && (s.sp < 0 && s.sp % 12 != 0 ==> r.stack == s.stack)
      && (Truthy(next) ==> r.pc == Addr(f.nnn))
      && (!Truthy(next) ==> r.pc == next)
      && r == s.(sp := r.sp, stack := r.stack, pc := r.pc, vf := s.v[0xF])
  {
    JsRemZero(s.sp, 12);
    assert s.v[0xF := s.v[0xF]] == s.v;
  }

  /**
   * 00EE on its own: SP drops by one and PC is the slot it now names; a slot
   * outside the sixteen-entry stack leaves PC undefined. Nothing else changes.
   */
  lemma ReturnEffect(s: State, rnd: Byte)
    requires WellFormed(s) && s.playing && Classify(Instruction(s)) == Flow(Return)
    ensures var r := Step(s, rnd);
      && r.sp == s.sp - 1
      && (1 <= s.sp <= 16 ==> r.pc == Addr(s.stack[s.sp - 1]))
      && (s.sp < 1 || 16 < s.sp ==> r.pc == Lost)
      && r == s.(sp := r.sp, pc := r.pc, vf := s.v[0xF])
  {
    assert s.v[0xF := s.v[0xF]] == s.v;
  }

  // -------------------------------------------------------------- memory

  /** FX33: three decimal digits at I, I + 1 and I + 2 (each masked with 0xFFF) that spell Vx. */
  lemma BcdDigits(s: State, rnd: Byte)
    requires WellFormed(s) && s.playing && Classify(Instruction(s)) == Mem(StoreBcd)
    ensures var f, r := Instruction(s), Step(s, rnd);
      var a0, a1, a2 := s.i % 0x1000, (s.i + 1) % 0x1000, (s.i + 2) % 0x1000;
      && r.ram[a0] < 10 && r.ram[a1] < 10 && r.ram[a2] < 10
      && 100 * (r.ram[a0] as int) + 10 * (r.ram[a1] as int) + r.ram[a2] as int == s.v[f.x] as int
      && (forall a :: 0 <= a < RamSize && a != a0 && a != a1 && a != a2 ==> r.ram[a] == s.ram[a])
      && r.v == s.v && r.i == s.i
      && r == s.(ram := r.ram, pc := Advance(s.pc, 2), vf := s.v[0xF])
  {
    var f := Instruction(s);
    var begun := s.(pc := Advance(s.pc, 2), vf := s.v[0xF]);
    var done := Memory(begun, StoreBcd, f);
    assert done.v[0xF := done.vf] == s.v;
    DecimalDigits(s.v[f.x]);
  }

  /** The hundreds, tens and units of a byte spell it. */
  lemma DecimalDigits(n: Byte)
    ensures 100 * ((n / 100) % 10) + 10 * ((n / 10) % 10) + n % 10 == n
  {
    var h, t, u := n / 100, (n / 10) % 10, n % 10;
    assert n / 10 == 10 * h + t;
    assert h < 10;
  }

  /** ANNN sets I to NNN; FX1E adds Vx to I with no mask. PC moves on and nothing else changes. */
  lemma IndexEffect(s: State, rnd: Byte)
    requires WellFormed(s) && s.playing
    requires Classify(Instruction(s)) in {Mem(LoadIndex), Mem(AddIndex)}
    ensures var f := Instruction(s);
      var index := if Classify(f) == Mem(LoadIndex) then f.nnn else s.i + s.v[f.x];
      Step(s, rnd) == s.(i := index, pc := Advance(s.pc, 2), vf := s.v[0xF])
  {
    assert s.v[0xF := s.v[0xF]] == s.v;
  }

  /** FX55: V0..VX land at I..I+X, the rest of RAM, I and the registers stay. */
  lemma StoreRegistersEffect(s: State, rnd: Byte)
    requires WellFormed(s) && s.playing && Classify(Instruction(s)) == Mem(StoreRegs)
    ensures var x, r := Instruction(s).x, Step(s, rnd);
      && (forall k :: 0 <= k <= x && s.i + k < RamSize ==> r.ram[s.i + k] == s.v[k])
      && (forall a :: 0 <= a < RamSize && !(s.i <= a <= s.i + x) ==> r.ram[a] == s.ram[a])
      && r.v == s.v && r.i == s.i
      && r == s.(ram := r.ram, pc := Advance(s.pc, 2), vf := s.v[0xF])
  {
    assert s.v[0xF := s.v[0xF]] == s.v;
  }

  /** FX65: V0..VX are read from I..I+X (0 past the end of RAM); the other registers, RAM and I stay. */
  lemma LoadRegistersEffect(s: State, rnd: Byte)
    requires WellFormed(s) && s.playing && Classify(Instruction(s)) == Mem(LoadRegs)
    ensures var x, r := Instruction(s).x, Step(s, rnd);
      && (forall k :: 0 <= k <= x && k != 0xF ==> r.v[k] == ByteAt(s.ram, s.i + k))
      && (forall k :: x < k < 0x10 ==> r.v[k] == s.v[k])
      && r.v[0xF] == s.v[0xF]
      && r.ram == s.ram && r.i == s.i
      && r == s.(v := r.v, pc := Advance(s.pc, 2), vf := s.v[0xF])
  {
  }

  /** Loading what was just stored gives the registers back. */
  lemma StoreThenLoad(ram: seq<Byte>, v: seq<Byte>, v': seq<Byte>, base: nat, x: Nibble)
    requires |v| == 16 && |v'| == 16 && base + x < |ram|
    ensures LoadRegisters(StoreRegisters(ram, v, base, x), v', base, x)[..x + 1] == v[..x + 1]
  {
  }

  // ------------------------------------------------------ keys and timers

  /** FX0A: with no key held PC stays on the instruction, so it runs again; otherwise Vx is the lowest held key. */
  lemma WaitKeyEffect(s: State, rnd: Byte)
    requires WellFormed(s) && s.playing && Classify(Instruction(s)) == Io(WaitKey)
    ensures var f, r := Instruction(s), Step(s, rnd);
      && (s.keys == {} ==> r == s.(vf := s.v[0xF]))
      && (s.keys != {} && f.x != 0xF ==>
            && r.v[f.x] in s.keys
            && (forall k :: k in s.keys ==> r.v[f.x] <= k))
      && (s.keys != {} ==>
            && r.v[0xF] == s.v[0xF]
            && OthersKept(s, r, f.x)
            && r == s.(v := r.v, pc := Advance(s.pc, 2), vf := s.v[0xF]))
  {
    var begun := s.(pc := Advance(s.pc, 2), vf := s.v[0xF]);
    assert Advance(begun.pc, -2) == s.pc;
    assert s.v[0xF := s.v[0xF]] == s.v;
  }

  /** EX9E skips exactly when key Vx is held: after the key goes down it skips, after it goes up it does not. */
  lemma KeySkip(s: State, rnd: Byte)
    requires WellFormed(s) && s.playing && Classify(Instruction(s)) == Io(SkipKey)
    requires s.v[Instruction(s).x] <= 0x10
    ensures Step(KeyDown(s, s.v[Instruction(s).x]), rnd).pc == Advance(s.pc, 4)
    ensures Step(KeyUp(s, s.v[Instruction(s).x]), rnd).pc == Advance(s.pc, 2)
  {
    var k := s.v[Instruction(s).x];
    SkipAfterKeyDown(s, k, rnd);
    NoSkipAfterKeyUp(s, k, rnd);
  }

  lemma SkipAfterKeyDown(s: State, k: KeyId, rnd: Byte)
    requires WellFormed(s) && s.playing && Classify(Instruction(s)) == Io(SkipKey) && s.v[Instruction(s).x] == k
    ensures Step(KeyDown(s, k), rnd).pc == Advance(s.pc, 4)
  {
    var down := KeyDown(s, k);
    assert down.ram == s.ram && down.pc == s.pc && down.v == s.v && k in down.keys;
    assert Instruction(down) == Instruction(s);
    SkipEffect(down, rnd);
  }

  lemma NoSkipAfterKeyUp(s: State, k: KeyId, rnd: Byte)
    requires WellFormed(s) && s.playing && Classify(Instruction(s)) == Io(SkipKey) && s.v[Instruction(s).x] == k
    ensures Step(KeyUp(s, k), rnd).pc == Advance(s.pc, 2)
  {
    var up := KeyUp(s, k);
    assert up.ram == s.ram && up.pc == s.pc && up.v == s.v && k !in up.keys;
    assert Instruction(up) == Instruction(s);
    SkipEffect(up, rnd);
  }

  /** FX07, FX15 and FX18 move bytes between Vx and the timers. */
  lemma TimerRegisters(s: State, rnd: Byte)
    requires WellFormed(s) && s.playing
    ensures var f, r := Instruction(s), Step(s, rnd);
      && (Classify(f) == Io(ReadDelay) && f.x != 0xF ==> r.v[f.x] == s.dt)
      && (Classify(f) == Io(ReadDelay) ==>
            && r.v[0xF] == s.v[0xF]
            && OthersKept(s, r, f.x)
            && r == s.(v := r.v, pc := Advance(s.pc, 2), vf := s.v[0xF]))
      && (Classify(f) == Io(SetDelay) ==> r == s.(dt := s.v[f.x], pc := Advance(s.pc, 2), vf := s.v[0xF]))
      && (Classify(f) == Io(SetSound) ==> r == s.(st := s.v[f.x], pc := Advance(s.pc, 2), vf := s.v[0xF]))
  {
    assert s.v[0xF := s.v[0xF]] == s.v;
  }

  /** A stopped machine neither executes nor counts down. */
  lemma Idle(s: State, rnd: Byte)
    requires WellFormed(s) && !s.playing
    ensures Step(s, rnd) == s
    ensures Tick(s) == (s, false)
    ensures Cycle(s, rnd) == (s, false)
  {
  }

  /**
   * One timer step: DT and ST drop by one only while positive, so they
   * stop at 0, and the beep sounds exactly when ST goes from 2 to 1.
   */
  lemma TickEffect(s: State)
    requires s.playing
    ensures var (r, beep) := Tick(s);
      && (s.dt > 0 ==> r.dt == s.dt - 1) && (s.dt == 0 ==> r.dt == 0)
      && (s.st > 0 ==> r.st == s.st - 1) && (s.st == 0 ==> r.st == 0)
      && (beep <==> s.st == 2)
      && r == s.(dt := r.dt, st := r.st)
  {
  }

  /** `n` timer steps, with the number of beeps they sound. */
  function Ticks(s: State, n: nat): (State, nat)
    decreases n
  {
    if n == 0 then (s, 0)
    else
      var (t, beep) := Tick(s);
      var (u, beeps) := Ticks(t, n - 1);
      (u, beeps + (if beep then 1 else 0))
  }

  /**
   * Running the timers down: after `n` steps each timer has dropped by `n`
   * or stopped at 0, and a sound timer started at 2 or more has beeped
   * exactly once as soon as `n` reaches ST - 1 (never before, never again).
   */
  lemma {:induction false} TimersRunDown(s: State, n: nat)
    requires s.playing
    ensures var (r, beeps) := Ticks(s, n);
      && r.dt == (if s.dt >= n then s.dt - n else 0)
      && r.st == (if s.st >= n then s.st - n else 0)
      && r.playing
      && beeps == (if 2 <= s.st && s.st - 1 <= n then 1 else 0)
    decreases n
  {
    if n > 0 {
      var (t, beep) := Tick(s);
      TickEffect(s);
      TimersRunDown(t, n - 1);
    }
  }

  // ------------------------------------------------------------- display

  /** `flipPixel` twice on one cell restores it, and exactly one of the two calls reports a collision. */
  lemma FlipTwice(vram: seq<bool>, k: int)
    requires 0 <= k < |vram|
    ensures Flip(Flip(vram, k).0, k).0 == vram
    ensures Flip(vram, k).1 != Flip(Flip(vram, k).0, k).1
    ensures forall c :: 0 <= c < |vram| && c != k ==> Flip(vram, k).0[c] == vram[c]
  {
  }

  predicate Increasing(ks: seq<int>)
  {
    forall p, q :: 0 <= p < q < |ks| ==> ks[p] < ks[q]
  }

  /** The display with the cells `ks` inverted. */
  function Toggled(vram: seq<bool>, ks: seq<int>): (r: seq<bool>)
    ensures |r| == |vram|
  {
    seq(|vram|, c requires 0 <= c < |vram| => if c in ks then !vram[c] else vram[c])
  }

  /** Flipping distinct cells inverts exactly those cells. */
  lemma {:induction false} FlipsToggle(vram: seq<bool>, ks: seq<int>)
    requires InRange(ks, |vram|) && Increasing(ks)
    ensures Flips(vram, ks).0 == Toggled(vram, ks)
    decreases |ks|
  {
    if ks != [] {
      var init, k := ks[..|ks| - 1], ks[|ks| - 1];
      FlipsToggle(vram, init);
      assert ks == init + [k];
      assert Toggled(vram, init)[k := !vram[k]] == Toggled(vram, ks);
    }
  }

  /** Flipping distinct cells reports a collision exactly when one of them was lit. */
  lemma {:induction false} FlipsCollide(vram: seq<bool>, ks: seq<int>)
    requires InRange(ks, |vram|) && Increasing(ks)
    ensures Flips(vram, ks).1 <==> exists j :: 0 <= j < |ks| && vram[ks[j]]
    decreases |ks|
  {
    if ks != [] {
      var init, k := ks[..|ks| - 1], ks[|ks| - 1];
      FlipsCollide(vram, init);
      FlipsToggle(vram, init);
      assert Flips(vram, init).0[k] == vram[k] by {
        assert k !in init;
      }
      if Flips(vram, init).1 {
        var j :| 0 <= j < |init| && vram[init[j]];
        assert vram[ks[j]];
      }
      if exists j :: 0 <= j < |ks| && vram[ks[j]] {
        var j :| 0 <= j < |ks| && vram[ks[j]];
        if j < |init| {
          assert vram[init[j]];
        }
      }
    }
  }

  lemma ToggledTwice(vram: seq<bool>, ks: seq<int>)
    ensures Toggled(Toggled(vram, ks), ks) == vram
  {
  }

  /** The cells of one sprite row, left to right. */
  lemma {:induction false} RowCellsIncreasing(b: Byte, px: nat, py: nat, c: nat)
    requires c <= 8
    ensures Increasing(RowCells(b, px, py, c))
    decreases c
  {
    if c > 0 {
      RowCellsIncreasing(b, px, py, c - 1);
    }
  }

  /**
   * Every cell of a sprite of `rows` rows lies below index Vx + 64 * (Vy + rows),
   * where a further sprite row would start. With Vx >= 57 a row's last cells
   * spill into the next display row, which this bound allows.
   */
  lemma {:induction false} SpriteCellsBelow(ram: seq<Byte>, base: nat, vx: Byte, vy: Byte, rows: nat)
    requires rows <= 15
    ensures forall j :: 0 <= j < |SpriteCells(ram, base, vx, vy, rows)| ==>
              SpriteCells(ram, base, vx, vy, rows)[j] < vx + ScreenWidth * (vy + rows)
    decreases rows
  {
    if rows > 0 {
      var init := SpriteCells(ram, base, vx, vy, rows - 1);
      var row := RowCells(ByteAt(ram, base + rows - 1), vx, vy + rows - 1, 8);
      SpriteCellsBelow(ram, base, vx, vy, rows - 1);
      assert SpriteCells(ram, base, vx, vy, rows) == init + row;
    }
  }

  /** A sprite's cells in drawing order are strictly increasing, so no cell is flipped twice by one draw. */
  lemma {:induction false} SpriteCellsIncreasing(ram: seq<Byte>, base: nat, vx: Byte, vy: Byte, rows: nat)
    requires rows <= 15
    ensures Increasing(SpriteCells(ram, base, vx, vy, rows))
    decreases rows
  {
    if rows > 0 {
      var n := rows - 1;
      var init := SpriteCells(ram, base, vx, vy, n);
      var row := RowCells(ByteAt(ram, base + n), vx, vy + n, 8);
      SpriteCellsStep(ram, base, vx, vy, n);
      SpriteCellsIncreasing(ram, base, vx, vy, n);
      SpriteCellsBelow(ram, base, vx, vy, n);
      RowCellsIncreasing(ByteAt(ram, base + n), vx, vy + n, 8);
      ConcatIncreasing(init, row, vx + ScreenWidth * (vy + n), SpriteCells(ram, base, vx, vy, rows));
    }
  }

  /** Two increasing runs, the first wholly below the second, join into one increasing run. */
  lemma ConcatIncreasing(xs: seq<int>, ys: seq<int>, m: int, all: seq<int>)
    requires Increasing(xs) && Increasing(ys)
    requires forall j :: 0 <= j < |xs| ==> xs[j] < m
    requires forall j :: 0 <= j < |ys| ==> m <= ys[j]
    requires all == xs + ys
    ensures Increasing(all)
  {
    forall p, q | 0 <= p < q < |xs + ys|
      ensures (xs + ys)[p] < (xs + ys)[q]
    {
      if q < |xs| {
        assert (xs + ys)[p] == xs[p] && (xs + ys)[q] == xs[q];
      } else if p < |xs| {
        assert (xs + ys)[p] == xs[p] && (xs + ys)[q] == ys[q - |xs|];
      } else {
        assert (xs + ys)[p] == ys[p - |xs|] && (xs + ys)[q] == ys[q - |xs|];
      }
    }
  }

  /** Flipping the same distinct cells twice: the display comes back, and the two flags say which cells were lit or unlit. */
  lemma FlipsTwice(vram: seq<bool>, ks: seq<int>)
    requires InRange(ks, |vram|) && Increasing(ks)
    ensures Flips(Flips(vram, ks).0, ks).0 == vram
    ensures Flips(vram, ks).1 <==> exists j :: 0 <= j < |ks| && vram[ks[j]]
    ensures Flips(Flips(vram, ks).0, ks).1 <==> exists j :: 0 <= j < |ks| && !vram[ks[j]]
  {
    var once := Flips(vram, ks).0;
    FlipsToggle(vram, ks);
    FlipsToggle(once, ks);
    ToggledTwice(vram, ks);
    FlipsCollide(vram, ks);
    FlipsCollide(once, ks);
    assert forall j :: 0 <= j < |ks| ==> once[ks[j]] == !vram[ks[j]];
  }

  /**
   * DXYN twice with the same registers and memory restores the display. The
   * first draw reports a collision when a sprite cell was lit before it, the
   * second when a sprite cell was unlit before the first; so a first draw
   * without collision is followed by a second draw with one, whenever the
   * sprite has a set bit.
   */
  lemma DrawTwice(s: State, f: Fields)
    requires WellFormed(s)
    ensures var ks, t := SpriteCells(s.ram, s.i, s.v[f.x], s.v[f.y], f.n), Draw(s, f);
      && Draw(t, f).vram == s.vram
      && (t.vf == 1 <==> exists j :: 0 <= j < |ks| && s.vram[ks[j]])
      && (Draw(t, f).vf == 1 <==> exists j :: 0 <= j < |ks| && !s.vram[ks[j]])
      && (ks != [] && t.vf == 0 ==> Draw(t, f).vf == 1)
  {
    var ks := SpriteCells(s.ram, s.i, s.v[f.x], s.v[f.y], f.n);
    var t := Draw(s, f);
    DrawFlips(s, f);
    var once := Flips(s.vram, ks);
    DrawFlips(t, f);
    var twice := Flips(once.0, ks);
    SpriteCellsIncreasing(s.ram, s.i, s.v[f.x], s.v[f.y], f.n);
    FlipsTwice(s.vram, ks);
    if ks != [] && t.vf == 0 {
      assert !once.1;
      assert !s.vram[ks[0]];
      assert twice.1;
    }
  }

  /** DXYN flips its sprite's cells and reports the collision, leaving RAM, I and V for a second draw. */
  lemma DrawFlips(s: State, f: Fields)
    requires WellFormed(s)
    ensures var ks := SpriteCells(s.ram, s.i, s.v[f.x], s.v[f.y], f.n);
      var r := Draw(s, f);
      && r.vram == Flips(s.vram, ks).0
      && r.vf == Flag(Flips(s.vram, ks).1)
      && r.ram == s.ram && r.i == s.i && r.v == s.v
      && r == s.(vram := r.vram, vf := r.vf)
  {
  }

  /**
   * One exec of DXYN: VF (and V[0xF] with it) is 1 when a flip hit a lit
   * cell and 0 otherwise, PC moves past the instruction, and nothing but
   * the display changes besides.
   */
  lemma DrawEffect(s: State, rnd: Byte)
    requires WellFormed(s) && s.playing && Classify(Instruction(s)) == DrawSprite
    ensures var f := Instruction(s);
      var fl := Flips(s.vram, SpriteCells(s.ram, s.i, s.v[f.x], s.v[f.y], f.n));
      Step(s, rnd) == s.(vram := fl.0, v := s.v[0xF := Flag(fl.1)], vf := Flag(fl.1), pc := Advance(s.pc, 2))
  {
    var f := Instruction(s);
    DrawFlips(s.(pc := Advance(s.pc, 2), vf := s.v[0xF]), f);
  }

  /**
   * The same DXYN executed twice in a row (with X and Y other than F, so
   * the first flag does not move the sprite) restores the display, and a
   * first run that saw no collision makes the second report one whenever
   * the sprite has a set bit.
   */
  lemma DrawStepTwice(s: State, rnd: Byte, rnd': Byte)
    requires WellFormed(s) && s.playing && Classify(Instruction(s)) == DrawSprite
    requires Instruction(s).x != 0xF && Instruction(s).y != 0xF
    requires Instruction(Step(s, rnd)) == Instruction(s)
    ensures var f, t := Instruction(s), Step(s, rnd);
      && Step(t, rnd').vram == s.vram
      && (t.v[0xF] == 0 && SpriteCells(s.ram, s.i, s.v[f.x], s.v[f.y], f.n) != [] ==> Step(t, rnd').v[0xF] == 1)
  {
    var f := Instruction(s);
    var begun := s.(pc := Advance(s.pc, 2), vf := s.v[0xF]);
    var t := Step(s, rnd);
    var d := Draw(begun, f);
    assert t == d.(v := d.v[0xF := d.vf]);
    var begun' := t.(pc := Advance(t.pc, 2), vf := t.v[0xF]);
    var d' := Draw(begun', f);
    assert Step(t, rnd') == d'.(v := d'.v[0xF := d'.vf]);
    assert begun'.v[f.x] == s.v[f.x] && begun'.v[f.y] == s.v[f.y];
    assert d' == Draw(d, f).(v := t.v, pc := begun'.pc);
    DrawTwice(begun, f);
  }

  /** 00E0 blanks every cell, on screen and off, and changes nothing but the display. */
  lemma ClearBlanks(s: State, rnd: Byte)
    requires WellFormed(s) && s.playing && Classify(Instruction(s)) == ClearDisplay
    ensures var r := Step(s, rnd);
      && (forall c :: 0 <= c < VramCells ==> !r.vram[c])
      && r == s.(vram := r.vram, pc := Advance(s.pc, 2), vf := s.v[0xF])
  {
    assert s.v[0xF := s.v[0xF]] == s.v;
  }

  // ------------------------------------------------------ font and load

  /** Dropping bits one at a time is the same as one shift: `(word >> shift) & 0xF`. */
  lemma {:induction false} NibbleShift(word: nat, shift: nat)
    ensures NibbleAt(word, shift) == (word / Pow2(shift)) % 0x10
    decreases shift
  {
    if shift > 0 {
      NibbleShift(word / 2, shift - 1);
      DivModNest(word, 2, Pow2(shift - 1));
    }
  }

  /** Four halvings drop one hexadecimal digit. */
  lemma NibbleFour(word: nat, shift: nat)
    ensures NibbleAt(word, shift + 4) == NibbleAt(word / 0x10, shift)
  {
    calc {
      NibbleAt(word, shift + 4);
      NibbleAt(word / 2, shift + 3);
      NibbleAt(word / 2 / 2, shift + 2);
      NibbleAt(word / 2 / 2 / 2, shift + 1);
      NibbleAt(word / 2 / 2 / 2 / 2, shift);
      { assert word / 2 / 2 / 2 / 2 == word / 0x10; }
      NibbleAt(word / 0x10, shift);
    }
  }

  /** The five shifts the font loop uses pick the five hexadecimal digits of a glyph word, most significant first. */
  lemma GlyphRows(word: nat)
    ensures NibbleAt(word, 16) == (word / 0x10000) % 0x10
    ensures NibbleAt(word, 12) == (word / 0x1000) % 0x10
    ensures NibbleAt(word, 8) == (word / 0x100) % 0x10
    ensures NibbleAt(word, 4) == (word / 0x10) % 0x10
    ensures NibbleAt(word, 0) == word % 0x10
  {
    var w1, w2, w3 := word / 0x10, word / 0x100, word / 0x1000;
    assert w1 / 0x10 == w2 && w2 / 0x10 == w3 && w3 / 0x10 == word / 0x10000;
    NibbleFour(word, 0);
    NibbleFour(w1, 0);
    NibbleFour(w2, 0);
    NibbleFour(w3, 0);
    NibbleFour(word, 4);
    NibbleFour(w1, 4);
    NibbleFour(w2, 4);
    NibbleFour(word, 8);
    NibbleFour(w1, 8);
    NibbleFour(word, 12);
  }

  /** A glyph's five rows are the five hexadecimal digits of its font word, most significant first, each moved into the high nibble. */
  lemma GlyphDigits(d: Nibble)
    ensures var w := FontSet[d];
      Glyph(d) == [(w / 0x10000) % 0x10 * 0x10, (w / 0x1000) % 0x10 * 0x10, (w / 0x100) % 0x10 * 0x10,
                   (w / 0x10) % 0x10 * 0x10, w % 0x10 * 0x10]
  {
    GlyphRows(FontSet[d]);
  }

  /** The font's glyph for 0 is the standard one. */
  lemma GlyphZero()
    ensures Glyph(0) == [0xF0, 0x90, 0x90, 0x90, 0xF0]
  {
    GlyphDigits(0);
  }

  /** Font install writes glyph `d` at 5d, row by row. */
  lemma FontLayout(d: Nibble)
    ensures FontRam()[5 * d .. 5 * d + 5] == Glyph(d)
  {
    var font, glyph := FontRam(), Glyph(d);
    forall k | 0 <= k < 5
      ensures font[5 * d + k] == glyph[k]
    {
      FontByteAt(d, k);
    }
    assert |font[5 * d .. 5 * d + 5]| == |glyph| == 5;
    forall k | 0 <= k < 5
      ensures font[5 * d .. 5 * d + 5][k] == glyph[k]
    {
      assert font[5 * d .. 5 * d + 5][k] == font[5 * d + k];
    }
  }

  /** Whether the low memory still holds the font. */
  predicate HasFont(s: State)
    requires WellFormed(s)
  {
    s.ram[..FontBytes] == FontRam()[..FontBytes]
  }

  /**
   * `initVM`: the font below 0x50 and zeros above it, zeroed registers,
   * stack and timers, PC at 0x200, no key held, stopped, and the display
   * untouched; the constructor's display is blank.
   */
  lemma InitVmState(vram: seq<bool>)
    requires |vram| == VramCells
    ensures var s := InitVm(vram);
      && WellFormed(s) && HasFont(s)
      && (forall a :: FontBytes <= a < RamSize ==> s.ram[a] == 0)
      && (forall k :: 0 <= k < 16 ==> s.v[k] == 0 && s.stack[k] == 0)
      && s.vf == 0 && s.i == 0 && s.sp == 0 && s.dt == 0 && s.st == 0
      && s.pc == Addr(ProgramStart) && s.keys == {} && !s.playing
      && s.vram == vram
    ensures forall c :: 0 <= c < VramCells ==> !Boot().vram[c]
  {
  }

  /** FX29 for any Vx: I = 5 * Vx, unmasked, and nothing else but PC changes. */
  lemma FontGlyphEffect(s: State, rnd: Byte)
    requires WellFormed(s) && s.playing && Classify(Instruction(s)) == Mem(FontGlyph)
    ensures Step(s, rnd) == s.(i := 5 * (s.v[Instruction(s).x] as int), pc := Advance(s.pc, 2), vf := s.v[0xF])
  {
    assert s.v[0xF := s.v[0xF]] == s.v;
  }

  /** With the font in place, FX29 with Vx a digit points I at that digit's glyph. */
  lemma GlyphAddressed(s: State, rnd: Byte)
    requires WellFormed(s) && s.playing && HasFont(s)
    requires Classify(Instruction(s)) == Mem(FontGlyph) && s.v[Instruction(s).x] < 0x10
    ensures var d, r := s.v[Instruction(s).x], Step(s, rnd);
      r.i == 5 * d && r.ram[r.i .. r.i + 5] == Glyph(d)
  {
    var d := s.v[Instruction(s).x];
    FontLayout(d);
    var r := Step(s, rnd);
    assert r.ram == s.ram;
    assert r.ram[5 * d .. 5 * d + 5] == s.ram[..FontBytes][5 * d .. 5 * d + 5];
  }

  /**
   * After a load: the font and then zeros below 0x200, the program from
   * 0x200 (as much as fits), zeros after it, a blank display, fresh
   * registers with VF = 0, and running.
   */
  lemma LoadRomLayout(s: State, prog: seq<Byte>)
    requires WellFormed(s)
    ensures var r := LoadRom(s, prog);
      && HasFont(r)
      && r.ram[..ProgramStart] == FontRam()[..ProgramStart]
      && (forall j :: 0 <= j < |prog| && ProgramStart + j < RamSize ==> r.ram[ProgramStart + j] == prog[j])
      && (forall a :: ProgramStart + |prog| <= a < RamSize ==> r.ram[a] == 0)
      && (forall c :: 0 <= c < VramCells ==> !r.vram[c])
      && r.pc == Addr(ProgramStart) && r.playing
      && r.sp == 0 && r.i == 0 && r.vf == 0 && r.dt == 0 && r.st == 0 && r.keys == {}
      && (forall k :: 0 <= k < 16 ==> r.v[k] == 0 && r.stack[k] == 0)
  {
    var r := LoadRom(s, prog);
    assert r.ram[..FontBytes] == FontRam()[..FontBytes];
  }

  /** The first instruction after a load is the program's first two bytes. */
  lemma FirstInstructionAfterLoad(s: State, prog: seq<Byte>)
    requires WellFormed(s) && |prog| >= 2
    ensures Fetch(LoadRom(s, prog)) == prog[0] as int * 0x100 + prog[1]
  {
    var r := LoadRom(s, prog);
    assert r.ram[ProgramStart] == prog[0] && r.ram[ProgramStart + 1] == prog[1];
  }

  // ------------------------------------------------------------ findings

  /** 8XY4 as written: the carry test reads the wrapped byte, so VF always ends 0. */
  lemma CarryLostAsWritten(s: State, f: Fields)
    requires WellFormed(s)
    ensures AddCarryAsWritten(s, f).vf == 0
    ensures f.x != f.y && s.v[f.x] == 0xFF && s.v[f.y] == 0x02 ==>
              AddCarryAsWritten(s, f).v[f.x] == 0x01 && Arith(s, AddCarry, f, 0).vf == 1
  {
  }

  /** 00E0 as written: a lit cell stays lit. */
  lemma ClearIgnoredAsWritten(s: State, c: nat)
    requires WellFormed(s) && c < VramCells && s.vram[c]
    ensures ClearAsWritten(s).vram[c]
    ensures !ClearScreen(s).vram[c]
  {
  }

  /** FX0A as written: with no key held it does not wait, and with key 5 held it stores 1. */
  lemma WaitKeyAsWrittenDiffers(s: State, f: Fields)
    requires WellFormed(s) && f.x != 0xF
    ensures s.keys == {} ==> WaitKeyAsWritten(s, f) == s && InputTimers(s, WaitKey, f).pc == Advance(s.pc, -2)
    ensures s.keys == {5} ==> WaitKeyAsWritten(s, f).v[f.x] == 1 && InputTimers(s, WaitKey, f).v[f.x] == 5
  {
  }
}
