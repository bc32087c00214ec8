/** What the instructions of the processor do, in arithmetic, and which of them undo each other. */
module CpuLaws {
  import Bits
  import opened Cpu
  import opened Assembly
  import opened AsmCorrect

  // ---------------------------------------------------------------------------------------
  // The bitwise operations, bit by bit.

  /** Bit `i` of a number. */
  function Bit(w: int, i: nat): int
    requires w >= 0
  {
    if i == 0 then w % 2 else Bit(w / 2, i - 1)
  }

  lemma AndHalves(x: Word, y: Word)
    ensures And16(x, y) / 2 == And16(x / 2, y / 2) && And16(x, y) % 2 == (x % 2) * (y % 2)
  {
    hide *;
    var v, w := Bits.Vector(x), Bits.Vector(y);
    And16Is(x, y);
    And16Is(x / 2, y / 2);
    Bits.HalfAgain(x);
    Bits.HalfAgain(y);
    Bits.VectorIs(x);
    Bits.VectorIs(y);
    Bits.Halves(v);
    Bits.Halves(w);
    Bits.Halves(Bits.Conj(v, w));
    Bits.AndOfHalves(v, w);
  }

  lemma And16Is(x: Word, y: Word)
    ensures And16(x, y) == Bits.Conj(Bits.Vector(x), Bits.Vector(y)) as int
  {
  }

  lemma OrHalves(x: Word, y: Word)
    ensures Or16(x, y) / 2 == Or16(x / 2, y / 2)
    ensures Or16(x, y) % 2 == if x % 2 == 1 || y % 2 == 1 then 1 else 0
  {
    hide *;
    var v, w := Bits.Vector(x), Bits.Vector(y);
    Or16Is(x, y);
    Or16Is(x / 2, y / 2);
    Bits.HalfAgain(x);
    Bits.HalfAgain(y);
    Bits.VectorIs(x);
    Bits.VectorIs(y);
    Bits.Halves(v);
    Bits.Halves(w);
    Bits.Halves(Bits.Disj(v, w));
    Bits.OrOfHalves(v, w);
  }

  lemma Or16Is(x: Word, y: Word)
    ensures Or16(x, y) == Bits.Disj(Bits.Vector(x), Bits.Vector(y)) as int
  {
  }

  lemma XorHalves(x: Word, y: Word)
    ensures Xor16(x, y) / 2 == Xor16(x / 2, y / 2)
    ensures Xor16(x, y) % 2 == if x % 2 != y % 2 then 1 else 0
  {
    hide *;
    var v, w := Bits.Vector(x), Bits.Vector(y);
    Xor16Is(x, y);
    Xor16Is(x / 2, y / 2);
    Bits.HalfAgain(x);
    Bits.HalfAgain(y);
    Bits.VectorIs(x);
    Bits.VectorIs(y);
    Bits.Halves(v);
    Bits.Halves(w);
    Bits.Halves(Bits.Excl(v, w));
    Bits.XorOfHalves(v, w);
  }

  lemma Xor16Is(x: Word, y: Word)
    ensures Xor16(x, y) == Bits.Excl(Bits.Vector(x), Bits.Vector(y)) as int
  {
  }

  /** AND: every bit of the result is the product of the bits. */
  lemma {:induction false} AndBits(x: Word, y: Word, i: nat)
    ensures Bit(And16(x, y), i) == Bit(x, i) * Bit(y, i)
    decreases i
  {
    hide And16;
    AndHalves(x, y);
    if i > 0 {
      AndBits(x / 2, y / 2, i - 1);
    }
  }

  /** OR: every bit is 1 if either is. */
  lemma {:induction false} OrBits(x: Word, y: Word, i: nat)
    ensures Bit(Or16(x, y), i) == if Bit(x, i) == 1 || Bit(y, i) == 1 then 1 else 0
    decreases i
  {
    hide Or16;
    OrHalves(x, y);
    if i > 0 {
      OrBits(x / 2, y / 2, i - 1);
    }
  }

  /** XOR: every bit is 1 if the two differ. */
  lemma {:induction false} XorBits(x: Word, y: Word, i: nat)
    ensures Bit(Xor16(x, y), i) == if Bit(x, i) != Bit(y, i) then 1 else 0
    decreases i
  {
    hide Xor16;
    XorHalves(x, y);
    if i > 0 {
      XorBits(x / 2, y / 2, i - 1);
    }
  }

  /** Bit `i` stands for 2 to the i-th: two words with the same 16 bits are the same. */
  lemma {:induction false} BitsDetermine(x: int, y: int, n: nat)
    requires 0 <= x < Pow2(n) && 0 <= y < Pow2(n)
    requires forall i: nat :: i < n ==> Bit(x, i) == Bit(y, i)
    ensures x == y
    decreases n
  {
    if n > 0 {
      forall i: nat | i < n - 1 ensures Bit(x / 2, i) == Bit(y / 2, i) {
        assert Bit(x, i + 1) == Bit(y, i + 1);
      }
      assert Bit(x, 0) == Bit(y, 0);
      BitsDetermine(x / 2, y / 2, n - 1);
    }
  }

  // ---------------------------------------------------------------------------------------
  // Arithmetic on the machine.

  /** `r` is what the operation makes of `x` and `y`. */
  ghost predicate Computes(op: AluOp, x: Word, y: Word, r: Word) {
    match op
    case ADD => x as int + y as int == r || x as int + y as int == r as int + 0x1_0000
    case SUB => x as int == r as int + y as int || x as int + 0x1_0000 == r as int + y as int
    case AND => forall i: nat :: Bit(r, i) == Bit(x, i) * Bit(y, i)
    case OR => forall i: nat :: Bit(r, i) == if Bit(x, i) == 1 || Bit(y, i) == 1 then 1 else 0
    case XOR => forall i: nat :: Bit(r, i) == if Bit(x, i) != Bit(y, i) then 1 else 0
    case RSHIFT => Pow2(y) * r <= x < Pow2(y) * (r + 1)
  }

  /** The flags after the result `r`, in place of old ones. */
  function Flagged(s: CpuState, r: Word): CpuState {
    s.(z := if r == 0 then 1 else 0, n := if Signed(r) < 0 then 1 else 0)
  }

  function Next2(s: CpuState): CpuState {
    s.(pc := (s.pc as int + 2) % 0x1_0000)
  }

  /** An arithmetic instruction puts the result, and nothing else, into its third register and the flags. */
  lemma AluComputes(s: CpuState, op: AluOp, x: Reg, y: Reg, to: Reg)
    requires s.Valid() && (op == RSHIFT ==> s.r[y] < 32)
    ensures var o := ExecInsn(s, FirstWord(Alu(op, x, y, to)));
            && o.Next? && o.s.Valid()
            && Computes(op, s.r[x], s.r[y], o.s.r[to])
            && o.s == Next2(Flagged(s.(r := s.r[to := o.s.r[to]]), o.s.r[to]))
  {
    hide FirstWord, Field, And16, Or16, Xor16, Shr, Computes;
    Decodes(Alu(op, x, y, to));
    ResultComputes(op, s.r[x], s.r[y]);
  }

  lemma ResultComputes(op: AluOp, x: Word, y: Word)
    ensures Computes(op, x, y, AluResult(AluCode(op), x, y))
  {
    hide And16, Or16, Xor16, Shr, Bit;
    match op
    case AND => forall i: nat ensures Bit(And16(x, y), i) == Bit(x, i) * Bit(y, i) { AndBits(x, y, i); }
    case OR =>
      forall i: nat ensures Bit(Or16(x, y), i) == if Bit(x, i) == 1 || Bit(y, i) == 1 then 1 else 0 {
        OrBits(x, y, i);
      }
    case XOR =>
      forall i: nat ensures Bit(Xor16(x, y), i) == if Bit(x, i) != Bit(y, i) then 1 else 0 { XorBits(x, y, i); }
    case RSHIFT => ShiftDivides(x, y);
    case _ =>
  }

  /** TEST sets the flags by the register. */
  lemma TestSets(s: CpuState, x: Reg)
    requires s.Valid()
    ensures ExecInsn(s, FirstWord(Test(x))) == Next(Next2(Flagged(s, s.r[x])))
  {
    hide FirstWord, Field;
    Decodes(Test(x));
  }

  // ---------------------------------------------------------------------------------------
  // What undoes what.

  /** POP takes back what PUSH put, and the stack pointer with it. */
  lemma PushPop(s: CpuState, x: Reg, y: Reg)
    requires s.Valid() && ExecInsn(s, FirstWord(Push(x))).Next?
    ensures var s1 := ExecInsn(s, FirstWord(Push(x))).s; var o := ExecInsn(s1, FirstWord(Pop(y)));
            && s1.sp == (s.sp as int - 2) % 0x1_0000 && s1.r == s.r
            && o.Next? && o.s.r == s.r[y := s.r[x]] && o.s.sp == s.sp && o.s.memory == s1.memory
  {
    hide FirstWord, Field, Load2, Store2;
    Decodes(Push(x));
    Decodes(Pop(y));
    WordInMemory(s.memory, s.r[x], Wrap(s.sp - 2));
  }

  /** RET goes back behind the CALL, wherever that went, with the stack as it was. */
  lemma CallRet(s: CpuState, v: Value)
    requires s.Valid() && ExecInsn(s, FirstWord(Call(v))).Next?
    ensures var s1 := ExecInsn(s, FirstWord(Call(v))).s; var o := ExecInsn(s1, FirstWord(Ret));
            && s1.r == s.r && o.Next? && o.s.r == s.r
            && o.s.pc == (s.pc as int + 4) % 0x1_0000 && o.s.sp == s.sp
  {
    hide FirstWord, Field, Load2, Store2;
    Decodes(Call(v));
    Decodes(Ret);
    WordInMemory(s.memory, Wrap(s.pc + 4), Wrap(s.sp - 2));
  }

  lemma CallRegRet(s: CpuState, x: Reg)
    requires s.Valid() && ExecInsn(s, FirstWord(CallInd(x))).Next?
    ensures var s1 := ExecInsn(s, FirstWord(CallInd(x))).s; var o := ExecInsn(s1, FirstWord(Ret));
            && s1.r == s.r && s1.pc == s.r[x] && o.Next? && o.s.r == s.r
            && o.s.pc == (s.pc as int + 2) % 0x1_0000 && o.s.sp == s.sp
  {
    hide FirstWord, Field, Load2, Store2;
    Decodes(CallInd(x));
    Decodes(Ret);
    WordInMemory(s.memory, Wrap(s.pc + 2), Wrap(s.sp - 2));
  }

  /** What STORE puts at an address LOAD reads from it: the word, or its low byte. */
  lemma StoreLoad(s: CpuState, b: bool, x: Reg, a: Reg, y: Reg)
    requires s.Valid() && ExecInsn(s, FirstWord(StoreInd(b, x, a))).Next?
    ensures var s1 := ExecInsn(s, FirstWord(StoreInd(b, x, a))).s; var o := ExecInsn(s1, FirstWord(LoadInd(b, y, a)));
            o.Next? && o.s.memory == s1.memory && o.s.r == s.r[y := if b then s.r[x] % 0x100 else s.r[x]]
  {
    hide FirstWord, Field, Load2, Store2;
    Decodes(StoreInd(b, x, a));
    Decodes(LoadInd(b, y, a));
    if !b {
      WordInMemory(s.memory, s.r[x], s.r[a]);
    }
  }

  /** A word is stored low byte first, and nothing else changes. */
  lemma WordInMemory(memory: seq<Byte>, w: Word, a: Word)
    requires |memory| == MEMORY_SIZE && InMemory2(a)
    ensures var m := Store2(memory, w, a);
            && |m| == |memory| && Load2(m, a) == w
            && m[a] == w % 0x100 && m[a + 1] == w / 0x100
            && forall i :: 0 <= i < |m| && i != a && i != a + 1 ==> m[i] == memory[i]
  {
  }

  // ---------------------------------------------------------------------------------------
  // Every one of the 65536 words.

  /** What a word is to the processor. */
  datatype Reading = Reads(i: Insn) | Stops | Undefined

  function ConditionOf(op: int): Cond
    requires 0 <= op < 7
  {
    if op == 0 then Always else if op == 1 then Z else if op == 2 then NZ else if op == 3 then LT
    else if op == 4 then GT else if op == 5 then LE else GE
  }

  function OperationOf(op: int): AluOp
    requires 0 <= op < 6
  {
    if op == 0 then ADD else if op == 1 then SUB else if op == 2 then AND else if op == 3 then OR
    else if op == 4 then XOR else RSHIFT
  }

  /** Bits that an instruction has no use for are passed over; a STORE whose high byte is none of the four
      is the register form; a MOVE names nine registers; unknown words stop the machine. */
  function ReadingOf(w: Word): Reading {
    var opcode, a, b, c, op := w / 0x1000, w % 8, w / 8 % 8, w / 64 % 8, w / 512 % 8;
    if opcode == 1 then Reads(Set(a, Num(0)))
    else if opcode == 2 then
      var isByte := w / 0x400 % 2 == 1;
      if w / 0x800 % 2 == 1 then Reads(LoadInd(isByte, a, b)) else Reads(Load(isByte, a, Num(0)))
    else if opcode == 3 then
      if w / 0x100 == 0x30 || w / 0x100 == 0x34 then Reads(Store(w / 0x100 == 0x34, a, Num(0)))
      else Reads(StoreInd(w / 0x100 == 0x3C, a, b))
    else if opcode == 4 then
      if w % 16 > 8 || w / 16 % 16 > 8 || (w % 16 == 8 && w / 16 % 16 == 8) then Undefined
      else Reads(Move(w % 16, w / 16 % 16))
    else if opcode == 5 then
      if op == 6 then Reads(Cmp(a, b)) else if op == 7 then Reads(Test(a))
      else Reads(Alu(OperationOf(op), a, b, c))
    else if opcode == 6 then if op == 7 then Stops else Reads(Jmp(ConditionOf(op), Num(0)))
    else if opcode == 7 then if op == 7 then Stops else Reads(JmpInd(ConditionOf(op), a))
    else if opcode == 8 then Reads(Call(Num(0)))
    else if opcode == 9 then Reads(CallInd(a))
    else if opcode == 10 then Reads(Ret)
    else if opcode == 11 then Reads(Push(a))
    else if opcode == 12 then Reads(Pop(a))
    else if opcode == 13 then Reads(In(a))
    else if opcode == 14 then Reads(Out(a))
    else Stops
  }

  /** The processor takes the word as its reading says. */
  predicate Obeys(s: CpuState, w: Word)
    requires s.Valid()
  {
    match ReadingOf(w)
    case Reads(i) => ExecInsn(s, w) == ExecInsn(s, FirstWord(i))
    case Stops => ExecInsn(s, w) == Outcome.Halt(s)
    case Undefined => ExecInsn(s, w) == Fault
  }

  lemma AnyTransfer(s: CpuState, w: Word)
    requires s.Valid() && (w / 0x1000 == 1 || w / 0x1000 == 2)
    ensures Obeys(s, w)
  {
    hide FirstWord, Load2, Store2, AluResult, Taken, ExecStore, ExecMove, ExecAlu, ExecJump, ExecJumpReg;
    match ReadingOf(w)
    case Reads(i) => Decodes(i);
    case _ =>
  }

  lemma AnyStore(s: CpuState, w: Word)
    requires s.Valid() && (w / 0x1000 == 3 || w / 0x1000 == 4)
    ensures Obeys(s, w)
  {
    hide FirstWord, Load2, Store2, AluResult, Taken, ExecSet, ExecLoad, ExecAlu, ExecJump, ExecJumpReg;
    match ReadingOf(w)
    case Reads(i) => Decodes(i);
    case _ =>
  }

  lemma AnyAlu(s: CpuState, w: Word)
    requires s.Valid() && (w / 0x1000 == 5)
    ensures Obeys(s, w)
  {
    hide FirstWord, Load2, Store2, And16, Or16, Xor16, Shr, Taken, ExecSet, ExecLoad, ExecStore, ExecMove, ExecJump, ExecJumpReg;
    match ReadingOf(w)
    case Reads(i) => Decodes(i);
    case _ =>
  }

  lemma AnyJump(s: CpuState, w: Word)
    requires s.Valid() && (w / 0x1000 == 6 || w / 0x1000 == 7)
    ensures Obeys(s, w)
  {
    hide FirstWord, Load2, Store2, AluResult, Taken, ExecSet, ExecLoad, ExecStore, ExecMove, ExecAlu;
    match ReadingOf(w)
    case Reads(i) => Decodes(i);
    case _ =>
  }

  lemma AnyOther(s: CpuState, w: Word)
    requires s.Valid() && (w / 0x1000 == 0 || w / 0x1000 >= 8)
    ensures Obeys(s, w)
  {
    hide FirstWord, Load2, Store2, AluResult, Taken, ExecSet, ExecLoad, ExecStore, ExecMove, ExecAlu, ExecJump, ExecJumpReg;
    match ReadingOf(w)
    case Reads(i) => Decodes(i);
    case _ =>
  }

  /** The processor does with any word what it does with the assembler's word for the same instruction. */
  lemma AnyWord(s: CpuState, w: Word)
    requires s.Valid()
    ensures match ReadingOf(w)
            case Reads(i) => ExecInsn(s, w) == ExecInsn(s, FirstWord(i))
            case Stops => ExecInsn(s, w) == Outcome.Halt(s)
            case Undefined => ExecInsn(s, w) == Fault
  {
    hide ReadingOf, ExecInsn, FirstWord;
    var opcode := w / 0x1000;
    if opcode == 1 || opcode == 2 {
      AnyTransfer(s, w);
    } else if opcode == 3 || opcode == 4 {
      AnyStore(s, w);
    } else if opcode == 5 {
      AnyAlu(s, w);
    } else if opcode == 6 || opcode == 7 {
      AnyJump(s, w);
    } else {
      AnyOther(s, w);
    }
  }

  // ---------------------------------------------------------------------------------------
  // Where C leaves the outcome undefined.

  /** A word at this address does not end inside memory. */
  predicate AtEnd(a: int) {
    a % 0x1_0000 == 0xFFFF
  }

  /** The word behind the instruction. */
  function OperandOf(s: CpuState): Word
    requires s.Valid() && !AtEnd(s.pc as int + 2)
  {
    Load2(s.memory, (s.pc as int + 2) % 0x1_0000)
  }

  /** An operand, a word in memory or a stack slot would lie across the end of memory, a shift is by 32 or
      more, or a MOVE is from SP to SP. */
  predicate GoesOutside(s: CpuState, i: Insn)
    requires s.Valid()
  {
    match i
    case Set(_, _) => AtEnd(s.pc as int + 2)
    case Load(b, _, _) => AtEnd(s.pc as int + 2) || (!b && AtEnd(OperandOf(s)))
    case LoadInd(b, _, y) => !b && AtEnd(s.r[y])
    case Store(_, _, _) => AtEnd(s.pc as int + 2) || AtEnd(OperandOf(s))
    case StoreInd(b, _, y) => !b && AtEnd(s.r[y])
    case Move(from, to) => from == 8 && to == 8
    case Alu(op, _, y, _) => op == RSHIFT && s.r[y] >= 32
    case Jmp(c, _) => Taken(CondCode(c), s.z, s.n) && AtEnd(s.pc as int + 2)
    case Call(_) => AtEnd(s.sp as int - 2) || AtEnd(s.pc as int + 2)
    case CallInd(_) => AtEnd(s.sp as int - 2)
    case Push(_) => AtEnd(s.sp as int - 2)
    case Pop(_) => AtEnd(s.sp)
    case Ret => AtEnd(s.sp)
    case _ => false
  }

  /** The outcome is a fault exactly there. */
  lemma FaultsExactly(s: CpuState, i: Insn)
    requires s.Valid()
    ensures ExecInsn(s, FirstWord(i)).Fault? <==> GoesOutside(s, i)
  {
    hide FirstWord, Field, Load2, Store2, AluResult, Taken;
    Decodes(i);
  }

  // ---------------------------------------------------------------------------------------
  // The words of the repository's own test program.

  lemma KnownStores()
    ensures FirstWord(Store(false, 1, Num(0x5A69))) == 0x3001 && FirstWord(Store(true, 1, Num(0x5A69))) == 0x3401
    ensures FirstWord(StoreInd(false, 3, 5)) == 0x382B && FirstWord(StoreInd(true, 6, 4)) == 0x3C26
    ensures FirstWord(Set(1, Num(0x1234))) == 0x1001
  {
  }

  lemma KnownLoads()
    ensures FirstWord(Load(false, 1, Num(0x5678))) == 0x2001 && FirstWord(Load(true, 2, Num(0x5678))) == 0x2402
    ensures FirstWord(LoadInd(false, 3, 5)) == 0x282B && FirstWord(LoadInd(true, 3, 5)) == 0x2C2B
  {
  }

  lemma KnownMoves()
    ensures FirstWord(Move(1, 2)) == 0x4021 && FirstWord(Move(1, 8)) == 0x4081
    ensures FirstWord(Push(1)) == 0xB001 && FirstWord(Pop(1)) == 0xC001
    ensures FirstWord(In(1)) == 0xD001 && FirstWord(Out(1)) == 0xE001
  {
  }

  lemma KnownOperations()
    ensures FirstWord(Alu(ADD, 3, 6, 1)) == 0x5073 && FirstWord(Alu(ADD, 1, 2, 4)) == 0x5111
    ensures FirstWord(Alu(SUB, 1, 2, 4)) == 0x5311 && FirstWord(Alu(AND, 1, 2, 4)) == 0x5511
    ensures FirstWord(Alu(OR, 1, 2, 4)) == 0x5711 && FirstWord(Alu(XOR, 1, 2, 4)) == 0x5911
  {
  }

  lemma KnownTests()
    ensures FirstWord(Alu(RSHIFT, 1, 2, 4)) == 0x5B11
    ensures FirstWord(Cmp(1, 2)) == 0x5C11 && FirstWord(Test(1)) == 0x5E01
    ensures ReadingOf(0x5D11) == Reads(Cmp(1, 2)) && ReadingOf(0x5F11) == Reads(Test(1))
  {
  }

  lemma KnownJumps()
    ensures FirstWord(Jmp(Always, Num(0))) == 0x6000 && FirstWord(Jmp(Z, Num(0))) == 0x6200
    ensures FirstWord(Jmp(NZ, Num(0))) == 0x6400 && FirstWord(Jmp(LT, Num(0))) == 0x6600
    ensures FirstWord(Jmp(GT, Num(0))) == 0x6800 && FirstWord(Jmp(LE, Num(0))) == 0x6A00
    ensures FirstWord(Jmp(GE, Num(0))) == 0x6C00 && FirstWord(JmpInd(Always, 4)) == 0x7004
  {
  }

  lemma KnownCalls()
    ensures FirstWord(Call(Num(0))) == 0x8000 && FirstWord(CallInd(1)) == 0x9001
    ensures FirstWord(Ret) == 0xA000 && FirstWord(Insn.Halt) == 0xF000
  {
  }
}
