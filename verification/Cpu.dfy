/** The 16-bit processor: what one call of `emulate` does to the registers and to memory.

    Words and bytes are integers in range, and the field masks and shifts of the program are
    written as quotients and remainders by powers of two. */
module Cpu {

  type Byte = x: int | 0 <= x < 0x100
  type Word = x: int | 0 <= x < 0x1_0000

  const MEMORY_SIZE := 0x1_0000

  function Wrap(x: int): Word {
    x % 0x1_0000
  }

  /** Z and N are ints in the program, tested against 0 and 1. */
  datatype CpuState = CpuState(
    memory: seq<Byte>, r: seq<Word>, pc: Word, sp: Word, z: int, n: int,
    input: seq<Byte>, output: seq<Byte>)
  {
    ghost predicate Valid() {
      |memory| == MEMORY_SIZE && |r| == 8
    }
  }

  /** Fault stands for what C leaves undefined: touching memory or registers outside their
      arrays, and shifting by 32 or more. */
  datatype Outcome = Next(s: CpuState) | Halt(s: CpuState) | Fault

  function Lo(w: Word): Byte {
    w % 0x100
  }

  function Hi(w: Word): Byte {
    w / 0x100
  }

  predicate InMemory2(a: Word) {
    a + 1 < MEMORY_SIZE
  }

  function Load2(memory: seq<Byte>, a: Word): Word
    requires |memory| == MEMORY_SIZE && InMemory2(a)
  {
    memory[a] as int + 0x100 * (memory[a + 1] as int)
  }

  function Store2(memory: seq<Byte>, data: Word, a: Word): seq<Byte>
    requires |memory| == MEMORY_SIZE && InMemory2(a)
  {
    memory[a := Lo(data)][a + 1 := Hi(data)]
  }

  function And16(x: Word, y: Word): Word {
    ((x as bv16) & (y as bv16)) as int
  }

  function Or16(x: Word, y: Word): Word {
    ((x as bv16) | (y as bv16)) as int
  }

  function Xor16(x: Word, y: Word): Word {
    ((x as bv16) ^ (y as bv16)) as int
  }

  /** A 16-bit value shifted right as an int. */
  function Shr(x: Word, n: nat): Word
    decreases n
  {
    if n == 0 then x else Shr(x / 2, n - 1)
  }

  /** The field of three bits starting at bit 0, 3, 6 or 9. */
  function Field(insn: Word, shift: nat): int
    requires shift in {0, 3, 6, 9}
  {
    if shift == 0 then insn % 8
    else if shift == 3 then insn / 8 % 8
    else if shift == 6 then insn / 64 % 8
    else insn / 512 % 8
  }

  function A(insn: Word): int { Field(insn, 0) }
  function B(insn: Word): int { Field(insn, 3) }
  function C(insn: Word): int { Field(insn, 6) }
  function Op(insn: Word): int { Field(insn, 9) }

  function SetReg(s: CpuState, i: int, v: Word): CpuState
    requires 0 <= i < |s.r|
  {
    s.(r := s.r[i := v])
  }

  function Advance(s: CpuState, bytes: int): CpuState {
    s.(pc := Wrap(s.pc + bytes))
  }

  function Flags(s: CpuState, res: Word): CpuState {
    s.(z := if res == 0 then 1 else 0, n := if res >= 0x8000 then 1 else 0)
  }

  // ---------------------------------------------------------------------------------------
  // One instruction.

  function ExecSet(s: CpuState, insn: Word): Outcome
    requires s.Valid()
  {
    if !InMemory2(Wrap(s.pc + 2)) then Fault
    else Next(Advance(SetReg(s, A(insn), Load2(s.memory, Wrap(s.pc + 2))), 4))
  }

  /** Bit 11 of a LOAD chooses the register form, bit 10 the byte form. */
  function ExecLoad(s: CpuState, insn: Word): Outcome
    requires s.Valid()
  {
    var indirect := insn / 0x800 % 2 == 1;
    var isByte := insn / 0x400 % 2 == 1;
    if !indirect && !InMemory2(Wrap(s.pc + 2)) then Fault else
    var addr := if indirect then s.r[B(insn)] else Load2(s.memory, Wrap(s.pc + 2));
    if !isByte && !InMemory2(addr) then Fault else
    var v: Word := if isByte then s.memory[addr] else Load2(s.memory, addr);
    Next(Advance(SetReg(s, A(insn), v), if indirect then 2 else 4))
  }

  /** A STORE is told apart by its whole high byte; the absolute byte form writes one past the
      address it is given. */
  function ExecStore(s: CpuState, insn: Word): Outcome
    requires s.Valid()
  {
    var v := s.r[A(insn)];
    var kind := insn / 0x100;
    if kind == 0x30 || kind == 0x34 then
      if !InMemory2(Wrap(s.pc + 2)) then Fault else
      var addr := Load2(s.memory, Wrap(s.pc + 2));
      if !InMemory2(addr) then Fault else
      var memory := if kind == 0x30 then Store2(s.memory, v, addr) else s.memory[addr + 1 := Lo(v)];
      Next(Advance(s.(memory := memory), 4))
    else
      var addr := s.r[B(insn)];
      if kind == 0x3C then Next(Advance(s.(memory := s.memory[addr := Lo(v)]), 2))
      else if !InMemory2(addr) then Fault
      else Next(Advance(s.(memory := Store2(s.memory, v, addr)), 2))
  }

  function ExecMove(s: CpuState, insn: Word): Outcome
    requires s.Valid()
  {
    var from := insn % 16;
    var to := insn / 16 % 16;
    if to == 8 then
      if from >= 8 then Fault else Next(Advance(s.(sp := s.r[from]), 2))
    else if to > 8 then Fault
    else if from == 8 then Next(Advance(SetReg(s, to, s.sp), 2))
    else if from > 8 then Fault
    else Next(Advance(SetReg(s, to, s.r[from]), 2))
  }

  /** The value an arithmetic instruction computes; 7 is TEST. */
  function AluResult(op: int, x: Word, y: Word): Word {
    if op == 1 || op == 6 then Wrap(x - y)
    else if op == 2 then And16(x, y)
    else if op == 3 then Or16(x, y)
    else if op == 4 then Xor16(x, y)
    else if op == 5 then Shr(x, y)
    else if op == 7 then x
    else Wrap(x + y)
  }

  function ExecAlu(s: CpuState, insn: Word): Outcome
    requires s.Valid()
  {
    var op := Op(insn);
    var x := s.r[A(insn)];
    var y := s.r[B(insn)];
    if op == 5 && y >= 32 then Fault else
    var res := AluResult(op, x, y);
    var s1 := if op >= 6 then s else SetReg(s, C(insn), res);
    Next(Advance(Flags(s1, res), 2))
  }

  predicate Taken(op: int, z: int, n: int) {
    (op == 0) || (op == 1 && z == 1) || (op == 2 && z == 0) || (op == 3 && n == 1)
    || (op == 4 && n == 0 && z == 0) || (op == 5 && (n == 1 || z == 1)) || (op == 6 && n == 0)
  }

  /** The target is read only when the jump is taken. */
  function ExecJump(s: CpuState, insn: Word): Outcome
    requires s.Valid()
  {
    if Op(insn) == 7 then Halt(s)
    else if !Taken(Op(insn), s.z, s.n) then Next(Advance(s, 4))
    else if !InMemory2(Wrap(s.pc + 2)) then Fault
    else Next(s.(pc := Load2(s.memory, Wrap(s.pc + 2))))
  }

  function ExecJumpReg(s: CpuState, insn: Word): Outcome
    requires s.Valid()
  {
    if Op(insn) == 7 then Halt(s)
    else if !Taken(Op(insn), s.z, s.n) then Next(Advance(s, 2))
    else Next(s.(pc := s.r[A(insn)]))
  }

  function PushWord(s: CpuState, w: Word): Outcome
    requires s.Valid()
  {
    var sp := Wrap(s.sp - 2);
    if !InMemory2(sp) then Fault else Next(s.(sp := sp, memory := Store2(s.memory, w, sp)))
  }

  /** The target is read after the return address has been pushed. */
  function ExecCall(s: CpuState, insn: Word): Outcome
    requires s.Valid()
  {
    match PushWord(s, Wrap(s.pc + 4))
    case Next(s1) =>
      if !InMemory2(Wrap(s1.pc + 2)) then Fault
      else Next(s1.(pc := Load2(s1.memory, Wrap(s1.pc + 2))))
    case other => other
  }

  function ExecCallReg(s: CpuState, insn: Word): Outcome
    requires s.Valid()
  {
    match PushWord(s, Wrap(s.pc + 2))
    case Next(s1) => Next(s1.(pc := s1.r[A(insn)]))
    case other => other
  }

  function ExecRet(s: CpuState, insn: Word): Outcome
    requires s.Valid()
  {
    if !InMemory2(s.sp) then Fault
    else Next(s.(pc := Load2(s.memory, s.sp), sp := Wrap(s.sp + 2)))
  }

  function ExecPush(s: CpuState, insn: Word): Outcome
    requires s.Valid()
  {
    match PushWord(s, s.r[A(insn)])
    case Next(s1) => Next(Advance(s1, 2))
    case other => other
  }

  function ExecPop(s: CpuState, insn: Word): Outcome
    requires s.Valid()
  {
    if !InMemory2(s.sp) then Fault
    else Next(Advance(SetReg(s, A(insn), Load2(s.memory, s.sp)).(sp := Wrap(s.sp + 2)), 2))
  }

  /** fgetc gives -1 at the end of the input. */
  function ExecIn(s: CpuState, insn: Word): Outcome
    requires s.Valid()
  {
    var c: Word := if s.input == [] then 0xFFFF else s.input[0];
    var rest := if s.input == [] then [] else s.input[1..];
    Next(Advance(SetReg(s, A(insn), c).(input := rest), 2))
  }

  function ExecOut(s: CpuState, insn: Word): Outcome
    requires s.Valid()
  {
    Next(Advance(s.(output := s.output + [Lo(s.r[A(insn)])]), 2))
  }

  function ExecInsn(s: CpuState, insn: Word): Outcome
    requires s.Valid()
  {
    var opcode := insn / 0x1000;
    if opcode == 1 then ExecSet(s, insn)
    else if opcode == 2 then ExecLoad(s, insn)
    else if opcode == 3 then ExecStore(s, insn)
    else if opcode == 4 then ExecMove(s, insn)
    else if opcode == 5 then ExecAlu(s, insn)
    else if opcode == 6 then ExecJump(s, insn)
    else if opcode == 7 then ExecJumpReg(s, insn)
    else if opcode == 8 then ExecCall(s, insn)
    else if opcode == 9 then ExecCallReg(s, insn)
    else if opcode == 10 then ExecRet(s, insn)
    else if opcode == 11 then ExecPush(s, insn)
    else if opcode == 12 then ExecPop(s, insn)
    else if opcode == 13 then ExecIn(s, insn)
    else if opcode == 14 then ExecOut(s, insn)
    else Halt(s)
  }

  /** One call of emulate. */
  function Exec(s: CpuState): (o: Outcome)
    requires s.Valid()
    ensures o.Next? ==> o.s.Valid()
  {
    if !InMemory2(s.pc) then Fault else ExecInsn(s, Load2(s.memory, s.pc))
  }

  /** Up to `n` calls of emulate. */
  function RunCpu(m: CpuState, n: nat): (o: Outcome)
    requires m.Valid()
    ensures o.Next? ==> o.s.Valid()
    decreases n
  {
    if n == 0 then Next(m)
    else match Exec(m)
         case Next(m1) => RunCpu(m1, n - 1)
         case other => other
  }

  // ---------------------------------------------------------------------------------------
  // What shifts and comparisons mean.

  function Pow2(n: nat): (p: nat)
    ensures p >= 1
  {
    if n == 0 then 1 else 2 * Pow2(n - 1)
  }

  /** A shift divides by a power of two, rounding down. */
  lemma {:induction false} ShiftDivides(x: Word, n: nat)
    ensures Pow2(n) * Shr(x, n) <= x < Pow2(n) * (Shr(x, n) + 1)
    decreases n
  {
    if n > 0 {
      ShiftDivides(x / 2, n - 1);
      Twice(Pow2(n - 1), Shr(x, n));
      Twice(Pow2(n - 1), Shr(x, n) + 1);
    }
  }

  lemma Twice(p: int, q: int)
    ensures (2 * p) * q == 2 * (p * q)
  {
  }

  /** A word read as a two's complement number. */
  function Signed(w: Word): int {
    if w >= 0x8000 then w as int - 0x1_0000 else w
  }

  predicate Fits16(d: int) {
    -0x8000 <= d < 0x8000
  }

  /** After CMP, JMP_Z and JMP_NZ test equality.  The other conditions are the signed comparisons of
      their names exactly when the difference fits in 16 bits: N is the sign of the wrapped
      difference. */
  lemma CompareThenJump(s: CpuState, cmp: Word)
    requires s.Valid() && cmp / 0x1000 == 5 && Op(cmp) == 6
    ensures ExecInsn(s, cmp).Next?
    ensures var s1 := ExecInsn(s, cmp).s; var x, y := s.r[A(cmp)], s.r[B(cmp)];
            && s1.r == s.r && s1.memory == s.memory
            && (Taken(1, s1.z, s1.n) <==> x == y) && (Taken(2, s1.z, s1.n) <==> x != y)
            && ((Taken(3, s1.z, s1.n) <==> Signed(x) < Signed(y)) <==> Fits16(Signed(x) - Signed(y)))
            && ((Taken(4, s1.z, s1.n) <==> Signed(x) > Signed(y)) <==> Fits16(Signed(x) - Signed(y)))
            && ((Taken(5, s1.z, s1.n) <==> Signed(x) <= Signed(y)) <==> Fits16(Signed(x) - Signed(y)))
            && ((Taken(6, s1.z, s1.n) <==> Signed(x) >= Signed(y)) <==> Fits16(Signed(x) - Signed(y)))
  {
    var x, y := s.r[A(cmp)], s.r[B(cmp)];
    DifferenceSign(x, y);
  }

  lemma DifferenceSign(x: Word, y: Word)
    ensures Wrap(x as int - y as int) == 0 <==> x == y
    ensures (Wrap(x as int - y as int) >= 0x8000 <==> Signed(x) < Signed(y)) <==> Fits16(Signed(x) - Signed(y))
  {
  }

  /** 0x8000 is -32768, less than 1, but JMP_LT after comparing them is not taken. */
  lemma CompareOverflows(s: CpuState)
    requires s.Valid() && s.r[0] == 0x8000 && s.r[1] == 1
    ensures var s1 := ExecInsn(s, 0x5C08).s;
            Signed(s.r[0]) < Signed(s.r[1]) && !Taken(3, s1.z, s1.n)
  {
    assert A(0x5C08) == 0 && B(0x5C08) == 1 && Op(0x5C08) == 6;
  }
}
