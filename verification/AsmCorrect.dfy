/** The assembled image, run by the emulator, does what the program text means. */
module AsmCorrect {
  import opened Cpu
  import opened Assembly
  import opened Assembler
  import opened AsmMeaning

  /** The program assembles, and labels are not defined again after being referred back to. */
  ghost predicate Good(items: seq<Item>) {
    Result(items).Assembled? && NoLateRedefinition(items)
  }

  ghost predicate Intact(items: seq<Item>, memory: seq<Byte>) {
    forall k: nat | k < |items| && items[k].Code? :: CodeAt(items, k, memory)
  }

  ghost predicate CodeAt(items: seq<Item>, k: nat, memory: seq<Byte>)
    requires k < |items|
  {
    && Addr(items, k + 1) <= |memory|
    && memory[Addr(items, k)..Addr(items, k + 1)] == ItemCells(items, k, Final)
  }

  /** The machine is at the address of the item the text goes on with, and agrees with it on
      everything else; the code in its memory is as assembled. */
  ghost predicate Matches(items: seq<Item>, s: Source, m: CpuState) {
    && s.Valid() && m.Valid() && s.idx <= |items|
    && m == CpuState(s.memory, s.r, Wrap(Addr(items, s.idx)), s.sp, s.z, s.n, s.input, s.output)
    && Intact(items, s.memory)
  }

  // ---------------------------------------------------------------------------------------
  // Fetching.

  lemma GoodFits(items: seq<Item>, k: nat)
    requires Good(items) && k < |items|
    ensures Addr(items, k) + Size(items[k]) == Addr(items, k + 1) <= MEMORY_SIZE
    ensures AllBytes(ItemCells(items, k, Final))
  {
    hide Image, Cells, OnePassImage;
    AddrMonotone(items, k + 1, |items|);
    OnePassIsTwoPass(items);
    ImageAt(items, |items|, Final, k);
    var image := TwoPassImage(items);
    assert forall i | 0 <= i < Size(items[k]) ::
        ItemCells(items, k, Final)[i] == image[Addr(items, k)..Addr(items, k + 1)][i] == image[Addr(items, k) + i];
  }

  /** The number in the operand word of item `k`. */
  function OperandWord(items: seq<Item>, k: nat): nat
    requires k < |items| && items[k].Code? && HasOperand(items[k].insn)
  {
    Operand(items, k, Final)
  }

  lemma Fetch(items: seq<Item>, k: nat, memory: seq<Byte>)
    requires Good(items) && k < |items| && items[k].Code?
    requires |memory| == MEMORY_SIZE && CodeAt(items, k, memory)
    ensures var a := Addr(items, k); var i := items[k].insn;
            && a + 2 <= MEMORY_SIZE && Load2(memory, a) == FirstWord(i)
            && (HasOperand(i) ==>
                  && a + 4 <= MEMORY_SIZE && Load2(memory, a + 2) == OperandWord(items, k)
                  && OperandWord(items, k) == ValueOf(items, i.v))
  {
    hide Good, Addr, FirstWord, LabelAddr;
    var a := Addr(items, k);
    var i := items[k].insn;
    GoodFits(items, k);
    var cells := ItemCells(items, k, Final);
    assert forall j | 0 <= j < |cells| :: memory[a + j] == memory[a..Addr(items, k + 1)][j] == cells[j];
    assert memory[a] == cells[0] && memory[a + 1] == cells[1];
    if HasOperand(i) {
      assert memory[a + 2] == cells[2] && memory[a + 3] == cells[3];
      assert cells[2] == OperandWord(items, k) % 0x100 && cells[3] == OperandWord(items, k) / 0x100;
      assert cells[3] < 0x100;
    }
  }

  lemma WriteKeepsCode(items: seq<Item>, memory: seq<Byte>, a: nat, b: Byte)
    requires Intact(items, memory) && a < |memory| && !IsCode(items, a)
    ensures Intact(items, memory[a := b])
  {
    forall k: nat | k < |items| && items[k].Code? ensures CodeAt(items, k, memory[a := b]) {
      assert CodeAt(items, k, memory);
      assert !(Addr(items, k) <= a < Addr(items, k + 1));
      assert memory[a := b][Addr(items, k)..Addr(items, k + 1)] == memory[Addr(items, k)..Addr(items, k + 1)];
    }
  }

  lemma WriteAgrees(items: seq<Item>, s: Source, a: Word, w: Word, isByte: bool)
    requires s.Valid() && Intact(items, s.memory)
    ensures var m := Write(items, s, a, w, isByte);
            && !m.Stops?
            && (m.Goes? ==>
                  && Intact(items, m.s.memory) && m.s.Valid() && (isByte || InMemory2(a))
                  && m.s == s.(memory := if isByte then s.memory[a := Lo(w)] else Store2(s.memory, w, a)))
  {
    if Write(items, s, a, w, isByte).Wild? {
      return;
    }
    WriteKeepsCode(items, s.memory, a, w % 0x100);
    if !isByte {
      WriteKeepsCode(items, s.memory[a := w % 0x100], a + 1, w / 0x100);
    }
  }

  // ---------------------------------------------------------------------------------------
  // One instruction.

  /** The machine is about to execute item `k`. */
  ghost predicate AtItem(items: seq<Item>, k: nat, s: Source, m: CpuState) {
    && Good(items) && k < |items| && items[k].Code?
    && Matches(items, s, m) && m.pc == Addr(items, k)
  }

  ghost predicate Agree(items: seq<Item>, meaning: Meaning, o: Outcome) {
    match meaning
    case Wild => true
    case Goes(s) => o.Next? && Matches(items, s, o.s)
    case Stops(s) => o.Halt? && Matches(items, s, o.s)
  }

  /** The opcode of an instruction. */
  function Opcode(i: Insn): int {
    match i
    case Set(_, _) => 1
    case Load(_, _, _) => 2
    case LoadInd(_, _, _) => 2
    case Store(_, _, _) => 3
    case StoreInd(_, _, _) => 3
    case Move(_, _) => 4
    case Alu(_, _, _, _) => 5
    case Cmp(_, _) => 5
    case Test(_) => 5
    case Jmp(_, _) => 6
    case JmpInd(_, _) => 7
    case Call(_) => 8
    case CallInd(_) => 9
    case Ret => 10
    case Push(_) => 11
    case Pop(_) => 12
    case In(_) => 13
    case Out(_) => 14
    case Halt => 15
  }

  /** The fields of the first word of an instruction. */
  predicate FieldsIn(i: Insn, w: Word) {
    match i
    case Set(x, _) => A(w) == x
    case Load(b, x, _) => A(w) == x && w / 0x800 % 2 == 0 && (w / 0x400 % 2 == 1 <==> b)
    case LoadInd(b, x, y) =>
      A(w) == x && B(w) == y && w / 0x800 % 2 == 1 && (w / 0x400 % 2 == 1 <==> b)
    case Store(b, x, _) => A(w) == x && w / 0x100 == (if b then 0x34 else 0x30)
    case StoreInd(b, x, y) => A(w) == x && B(w) == y && w / 0x100 == (if b then 0x3C else 0x38)
    case Move(from, to) => w % 16 == from && w / 16 % 16 == to
    case Alu(op, x, y, to) => A(w) == x && B(w) == y && C(w) == to && Op(w) == AluCode(op)
    case Cmp(x, y) => A(w) == x && B(w) == y && Op(w) == 6
    case Test(x) => A(w) == x && Op(w) == 7
    case Jmp(c, _) => Op(w) == CondCode(c)
    case JmpInd(c, x) => A(w) == x && Op(w) == CondCode(c)
    case CallInd(x) => A(w) == x
    case Push(x) => A(w) == x
    case Pop(x) => A(w) == x
    case In(x) => A(w) == x
    case Out(x) => A(w) == x
    case _ => true
  }

  /** The instructions that move data. */
  predicate MovesData(i: Insn) {
    i.Set? || i.Load? || i.LoadInd? || i.Store? || i.StoreInd? || i.Move?
  }

  lemma DataDecodes(i: Insn)
    requires MovesData(i)
    ensures var w := FirstWord(i); w / 0x1000 == Opcode(i) && FieldsIn(i, w)
  {
    hide A, B, C, Op;
    var w := FirstWord(i);
    match i
    case Set(x, _) => Unpack(w, 8, 0, 0, x);
    case Load(b, x, _) => Unpack(w, if b then 18 else 16, 0, 0, x);
    case LoadInd(b, x, y) => Unpack(w, if b then 22 else 20, 0, y, x);
    case Store(b, x, _) => Unpack(w, if b then 26 else 24, 0, 0, x);
    case StoreInd(b, x, y) => Unpack(w, if b then 30 else 28, 0, y, x);
    case Move(from, to) => UnpackMove(w, from, to);
    case _ =>
  }

  lemma OtherDecodes(i: Insn)
    requires !MovesData(i)
    ensures var w := FirstWord(i); w / 0x1000 == Opcode(i) && FieldsIn(i, w)
  {
    hide A, B, C, Op;
    var w := FirstWord(i);
    match i
    case Alu(op, x, y, to) => Unpack(w, 40 + AluCode(op), to, y, x);
    case Cmp(x, y) => Unpack(w, 46, 0, y, x);
    case Test(x) => Unpack(w, 47, 0, 0, x);
    case Jmp(c, _) => Unpack(w, 48 + CondCode(c), 0, 0, 0);
    case JmpInd(c, x) => Unpack(w, 56 + CondCode(c), 0, 0, x);
    case CallInd(x) => Unpack(w, 72, 0, 0, x);
    case Push(x) => Unpack(w, 88, 0, 0, x);
    case Pop(x) => Unpack(w, 96, 0, 0, x);
    case In(x) => Unpack(w, 104, 0, 0, x);
    case Out(x) => Unpack(w, 112, 0, 0, x);
    case _ =>
  }

  /** Every field the emulator takes out of a word is the one the encoder put in. */
  lemma Decodes(i: Insn)
    ensures var w := FirstWord(i); w / 0x1000 == Opcode(i) && FieldsIn(i, w)
  {
    hide FirstWord, FieldsIn;
    if MovesData(i) {
      DataDecodes(i);
    } else {
      OtherDecodes(i);
    }
  }

  /** A word as its seven leading bits and three fields of three bits. */
  lemma Unpack(w: Word, top: int, c: Reg, b: Reg, a: Reg)
    requires w == 512 * top + 64 * c + 8 * b + a
    ensures A(w) == a && B(w) == b && C(w) == c && Op(w) == top % 8
    ensures w / 0x1000 == top / 8
    ensures w / 0x800 == top / 4 && w / 0x400 == top / 2 && w / 0x100 == 2 * top + c / 4
  {
    assert w / 8 == 64 * top + 8 * c + b;
    assert w / 64 == 8 * top + c;
    assert w / 512 == top;
  }

  lemma UnpackMove(w: Word, from: RegSp, to: RegSp)
    requires w == 0x4000 + 16 * to + from
    ensures w % 16 == from && w / 16 % 16 == to && w / 0x1000 == 4
  {
    assert w / 16 == 0x400 + to;
  }

  lemma Executes(items: seq<Item>, k: nat, s: Source, m: CpuState)
    requires AtItem(items, k, s, m)
    ensures k < |items| && items[k].Code? && s.Valid() && m.Valid() && Intact(items, s.memory)
    ensures Good(items) && m.pc == Addr(items, k)
    ensures m == CpuState(s.memory, s.r, m.pc, s.sp, s.z, s.n, s.input, s.output)
    ensures Exec(m) == ExecInsn(m, FirstWord(items[k].insn))
    ensures HasOperand(items[k].insn) ==>
              && InMemory2(Wrap(m.pc + 2))
              && Load2(m.memory, Wrap(m.pc + 2)) == ValueOf(items, items[k].insn.v)
              && ValueOf(items, items[k].insn.v) == OperandWord(items, k)
    ensures Wrap(m.pc + InsnSize(items[k].insn)) == Wrap(Addr(items, k + 1))
  {
    hide Good, FirstWord, ExecInsn, ValueOf, OperandWord;
    assert CodeAt(items, k, m.memory);
    Fetch(items, k, m.memory);
  }

  lemma SetAgrees(items: seq<Item>, k: nat, s: Source, m: CpuState)
    requires AtItem(items, k, s, m) && items[k].insn.Set?
    ensures Agree(items, InsnMeaning(items, k, s), Exec(m))
  {
    hide AtItem, FirstWord, Field, Intact, Exec, Addr, Wrap, ValueOf, Load2;
    Executes(items, k, s, m);
    Decodes(items[k].insn);
  }

  lemma LoadAgrees(items: seq<Item>, k: nat, s: Source, m: CpuState)
    requires AtItem(items, k, s, m) && (items[k].insn.Load? || items[k].insn.LoadInd?)
    ensures Agree(items, InsnMeaning(items, k, s), Exec(m))
  {
    hide AtItem, FirstWord, Field, Intact, Exec, Addr, Wrap, ValueOf;
    Executes(items, k, s, m);
    Decodes(items[k].insn);
  }

  lemma StoreAgrees(items: seq<Item>, k: nat, s: Source, m: CpuState)
    requires AtItem(items, k, s, m) && (items[k].insn.Store? || items[k].insn.StoreInd?)
    ensures Agree(items, InsnMeaning(items, k, s), Exec(m))
  {
    hide AtItem, FirstWord, Field, Intact, Exec, Addr, Wrap, ValueOf, Write, Store2;
    Executes(items, k, s, m);
    Decodes(items[k].insn);
    var next := s.(idx := k + 1);
    match items[k].insn
    case Store(b, x, v) =>
      var a := ValueOf(items, v);
      if b && HoldsTwice(s.memory, a, Lo(s.r[x])) {
        assert s.memory[a := Lo(s.r[x])] == s.memory == s.memory[a + 1 := Lo(s.r[x])];
      }
      WriteAgrees(items, next, a, s.r[x], b);
    case StoreInd(b, x, y) => WriteAgrees(items, next, s.r[y], s.r[x], b);
  }

  lemma MoveAgrees(items: seq<Item>, k: nat, s: Source, m: CpuState)
    requires AtItem(items, k, s, m) && items[k].insn.Move?
    ensures Agree(items, InsnMeaning(items, k, s), Exec(m))
  {
    hide AtItem, FirstWord, Field, Intact, Exec, Addr, Wrap, ValueOf, Load2;
    Executes(items, k, s, m);
    Decodes(items[k].insn);
  }

  lemma AluAgrees(items: seq<Item>, k: nat, s: Source, m: CpuState)
    requires AtItem(items, k, s, m)
    requires items[k].insn.Alu? || items[k].insn.Cmp? || items[k].insn.Test?
    ensures Agree(items, InsnMeaning(items, k, s), Exec(m))
  {
    hide AtItem, FirstWord, Field, Intact, Exec, Addr, Wrap, ValueOf, Load2, And16, Or16, Xor16, Shr;
    Executes(items, k, s, m);
    Decodes(items[k].insn);
  }

  /** A jump to a label goes to the address of its definition. */
  lemma TargetAgrees(items: seq<Item>, k: nat)
    requires Good(items) && k < |items| && items[k].Code? && HasOperand(items[k].insn)
    ensures var v := items[k].insn.v;
            Target(items, v) >= 0 ==>
              Target(items, v) <= |items| && Wrap(Addr(items, Target(items, v))) == ValueOf(items, v)
  {
  }

  lemma JumpAgrees(items: seq<Item>, k: nat, s: Source, m: CpuState)
    requires AtItem(items, k, s, m) && (items[k].insn.Jmp? || items[k].insn.JmpInd?)
    ensures Agree(items, InsnMeaning(items, k, s), Exec(m))
  {
    hide AtItem, FirstWord, Field, Intact, Exec, Addr, ValueOf, Load2, Target, Good;
    Executes(items, k, s, m);
    Decodes(items[k].insn);
    if items[k].insn.Jmp? {
      TargetAgrees(items, k);
    }
  }

  lemma PushAgrees(items: seq<Item>, s: Source, m: CpuState, w: Word)
    requires s.Valid() && m.Valid() && Intact(items, s.memory)
    requires m == CpuState(s.memory, s.r, m.pc, s.sp, s.z, s.n, s.input, s.output)
    ensures var meaning := PushValue(items, s, w);
            && !meaning.Stops?
            && (meaning.Goes? ==>
                  && Intact(items, meaning.s.memory) && meaning.s.Valid()
                  && meaning.s == s.(sp := meaning.s.sp, memory := meaning.s.memory)
                  && PushWord(m, w) == Next(m.(sp := meaning.s.sp, memory := meaning.s.memory)))
  {
    hide Write, Store2, Intact;
    var sp := Wrap(s.sp - 2);
    WriteAgrees(items, s.(sp := sp), sp, w, false);
  }

  lemma CallAgrees(items: seq<Item>, k: nat, s: Source, m: CpuState)
    requires AtItem(items, k, s, m) && items[k].insn.Call?
    ensures Agree(items, InsnMeaning(items, k, s), Exec(m))
  {
    hide AtItem, FirstWord, Field, Exec, Addr, ValueOf, Load2, Target, Good, Intact, PushWord, PushValue;
    Executes(items, k, s, m);
    Decodes(items[k].insn);
    TargetAgrees(items, k);
    var ret := Wrap(Addr(items, k + 1));
    PushAgrees(items, s, m, ret);
    var meaning := PushValue(items, s, ret);
    if meaning.Goes? {
      OperandStays(items, k, meaning.s.memory, m.pc);
    }
  }

  lemma OperandStays(items: seq<Item>, k: nat, memory: seq<Byte>, pc: Word)
    requires Good(items) && k < |items| && items[k].Code? && HasOperand(items[k].insn) && pc == Addr(items, k)
    requires |memory| == MEMORY_SIZE && Intact(items, memory)
    ensures InMemory2(Wrap(pc + 2))
    ensures Load2(memory, Wrap(pc + 2)) == ValueOf(items, items[k].insn.v)
  {
    hide Good, Load2, Addr, ValueOf, CodeAt, FirstWord, OperandWord;
    assert CodeAt(items, k, memory);
    Fetch(items, k, memory);
  }

  lemma CallRegAgrees(items: seq<Item>, k: nat, s: Source, m: CpuState)
    requires AtItem(items, k, s, m) && items[k].insn.CallInd?
    ensures Agree(items, InsnMeaning(items, k, s), Exec(m))
  {
    hide AtItem, FirstWord, Field, Exec, Addr, ValueOf, Load2, Good, Intact, PushWord, PushValue;
    Executes(items, k, s, m);
    Decodes(items[k].insn);
    PushAgrees(items, s, m, Wrap(Addr(items, k + 1)));
  }

  lemma StackAgrees(items: seq<Item>, k: nat, s: Source, m: CpuState)
    requires AtItem(items, k, s, m) && (items[k].insn.Push? || items[k].insn.Pop? || items[k].insn.Ret?)
    ensures Agree(items, InsnMeaning(items, k, s), Exec(m))
  {
    hide AtItem, FirstWord, Field, Exec, Addr, ValueOf, Good, Intact, PushWord, PushValue;
    Executes(items, k, s, m);
    Decodes(items[k].insn);
    if items[k].insn.Push? {
      PushAgrees(items, s.(idx := k + 1), m, s.r[items[k].insn.rx]);
    }
  }

  lemma OtherAgrees(items: seq<Item>, k: nat, s: Source, m: CpuState)
    requires AtItem(items, k, s, m) && (items[k].insn.In? || items[k].insn.Out? || items[k].insn.Halt?)
    ensures Agree(items, InsnMeaning(items, k, s), Exec(m))
  {
    hide FirstWord, Field, Exec, Addr, ValueOf, Good, Intact, Load2;
    Executes(items, k, s, m);
    Decodes(items[k].insn);
  }

  // ---------------------------------------------------------------------------------------
  // Steps and runs.

  lemma InsnAgrees(items: seq<Item>, k: nat, s: Source, m: CpuState)
    requires AtItem(items, k, s, m)
    ensures Agree(items, InsnMeaning(items, k, s), Exec(m))
  {
    hide InsnMeaning, Exec, Agree;
    match items[k].insn
    case Set(_, _) => SetAgrees(items, k, s, m);
    case Load(_, _, _) => LoadAgrees(items, k, s, m);
    case LoadInd(_, _, _) => LoadAgrees(items, k, s, m);
    case Store(_, _, _) => StoreAgrees(items, k, s, m);
    case StoreInd(_, _, _) => StoreAgrees(items, k, s, m);
    case Move(_, _) => MoveAgrees(items, k, s, m);
    case Alu(_, _, _, _) => AluAgrees(items, k, s, m);
    case Cmp(_, _) => AluAgrees(items, k, s, m);
    case Test(_) => AluAgrees(items, k, s, m);
    case Jmp(_, _) => JumpAgrees(items, k, s, m);
    case JmpInd(_, _) => JumpAgrees(items, k, s, m);
    case Call(_) => CallAgrees(items, k, s, m);
    case CallInd(_) => CallRegAgrees(items, k, s, m);
    case Ret => StackAgrees(items, k, s, m);
    case Push(_) => StackAgrees(items, k, s, m);
    case Pop(_) => StackAgrees(items, k, s, m);
    case In(_) => OtherAgrees(items, k, s, m);
    case Out(_) => OtherAgrees(items, k, s, m);
    case Halt => OtherAgrees(items, k, s, m);
  }

  /** From matching states one call of emulate does what the next instruction of the text means. */
  lemma StepAgrees(items: seq<Item>, s: Source, m: CpuState)
    requires Good(items) && Matches(items, s, m)
    ensures Agree(items, Step(items, s), Exec(m))
  {
    hide InsnMeaning, Exec, Agree, Good, Intact;
    var k := SkipLabels(items, s.idx);
    if k < |items| && items[k].Code? {
      GoodFits(items, k);
      InsnAgrees(items, k, s, m);
    } else {
      WildAgrees(items, s, Exec(m));
    }
  }

  lemma WildAgrees(items: seq<Item>, s: Source, o: Outcome)
    ensures Agree(items, Wild, o)
  {
  }

  /** `n` instructions of the text. */
  ghost function RunText(items: seq<Item>, s: Source, n: nat): Meaning
    requires s.Valid() && s.idx <= |items|
    decreases n
  {
    if n == 0 then Goes(s)
    else match Step(items, s)
         case Goes(s1) => RunText(items, s1, n - 1)
         case other => other
  }

  /** Assembler and emulator together: for any number of steps the machine agrees with the meaning
      of the text, stops when it stops and with the same registers, memory and output. */
  lemma {:induction false} RunAgrees(items: seq<Item>, s: Source, m: CpuState, n: nat)
    requires Good(items) && Matches(items, s, m)
    ensures Agree(items, RunText(items, s, n), RunCpu(m, n))
    decreases n
  {
    hide Good, Exec, Step, Intact;
    if n > 0 {
      StepAgrees(items, s, m);
      match Step(items, s)
      case Goes(s1) => RunAgrees(items, s1, Exec(m).s, n - 1);
      case _ =>
    }
  }

  /** The start of a run: the image loaded at address 0, the text read from its beginning. */
  lemma LoadedMatches(items: seq<Item>, m: CpuState)
    requires Good(items) && m.Valid() && m.pc == 0
    requires Result(items).image <= m.memory
    ensures Matches(items, Source(0, m.memory, m.r, m.sp, m.z, m.n, m.input, m.output), m)
  {
    OnePassIsTwoPass(items);
    forall k: nat | k < |items| && items[k].Code? ensures CodeAt(items, k, m.memory) {
      AddrMonotone(items, k + 1, |items|);
      ImageAt(items, |items|, Final, k);
      assert m.memory[Addr(items, k)..Addr(items, k + 1)]
          == Result(items).image[Addr(items, k)..Addr(items, k + 1)];
    }
  }

  /** From program text to machine: the image the assembler writes, loaded at 0, runs as the text
      means from its first line on. */
  lemma AssembledProgramRuns(items: seq<Item>, m: CpuState, n: nat)
    requires Good(items)
    requires m.Valid() && m.pc == 0 && Result(items).image <= m.memory
    ensures Agree(items,
                  RunText(items, Source(0, m.memory, m.r, m.sp, m.z, m.n, m.input, m.output), n),
                  RunCpu(m, n))
  {
    hide Good, RunText, RunCpu, Agree;
    LoadedMatches(items, m);
    RunAgrees(items, Source(0, m.memory, m.r, m.sp, m.z, m.n, m.input, m.output), m, n);
  }

  /** The absolute byte store is the exception.  At the last address it writes past memory; at any
      other it leaves memory as the text means exactly when both the byte it should write and the one
      it does write hold the value already. */
  lemma AbsoluteByteStoreMisses(s: CpuState, x: Reg, v: Value, a: Word)
    requires s.Valid() && InMemory2(Wrap(s.pc + 2)) && Load2(s.memory, Wrap(s.pc + 2)) == a
    ensures var o := ExecInsn(s, FirstWord(Store(true, x, v)));
            && (o.Next? <==> a != 0xFFFF) && (a == 0xFFFF ==> o.Fault?)
            && (a != 0xFFFF ==>
                  (o.s.memory == s.memory[a := Lo(s.r[x])] <==>
                     s.memory[a] == Lo(s.r[x]) && s.memory[a + 1] == Lo(s.r[x])))
  {
    hide FirstWord, Field, Load2;
    Decodes(Store(true, x, v));
    if a != 0xFFFF {
      var b := Lo(s.r[x]);
      var meant := s.memory[a := b];
      var done := s.memory[a + 1 := b];
      assert meant[a] == b && meant[a + 1] == s.memory[a + 1] && done[a] == s.memory[a] && done[a + 1] == b;
    }
  }

  /** `STORE.B R0 -> 0x0100` with 1 in R0, over empty memory: the text means a 1 at 0x100, and the
      machine puts it at 0x101. */
  lemma AbsoluteByteStoreExample(s: CpuState)
    requires s.Valid() && s.pc == 0 && s.r[0] == 1 && s.memory[2] == 0 && s.memory[3] == 1
    requires s.memory[0x100] == 0 && s.memory[0x101] == 0
    ensures FirstWord(Store(true, 0, Num(0x100))) == 0x3400
    ensures var o := ExecInsn(s, 0x3400);
            o.Next? && o.s.memory[0x100] == 0 && o.s.memory[0x101] == 1
  {
    assert Load2(s.memory, 2) == 0x100;
    assert A(0x3400) == 0;
  }
}
