/** The disassembler's lengths, and its sweep over an image. */
module Disasm {
  import opened Cpu
  import opened Assembly
  import opened Assembler
  import opened AsmCorrect
  import CpuLaws

  /** The number of bytes `disasm` says it has consumed. */
  function Length(insn: Word): (n: int)
    ensures n == 2 || n == 4
  {
    var opcode := insn / 0x1000;
    if opcode == 1 || opcode == 6 || opcode == 8 then 4
    else if (opcode == 2 || opcode == 3) && insn / 0x800 % 2 == 0 then 4
    else 2
  }

  // ---------------------------------------------------------------------------------------
  // Lengths against the emulator.

  /** Control leaves the straight line. */
  predicate Diverts(s: CpuState, insn: Word) {
    var opcode := insn / 0x1000;
    opcode == 8 || opcode == 9 || opcode == 10
    || ((opcode == 6 || opcode == 7) && Taken(Op(insn), s.z, s.n))
  }

  /** A STORE with a stray bit 8 or 9: the emulator, which looks at the whole high byte, takes it for
      the register form. */
  predicate StrayStore(insn: Word) {
    insn / 0x1000 == 3 && insn / 0x800 % 2 == 0 && insn / 0x100 != 0x30 && insn / 0x100 != 0x34
  }

  /** For every one of the 65536 words: the emulator moves on by the length the disassembler gives,
      except over a stray STORE. */
  lemma LengthIsAdvance(s: CpuState, insn: Word)
    requires s.Valid() && ExecInsn(s, insn).Next? && !Diverts(s, insn)
    ensures ExecInsn(s, insn).s.pc == Wrap(s.pc + Length(insn)) <==> !StrayStore(insn)
  {
    hide Load2, Store2, Field, AluResult;
    StoreKinds(insn);
    WrapsDiffer(s.pc);
  }

  /** 0x3100 is such a word: four bytes to the disassembler, two to the emulator. */
  lemma StrayStoreExample(s: CpuState)
    requires s.Valid() && InMemory2(s.r[0])
    ensures StrayStore(0x3100) && Length(0x3100) == 4
    ensures ExecInsn(s, 0x3100).Next? && ExecInsn(s, 0x3100).s.pc == Wrap(s.pc + 2) != Wrap(s.pc + 4)
  {
    assert A(0x3100) == 0 && B(0x3100) == 0;
    WrapsDiffer(s.pc);
  }

  lemma StoreKinds(insn: Word)
    ensures insn / 0x1000 == 3 && insn / 0x800 % 2 == 1 ==> insn / 0x100 != 0x30 && insn / 0x100 != 0x34
  {
  }

  lemma WrapsDiffer(x: Word)
    ensures Wrap(x + 2) != Wrap(x + 4)
  {
  }

  /** A call pushes the address after the instruction, as the disassembler counts it. */
  lemma CallPushesNext(s: CpuState, insn: Word)
    requires s.Valid() && (insn / 0x1000 == 8 || insn / 0x1000 == 9) && ExecInsn(s, insn).Next?
    ensures var s1 := ExecInsn(s, insn).s;
            InMemory2(s1.sp) && Load2(s1.memory, s1.sp) == Wrap(s.pc + Length(insn))
  {
    var sp := Wrap(s.sp - 2);
    StoreThenLoad(s.memory, Wrap(s.pc + Length(insn)), sp);
  }

  /** Words survive memory. */
  lemma StoreThenLoad(memory: seq<Byte>, w: Word, a: Word)
    requires |memory| == MEMORY_SIZE
    ensures InMemory2(a) ==> Load2(Store2(memory, w, a), a) == w
  {
  }

  lemma EncodedLength(i: Insn)
    ensures Length(FirstWord(i)) == InsnSize(i) && !StrayStore(FirstWord(i))
    ensures FirstWord(i) == 0xF000 <==> i == Insn.Halt
  {
    hide FirstWord, Field;
    Decodes(i);
    if i == Insn.Halt {
      HaltWord();
    } else {
      assert FirstWord(i) / 0x1000 != 15;
    }
  }

  /** For any word that is an instruction to the processor, the length is that of the instruction, unless the
      word is a stray STORE. */
  lemma LengthOfAnyWord(w: Word)
    requires CpuLaws.ReadingOf(w).Reads?
    ensures Length(w) == InsnSize(CpuLaws.ReadingOf(w).i) <==> !StrayStore(w)
  {
    StoreKinds(w);
  }

  lemma HaltWord()
    ensures FirstWord(Insn.Halt) == 0xF000
  {
  }

  // ---------------------------------------------------------------------------------------
  // The sweep.

  /** The offsets main disassembles, and whether it then reads past its buffer. */
  datatype Swept = Swept(visited: seq<nat>, overran: bool)

  function Prepend(offset: nat, rest: Swept): Swept {
    rest.(visited := [offset] + rest.visited)
  }

  /** main reads the word at `offset` and the one after it, at a 16-bit address: at the last byte the
      first, and two bytes before it the second, leaves the buffer. */
  predicate ReadsPast(offset: nat) {
    offset + 1 == MEMORY_SIZE || (offset + 2) % 0x1_0000 + 1 == MEMORY_SIZE
  }

  /** The sweep goes up to the end, or to the first HALT. */
  function SweepFrom(memory: seq<Byte>, offset: nat, len: nat): Swept
    requires |memory| == MEMORY_SIZE && len <= MEMORY_SIZE
    decreases len - offset
  {
    if offset >= len then Swept([], false)
    else if ReadsPast(offset) then Swept([], true)
    else
      var insn := Load2(memory, offset);
      Prepend(offset, if insn == 0xF000 then Swept([], false) else SweepFrom(memory, offset + Length(insn), len))
  }

  function Join(visited: seq<nat>, rest: Swept): Swept {
    rest.(visited := visited + rest.visited)
  }

  /** The first loop of main.  What C leaves undefined ends it. */
  method Sweep(memory: array<Byte>, len: nat) returns (visited: seq<nat>, overran: bool)
    requires memory.Length == MEMORY_SIZE && len <= MEMORY_SIZE
    ensures Swept(visited, overran) == SweepFrom(memory[..], 0, len)
  {
    hide Load2, Length, SweepFrom;
    ghost var image := memory[..];
    visited := [];
    var offset := 0;
    while offset < len
      invariant SweepFrom(image, 0, len) == Join(visited, SweepFrom(image, offset, len))
      decreases len - offset
    {
      SweepStep(image, offset, len);
      var nextAt := (offset + 2) % 0x1_0000;
      if !InMemory2(offset) || !InMemory2(nextAt) {
        return visited, true;
      }
      var insn := LoadWord(memory, offset);
      var next := LoadWord(memory, nextAt);
      visited := visited + [offset];
      offset := offset + Length(insn);
      if insn == 0xF000 {
        return visited, false;
      }
    }
    SweepEnds(image, offset, len);
    return visited, false;
  }

  lemma SweepStep(memory: seq<Byte>, offset: nat, len: nat)
    requires |memory| == MEMORY_SIZE && offset < len <= MEMORY_SIZE
    ensures ReadsPast(offset) ==> SweepFrom(memory, offset, len) == Swept([], true)
    ensures !ReadsPast(offset) ==>
              var insn := Load2(memory, offset);
              SweepFrom(memory, offset, len)
              == Prepend(offset, if insn == 0xF000 then Swept([], false) else SweepFrom(memory, offset + Length(insn), len))
  {
  }

  lemma SweepEnds(memory: seq<Byte>, offset: nat, len: nat)
    requires |memory| == MEMORY_SIZE && len <= MEMORY_SIZE && offset >= len
    ensures SweepFrom(memory, offset, len) == Swept([], false)
  {
  }

  method LoadWord(memory: array<Byte>, a: Word) returns (w: Word)
    requires memory.Length == MEMORY_SIZE && InMemory2(a)
    ensures w == Load2(memory[..], a)
  {
    w := (memory[a] as int) + 0x100 * (memory[a + 1] as int);
  }

  /** The addresses of the instructions from item `k` to the first HALT. */
  function CodeAddrs(items: seq<Item>, k: nat): seq<nat>
    requires k <= |items|
    decreases |items| - k
  {
    if k == |items| then []
    else match items[k]
         case Code(i) => [Addr(items, k)] + if i == Insn.Halt then [] else CodeAddrs(items, k + 1)
         case _ => CodeAddrs(items, k + 1)
  }

  /** From item `k` to the first HALT there are only instructions and labels; any data comes after. */
  predicate CodeFirst(items: seq<Item>, k: nat)
    requires k <= |items|
    decreases |items| - k
  {
    k == |items|
    || (items[k].Define? && CodeFirst(items, k + 1))
    || (items[k].Code? && (items[k].insn == Insn.Halt || CodeFirst(items, k + 1)))
  }

  /** The sweep over the image of a program visits exactly the addresses at which its instructions
      were emitted, in order, up to the first HALT; and it stays inside its buffer if and only if
      none of them is three bytes before the end of memory. */
  lemma {:induction false} SweepVisitsCode(items: seq<Item>, k: nat, memory: seq<Byte>)
    requires Good(items) && k <= |items| && CodeFirst(items, k)
    requires |memory| == MEMORY_SIZE && Result(items).image <= memory
    ensures var r := SweepFrom(memory, Addr(items, k), Addr(items, |items|));
            && r.visited <= CodeAddrs(items, k)
            && (r.overran <==> 0xFFFD in CodeAddrs(items, k))
            && (!r.overran ==> r.visited == CodeAddrs(items, k))
    decreases |items| - k
  {
    hide Good, Load2, SweepFrom, Addr, Size;
    GoodLength(items);
    if k == |items| {
      SweepEnds(memory, Addr(items, k), Addr(items, |items|));
    } else if items[k].Define? {
      NextAddr(items, k);
      SweepVisitsCode(items, k + 1, memory);
    } else {
      SweepsOne(items, k, memory);
      if items[k].insn != Insn.Halt {
        SweepVisitsCode(items, k + 1, memory);
      }
    }
  }

  lemma NextAddr(items: seq<Item>, k: nat)
    requires k < |items| && items[k].Define?
    ensures Addr(items, k + 1) == Addr(items, k)
  {
  }

  /** At an instruction the sweep visits its address and goes on behind it. */
  lemma SweepsOne(items: seq<Item>, k: nat, memory: seq<Byte>)
    requires Good(items) && k < |items| && items[k].Code? && Addr(items, |items|) <= MEMORY_SIZE
    requires |memory| == MEMORY_SIZE && Result(items).image <= memory
    ensures var a, len := Addr(items, k), Addr(items, |items|);
            SweepFrom(memory, a, len) ==
              if a == 0xFFFD then Swept([], true)
              else Prepend(a, if items[k].insn == Insn.Halt then Swept([], false)
                              else SweepFrom(memory, Addr(items, k + 1), len))
  {
    hide Good, Load2, FirstWord, Length, SweepFrom, Result;
    AddrMonotone(items, k + 1, |items|);
    LoadedCode(items, k, memory);
    Fetch(items, k, memory);
    EncodedLength(items[k].insn);
    SweepStep(memory, Addr(items, k), Addr(items, |items|));
  }

  lemma GoodLength(items: seq<Item>)
    requires Good(items)
    ensures Addr(items, |items|) <= MEMORY_SIZE
  {
  }

  lemma LoadedCode(items: seq<Item>, k: nat, memory: seq<Byte>)
    requires Good(items) && k < |items| && |memory| == MEMORY_SIZE && Result(items).image <= memory
    ensures CodeAt(items, k, memory)
    ensures Addr(items, |items|) <= MEMORY_SIZE
  {
    hide ItemCells, NoLateRedefinition;
    OnePassIsTwoPass(items);
    AddrMonotone(items, k + 1, |items|);
    ImageAt(items, |items|, Final, k);
    assert memory[Addr(items, k)..Addr(items, k + 1)]
        == Result(items).image[Addr(items, k)..Addr(items, k + 1)];
  }
}
