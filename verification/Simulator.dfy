/** The loop that runs the emulator on an image. */
module Simulator {
  import opened Cpu
  import opened Assembly
  import opened Assembler
  import opened AsmMeaning
  import opened AsmCorrect
  import opened Emulator

  /** How the loop ends.  Complained: the loop compares the program counter with the instruction word
      just fetched, which it takes for the old program counter, and gives up when they are equal. */
  datatype End = HaltedAt | FaultedAt | Complained | OutOfSteps

  /** The j-th call of emulate leaves the program counter at the instruction word it fetched. */
  predicate ComplainsAt(s: CpuState, j: nat)
    requires s.Valid()
  {
    && j > 0 && RunCpu(s, j - 1).Next? && RunCpu(s, j).Next?
    && InMemory2(RunCpu(s, j - 1).s.pc) && Complains(RunCpu(s, j - 1).s, RunCpu(s, j).s)
  }

  /** The loop has made `steps` calls of emulate from `s` and ended as it says in state `after`: at the first
      halt, the first fault or the first complaint, whichever comes, or at the limit. */
  ghost predicate Ended(s: CpuState, steps: nat, limit: nat, end: End, after: CpuState)
    requires s.Valid()
  {
    && (forall j: nat :: j < steps ==> !ComplainsAt(s, j))
    && match end
       case HaltedAt => RunCpu(s, steps) == Outcome.Halt(after)
       case FaultedAt => RunCpu(s, steps) == Fault
       case OutOfSteps => steps == limit && RunCpu(s, steps) == Next(after) && !ComplainsAt(s, steps)
       case Complained => RunCpu(s, steps) == Next(after) && ComplainsAt(s, steps)
  }

  ghost function OutcomeOf(end: End, after: CpuState): Outcome {
    match end
    case HaltedAt => Outcome.Halt(after)
    case FaultedAt => Fault
    case _ => Next(after)
  }

  lemma {:induction false} RunCpuOneMore(s: CpuState, n: nat)
    requires s.Valid()
    ensures RunCpu(s, n + 1) == match RunCpu(s, n) case Next(s1) => Exec(s1) case other => other
    decreases n
  {
    hide Exec;
    if n > 0 {
      match Exec(s)
      case Next(s1) => RunCpuOneMore(s1, n - 1);
      case _ =>
    }
  }

  /** The loop of main, for at most `limit` turns. */
  method Simulate(m: Machine, limit: nat) returns (end: End, steps: nat)
    requires m.Valid()
    modifies m, m.memory, m.r
    ensures steps <= limit && Ended(old(m.State()), steps, limit, end, m.State())
  {
    hide Exec, RunCpu, Cpu.Load2;
    ghost var start := m.State();
    RunCpuNone(start);
    steps := 0;
    while steps < limit
      invariant 0 <= steps <= limit
      invariant RunCpu(start, steps) == Next(m.State())
      invariant forall j: nat :: j <= steps ==> !ComplainsAt(start, j)
    {
      RunCpuOneMore(start, steps);
      if !InMemory2(m.pc) {
        FetchFaults(m.State());
        return FaultedAt, steps + 1;
      }
      var word := m.Load2(m.pc);
      ghost var before := m.State();
      var status := m.Emulate();
      steps := steps + 1;
      if status == Faulted {
        return FaultedAt, steps;
      }
      if status == Halted {
        return HaltedAt, steps;
      }
      if word == m.pc {
        return Complained, steps;
      }
    }
    return OutOfSteps, steps;
  }

  lemma RunCpuNone(s: CpuState)
    requires s.Valid()
    ensures RunCpu(s, 0) == Next(s)
  {
  }

  lemma FetchFaults(s: CpuState)
    requires s.Valid() && !InMemory2(s.pc)
    ensures Exec(s) == Fault
  {
  }

  /** The text at its beginning, on the machine as it is. */
  function AtStart(s: CpuState): Source {
    Source(0, s.memory, s.r, s.sp, s.z, s.n, s.input, s.output)
  }

  /** Running the image of a program: after as many steps as the loop made, registers, memory and
      output are what the program text means. */
  method RunImage(ghost items: seq<Item>, m: Machine, limit: nat) returns (end: End, steps: nat)
    requires Good(items)
    requires m.Valid() && m.pc == 0 && Result(items).image <= m.memory[..]
    modifies m, m.memory, m.r
    ensures steps <= limit && Ended(old(m.State()), steps, limit, end, m.State())
    ensures Agree(items, RunText(items, AtStart(old(m.State())), steps), OutcomeOf(end, m.State()))
  {
    hide Good, RunText, RunCpu, Agree, Cpu.Load2;
    ghost var start := m.State();
    end, steps := Simulate(m, limit);
    AssembledProgramRuns(items, start, steps);
  }

  // ---------------------------------------------------------------------------------------
  // The complaint.

  /** What the loop tests after a call of emulate. */
  predicate Complains(s: CpuState, s1: CpuState)
    requires s.Valid() && InMemory2(s.pc)
  {
    Load2(s.memory, s.pc) == s1.pc
  }

  /** The complaint says that the program counter did not change.  It comes when it should, and only
      then, if the instruction word is the address it stands at, or the new program counter is
      neither of the two; and in no other case. */
  lemma ComplaintIsRight(s: CpuState)
    requires s.Valid() && Exec(s).Next?
    ensures InMemory2(s.pc)
    ensures var s1, word := Exec(s).s, Load2(s.memory, s.pc);
            (Complains(s, s1) <==> s1.pc == s.pc) <==> word == s.pc || s1.pc !in {word, s.pc}
  {
  }

  /** `JMP 0` at address 0 never gets on, and is not noticed. */
  lemma UnnoticedLoop(s: CpuState)
    requires s.Valid() && s.pc == 0
    requires s.memory[0] == 0 && s.memory[1] == 0x60 && s.memory[2] == 0 && s.memory[3] == 0
    ensures Exec(s).Next? && Exec(s).s.pc == s.pc && !Complains(s, Exec(s).s)
  {
    assert Load2(s.memory, 0) == 0x6000 && Load2(s.memory, 2) == 0;
    assert Op(0x6000) == 0;
  }

  /** `MOVE R0 -> R0` at address 0x3FFE goes on to 0x4000, which is its own word, and is complained of. */
  lemma WrongComplaint(s: CpuState)
    requires s.Valid() && s.pc == 0x3FFE && s.memory[0x3FFE] == 0 && s.memory[0x3FFF] == 0x40
    ensures Exec(s).Next? && Exec(s).s.pc != s.pc && Complains(s, Exec(s).s)
  {
    assert Load2(s.memory, 0x3FFE) == 0x4000;
  }
}
