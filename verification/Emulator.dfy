/** The emulator itself: it updates the registers and the memory array in place, and takes words
    apart with masks and shifts. */
module Emulator {
  import opened Cpu
  import Bits

  /** What a call of emulate ends with.  Faulted: C leaves the rest undefined. */
  datatype Status = Running | Halted | Faulted

  ghost predicate Did(o: Outcome, status: Status, after: CpuState) {
    match o
    case Next(s) => status == Running && after == s
    case Halt(s) => status == Halted && after == s
    case Fault => status == Faulted
  }

  // ---------------------------------------------------------------------------------------
  // Masks and shifts.  Each is computed on a vector of bits; what it amounts to in quotients and
  // remainders is its contract.

  /** memory[addr] | (memory[addr+1] << 8) */
  function Joined(lo: Byte, hi: Byte): (w: Word)
    ensures w == lo as int + 0x100 * (hi as int)
  {
    hide *;
    Bits.ByteSame(lo);
    Bits.ByteSame(hi);
    Bits.JoinBytesIs(lo as bv8, hi as bv8);
    Bits.JoinBytes(lo as bv8, hi as bv8) as int
  }

  /** data & 0xFF */
  function LowByte(data: Word): (b: Byte)
    ensures b == data % 0x100
  {
    hide *;
    Bits.Same(data);
    Bits.Bytes(data as bv16);
    Bits.LowByte(data as bv16)
  }

  /** (data >> 8) & 0xFF */
  function ByteAbove(data: Word): (b: Byte)
    ensures b == data / 0x100
  {
    hide *;
    Bits.Same(data);
    Bits.Bytes(data as bv16);
    Bits.ByteAbove(data as bv16)
  }

  /** (res & 0x8000) != 0 */
  predicate Negative(res: Word)
    ensures Negative(res) <==> res >= 0x8000
  {
    hide *;
    Bits.Same(res);
    Bits.SignBit(res as bv16);
    Bits.Negative(res as bv16)
  }

  /** The variables an instruction word is taken apart into. */
  datatype Decoded = Decoded(
    opcode: int, op: int, a: int, b: int, c: int, isIndirect: bool, isByte: bool, kind: int, aluOp: int,
    from: int, to: int)

  function Decode(insn: Word): (d: Decoded)
    ensures d.opcode == 0x1000 * (insn / 0x1000) && d.kind == insn / 0x100
    ensures d.op == Op(insn) && d.aluOp == 0x200 * Op(insn) && 0 <= d.op < 8
    ensures d.a == A(insn) && d.b == B(insn) && d.c == C(insn) && 0 <= d.a < 8 && 0 <= d.b < 8 && 0 <= d.c < 8
    ensures (d.isIndirect <==> insn / 0x800 % 2 == 1) && (d.isByte <==> insn / 0x400 % 2 == 1)
    ensures d.from == insn % 16 && d.to == insn / 16 % 16
  {
    hide *;
    var w := insn as bv16;
    Bits.Same(insn);
    Bits.Fields(w);
    Bits.Bytes(w);
    Bits.MoveFields(w);
    FieldsOf(insn);
    Decoded(Bits.Opcode(w), Bits.FieldOp(w), Bits.FieldA(w), Bits.FieldB(w), Bits.FieldC(w), Bits.Indirect(w),
            Bits.ByteForm(w), Bits.HighByte(w), Bits.AluOp(w), Bits.MoveFrom(w), Bits.MoveTo(w))
  }

  lemma FieldsOf(w: Word)
    ensures A(w) == w % 8 && B(w) == w / 8 % 8 && C(w) == w / 64 % 8 && Op(w) == w / 512 % 8
  {
  }

  class Machine {
    const memory: array<Byte>
    const r: array<Word>
    var pc: Word
    var sp: Word
    var z: int
    var n: int
    var input: seq<Byte>
    var output: seq<Byte>

    constructor (memory: array<Byte>, pc: Word, sp: Word, z: int, n: int, input: seq<Byte>)
      requires memory.Length == MEMORY_SIZE
      ensures Valid() && fresh(r) && this.memory == memory
      ensures State() == CpuState(memory[..], [0, 0, 0, 0, 0, 0, 0, 0], pc, sp, z, n, input, [])
    {
      this.memory := memory;
      r := new Word[8](_ => 0);
      this.pc, this.sp, this.z, this.n, this.input, output := pc, sp, z, n, input, [];
    }

    ghost predicate Valid() {
      memory.Length == MEMORY_SIZE && r.Length == 8
    }

    ghost function State(): (s: CpuState)
      requires Valid()
      reads this, memory, r
      ensures s.Valid()
    {
      CpuState(memory[..], r[..], pc, sp, z, n, input, output)
    }

    /** load2 */
    method Load2(a: Word) returns (w: Word)
      requires Valid() && InMemory2(a)
      ensures w == Cpu.Load2(memory[..], a)
    {
      hide Joined;
      w := Joined(memory[a], memory[a + 1]);
    }

    /** store2 */
    method Store2(data: Word, a: Word)
      requires Valid() && InMemory2(a)
      modifies memory
      ensures State() == old(State()).(memory := Cpu.Store2(old(memory[..]), data, a))
    {
      hide LowByte, ByteAbove;
      memory[a] := LowByte(data);
      memory[a + 1] := ByteAbove(data);
      assert r[..] == old(r[..]);
    }

    method StoreByte(b: Byte, a: int)
      requires Valid() && 0 <= a < MEMORY_SIZE
      modifies memory
      ensures State() == old(State()).(memory := old(memory[..])[a := b])
    {
      memory[a] := b;
    }

    method WriteReg(i: int, v: Word)
      requires Valid() && 0 <= i < 8
      modifies r
      ensures State() == SetReg(old(State()), i, v)
    {
      r[i] := v;
    }

    method Skip(bytes: int)
      requires Valid()
      modifies this`pc
      ensures State() == Advance(old(State()), bytes)
    {
      pc := (pc + bytes) % 0x1_0000;
    }

    method SetFlags(res: Word)
      requires Valid()
      modifies this`z, this`n
      ensures State() == Flags(old(State()), res)
    {
      hide Negative;
      if res == 0 {
        z := 1;
      } else {
        z := 0;
      }
      if Negative(res) {
        n := 1;
      } else {
        n := 0;
      }
    }

    method EmulateLoad(insn: Word) returns (status: Status)
      requires Valid()
      modifies this`pc, r
      ensures Did(ExecLoad(old(State()), insn), status, State())
    {
      hide Field, Decode, Cpu.Load2;
      var d := Decode(insn);
      var a, b := d.a, d.b;
      if !d.isIndirect && !d.isByte {
        var at := Wrap(pc + 2);
        if !InMemory2(at) {
          return Faulted;
        }
        var valFromAddr := Load2(at);
        if !InMemory2(valFromAddr) {
          return Faulted;
        }
        var v := Load2(valFromAddr);
        WriteReg(a, v);
        Skip(4);
      } else if d.isByte && !d.isIndirect {
        var at := Wrap(pc + 2);
        if !InMemory2(at) {
          return Faulted;
        }
        var valFromAddr := Load2(at);
        WriteReg(a, memory[valFromAddr]);
        Skip(4);
      } else if !d.isByte && d.isIndirect {
        if !InMemory2(r[b]) {
          return Faulted;
        }
        var v := Load2(r[b]);
        WriteReg(a, v);
        Skip(2);
      } else {
        WriteReg(a, memory[r[b]]);
        Skip(2);
      }
      return Running;
    }

    method EmulateStore(insn: Word) returns (status: Status)
      requires Valid()
      modifies this`pc, memory
      ensures Did(ExecStore(old(State()), insn), status, State())
    {
      hide Field, Decode, LowByte, Cpu.Load2, Cpu.Store2;
      var d := Decode(insn);
      var a, b := d.a, d.b;
      var rVal := r[a];
      if d.kind == 0x30 {
        var at := Wrap(pc + 2);
        if !InMemory2(at) {
          return Faulted;
        }
        var addrVal := Load2(at);
        if !InMemory2(addrVal) {
          return Faulted;
        }
        Store2(rVal, addrVal);
        Skip(4);
      } else if d.kind == 0x34 {
        var at := Wrap(pc + 2);
        if !InMemory2(at) {
          return Faulted;
        }
        var addrVal := Load2(at);
        if !InMemory2(addrVal) {
          return Faulted;
        }
        StoreByte(LowByte(rVal), addrVal + 1);
        Skip(4);
      } else if d.kind == 0x3C {
        var addressToLoadInto := r[b];
        StoreByte(LowByte(rVal), addressToLoadInto);
        Skip(2);
      } else {
        var addressToLoadInto := r[b];
        if !InMemory2(addressToLoadInto) {
          return Faulted;
        }
        Store2(rVal, addressToLoadInto);
        Skip(2);
      }
      return Running;
    }

    method EmulateMove(insn: Word) returns (status: Status)
      requires Valid()
      modifies this`pc, this`sp, r
      ensures Did(ExecMove(old(State()), insn), status, State())
    {
      hide Field, Decode;
      var d := Decode(insn);
      var from, to := d.from, d.to;
      if to == 8 {
        if from >= 8 {
          return Faulted;
        }
        sp := r[from];
      } else if to > 8 {
        return Faulted;
      } else if from == 8 {
        WriteReg(to, sp);
      } else {
        if from > 8 {
          return Faulted;
        }
        WriteReg(to, r[from]);
      }
      Skip(2);
      return Running;
    }

    /** The result goes to register `c`, and sets the flags. */
    method SetResult(c: int, res: Word)
      requires Valid() && 0 <= c < 8
      modifies this`z, this`n, r
      ensures State() == Flags(SetReg(old(State()), c, res), res)
    {
      WriteReg(c, res);
      SetFlags(res);
    }

    method EmulateAlu(insn: Word) returns (status: Status)
      requires Valid()
      modifies this`pc, this`z, this`n, r
      ensures Did(ExecAlu(old(State()), insn), status, State())
    {
      hide Field, Decode, Shr, And16, Or16, Xor16;
      var d := Decode(insn);
      var a, b, c := d.a, d.b, d.c;
      var aluOp := d.aluOp;
      if aluOp == 0x0200 {
        var res := Wrap(r[a] as int - r[b] as int);
        SetResult(c, res);
      } else if aluOp == 0x0400 {
        var res := And16(r[a], r[b]);
        SetResult(c, res);
      } else if aluOp == 0x0600 {
        var res := Or16(r[a], r[b]);
        SetResult(c, res);
      } else if aluOp == 0x0800 {
        var res := Xor16(r[a], r[b]);
        SetResult(c, res);
      } else if aluOp == 0x0A00 {
        if r[b] >= 32 {
          return Faulted;
        }
        var res := Shr(r[a], r[b]);
        SetResult(c, res);
      } else if aluOp == 0x0C00 {
        var res := Wrap(r[a] as int - r[b] as int);
        SetFlags(res);
      } else if aluOp == 0x0E00 {
        var res := r[a];
        SetFlags(res);
      } else {
        var res := Wrap(r[a] as int + r[b] as int);
        SetResult(c, res);
      }
      Skip(2);
      return Running;
    }

    /** PC = load2(cpu, cpu->PC + 2) */
    method LoadPc() returns (status: Status)
      requires Valid()
      modifies this`pc
      ensures var s := old(State()); var at := Wrap(s.pc + 2);
              if InMemory2(at) then status == Running && State() == s.(pc := Cpu.Load2(s.memory, at))
              else status == Faulted
    {
      var at := Wrap(pc + 2);
      if !InMemory2(at) {
        return Faulted;
      }
      pc := Load2(at);
      return Running;
    }

    method EmulateJump(insn: Word) returns (status: Status)
      requires Valid()
      modifies this`pc
      ensures Did(ExecJump(old(State()), insn), status, State())
    {
      hide Field, Decode, Cpu.Load2;
      var d := Decode(insn);
      var opVal := d.op;
      if opVal >= 7 {
        return Halted;
      }
      status := Running;
      if opVal == 0 {
        status := LoadPc();
      } else if opVal == 1 {
        if z == 1 {
          status := LoadPc();
        } else {
          Skip(4);
        }
      } else if opVal == 2 {
        if z == 0 {
          status := LoadPc();
        } else {
          Skip(4);
        }
      } else if opVal == 3 {
        if n == 1 {
          status := LoadPc();
        } else {
          Skip(4);
        }
      } else if opVal == 4 {
        if n == 0 && z == 0 {
          status := LoadPc();
        } else {
          Skip(4);
        }
      } else if opVal == 5 {
        if n == 1 || z == 1 {
          status := LoadPc();
        } else {
          Skip(4);
        }
      } else {
        if n == 0 {
          status := LoadPc();
        } else {
          Skip(4);
        }
      }
    }

    method EmulateJumpReg(insn: Word) returns (status: Status)
      requires Valid()
      modifies this`pc
      ensures Did(ExecJumpReg(old(State()), insn), status, State())
    {
      hide Field, Decode;
      var d := Decode(insn);
      var opVal, a := d.op, d.a;
      if opVal >= 7 {
        return Halted;
      }
      if opVal == 0 {
        pc := r[a];
      } else if opVal == 1 {
        if z == 1 {
          pc := r[a];
        } else {
          Skip(2);
        }
      } else if opVal == 2 {
        if z == 0 {
          pc := r[a];
        } else {
          Skip(2);
        }
      } else if opVal == 3 {
        if n == 1 {
          pc := r[a];
        } else {
          Skip(2);
        }
      } else if opVal == 4 {
        if n == 0 && z == 0 {
          pc := r[a];
        } else {
          Skip(2);
        }
      } else if opVal == 5 {
        if n == 1 || z == 1 {
          pc := r[a];
        } else {
          Skip(2);
        }
      } else {
        if n == 0 {
          pc := r[a];
        } else {
          Skip(2);
        }
      }
      return Running;
    }

    method PushWord(w: Word) returns (status: Status)
      requires Valid()
      modifies this`sp, memory
      ensures Did(Cpu.PushWord(old(State()), w), status, State())
    {
      sp := Wrap(sp - 2);
      if !InMemory2(sp) {
        return Faulted;
      }
      Store2(w, sp);
      return Running;
    }

    method EmulateCall(insn: Word) returns (status: Status)
      requires Valid()
      modifies this`pc, this`sp, memory
      ensures Did(ExecCall(old(State()), insn), status, State())
    {
      status := PushWord(Wrap(pc + 4));
      if status == Running {
        var at := Wrap(pc + 2);
        if !InMemory2(at) {
          return Faulted;
        }
        pc := Load2(at);
      }
    }

    method EmulateCallReg(insn: Word) returns (status: Status)
      requires Valid()
      modifies this`pc, this`sp, memory
      ensures Did(ExecCallReg(old(State()), insn), status, State())
    {
      hide Field, Decode;
      var d := Decode(insn);
      status := PushWord(Wrap(pc + 2));
      if status == Running {
        pc := r[d.a];
      }
    }

    method EmulateRet(insn: Word) returns (status: Status)
      requires Valid()
      modifies this`pc, this`sp
      ensures Did(ExecRet(old(State()), insn), status, State())
    {
      if !InMemory2(sp) {
        return Faulted;
      }
      pc := Load2(sp);
      sp := Wrap(sp + 2);
      return Running;
    }

    method EmulatePush(insn: Word) returns (status: Status)
      requires Valid()
      modifies this`pc, this`sp, memory
      ensures Did(ExecPush(old(State()), insn), status, State())
    {
      hide Field, Decode;
      var d := Decode(insn);
      status := PushWord(r[d.a]);
      if status == Running {
        Skip(2);
      }
    }

    method EmulatePop(insn: Word) returns (status: Status)
      requires Valid()
      modifies this`pc, this`sp, r
      ensures Did(ExecPop(old(State()), insn), status, State())
    {
      hide Field, Decode, Cpu.Load2;
      var d := Decode(insn);
      if !InMemory2(sp) {
        return Faulted;
      }
      var res := Load2(sp);
      WriteReg(d.a, res);
      sp := Wrap(sp + 2);
      Skip(2);
      return Running;
    }

    method EmulateIn(insn: Word) returns (status: Status)
      requires Valid()
      modifies this`pc, this`input, r
      ensures Did(ExecIn(old(State()), insn), status, State())
    {
      hide Field, Decode;
      var d := Decode(insn);
      if input == [] {
        WriteReg(d.a, 0xFFFF);
      } else {
        WriteReg(d.a, input[0]);
        input := input[1..];
      }
      Skip(2);
      return Running;
    }

    method EmulateOut(insn: Word) returns (status: Status)
      requires Valid()
      modifies this`pc, this`output
      ensures Did(ExecOut(old(State()), insn), status, State())
    {
      hide Field, Decode, LowByte;
      var d := Decode(insn);
      output := output + [LowByte(r[d.a])];
      Skip(2);
      return Running;
    }

    method EmulateSet(insn: Word) returns (status: Status)
      requires Valid()
      modifies this`pc, r
      ensures Did(ExecSet(old(State()), insn), status, State())
    {
      hide Field, Decode, Cpu.Load2;
      var d := Decode(insn);
      var at := Wrap(pc + 2);
      if !InMemory2(at) {
        return Faulted;
      }
      var v := Load2(at);
      WriteReg(d.a, v);
      Skip(4);
      return Running;
    }

    /** emulate */
    method Emulate() returns (status: Status)
      requires Valid()
      modifies this, memory, r
      ensures Did(Exec(old(State())), status, State())
    {
      hide Field, Decode, Wrap, Cpu.Load2, ExecSet, ExecLoad, ExecStore, ExecMove, ExecAlu, ExecJump, ExecJumpReg,
           ExecCall, ExecCallReg, ExecRet, ExecPush, ExecPop, ExecIn, ExecOut;
      if !InMemory2(pc) {
        return Faulted;
      }
      var insn := Load2(pc);
      var opcode := Decode(insn).opcode;
      if opcode == 0x1000 {
        status := EmulateSet(insn);
      } else if opcode == 0x2000 {
        status := EmulateLoad(insn);
      } else if opcode == 0x3000 {
        status := EmulateStore(insn);
      } else if opcode == 0x4000 {
        status := EmulateMove(insn);
      } else if opcode == 0x5000 {
        status := EmulateAlu(insn);
      } else if opcode == 0x6000 {
        status := EmulateJump(insn);
      } else if opcode == 0x7000 {
        status := EmulateJumpReg(insn);
      } else if opcode == 0x8000 {
        status := EmulateCall(insn);
      } else if opcode == 0x9000 {
        status := EmulateCallReg(insn);
      } else if opcode == 0xA000 {
        status := EmulateRet(insn);
      } else if opcode == 0xB000 {
        status := EmulatePush(insn);
      } else if opcode == 0xC000 {
        status := EmulatePop(insn);
      } else if opcode == 0xD000 {
        status := EmulateIn(insn);
      } else if opcode == 0xE000 {
        status := EmulateOut(insn);
      } else {
        status := Halted;
      }
    }
  }
}
