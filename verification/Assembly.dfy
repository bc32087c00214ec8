/** Assembly programs after pattern matching, their encoding and their layout. */
module Assembly {
  import opened Cpu

  type Reg = x: int | 0 <= x < 8
  type RegSp = x: int | 0 <= x < 9           // 8 is SP

  datatype Value = Num(n: nat) | Label(name: string)

  datatype AluOp = ADD | SUB | AND | OR | XOR | RSHIFT
  datatype Cond = Always | Z | NZ | LT | GT | LE | GE

  datatype Insn =
    | Set(rx: Reg, v: Value)
    | Load(isByte: bool, rx: Reg, v: Value)
    | LoadInd(isByte: bool, ra: Reg, rb: Reg)
    | Store(isByte: bool, rx: Reg, v: Value)
    | StoreInd(isByte: bool, ra: Reg, rb: Reg)
    | Move(rs: RegSp, rd: RegSp)
    | Alu(op: AluOp, ra: Reg, rb: Reg, rc: Reg)
    | Cmp(ra: Reg, rb: Reg)
    | Test(ra: Reg)
    | Jmp(cond: Cond, v: Value)
    | JmpInd(cond: Cond, rx: Reg)
    | Call(v: Value)
    | CallInd(rx: Reg)
    | Ret
    | Halt
    | Push(rx: Reg)
    | Pop(rx: Reg)
    | In(rx: Reg)
    | Out(rx: Reg)

  /** One line: a label, an instruction, or a WORDS or BYTES directive. */
  datatype Item = Define(name: string) | Code(insn: Insn) | Words(ws: seq<nat>) | Bytes(bs: seq<nat>)

  function ByteBit(isByte: bool): int {
    if isByte then 0x400 else 0
  }

  function AluCode(op: AluOp): int {
    match op
    case ADD => 0 case SUB => 1 case AND => 2 case OR => 3 case XOR => 4 case RSHIFT => 5
  }

  function CondCode(c: Cond): int {
    match c
    case Always => 0 case Z => 1 case NZ => 2 case LT => 3 case GT => 4 case LE => 5 case GE => 6
  }

  /** The first word of an instruction. */
  function FirstWord(i: Insn): Word {
    match i
    case Set(r, _) => 0x1000 + r
    case Load(b, r, _) => 0x2000 + ByteBit(b) + r
    case LoadInd(b, ra, rb) => 0x2800 + ByteBit(b) + 8 * rb + ra
    case Store(b, r, _) => 0x3000 + ByteBit(b) + r
    case StoreInd(b, ra, rb) => 0x3800 + ByteBit(b) + 8 * rb + ra
    case Move(s, d) => 0x4000 + 16 * d + s
    case Alu(op, a, b, c) => 0x5000 + 512 * AluCode(op) + 64 * c + 8 * b + a
    case Cmp(a, b) => 0x5C00 + 8 * b + a
    case Test(a) => 0x5E00 + a
    case Jmp(c, _) => 0x6000 + 512 * CondCode(c)
    case JmpInd(c, r) => 0x7000 + 512 * CondCode(c) + r
    case Call(_) => 0x8000
    case CallInd(r) => 0x9000 + r
    case Ret => 0xA000
    case Halt => 0xF000
    case Push(r) => 0xB000 + r
    case Pop(r) => 0xC000 + r
    case In(r) => 0xD000 + r
    case Out(r) => 0xE000 + r
  }

  predicate HasOperand(i: Insn) {
    i.Set? || i.Load? || i.Store? || i.Jmp? || i.Call?
  }

  function InsnSize(i: Insn): nat {
    if HasOperand(i) then 4 else 2
  }

  function Size(item: Item): nat {
    match item
    case Define(_) => 0
    case Code(i) => InsnSize(i)
    case Words(ws) => 2 * |ws|
    case Bytes(bs) => |bs|
  }

  /** The address of item `k`, when the items before it are laid out one after the other. */
  function Addr(items: seq<Item>, k: nat): nat
    requires k <= |items|
  {
    if k == 0 then 0 else Addr(items, k - 1) + Size(items[k - 1])
  }

  // ---------------------------------------------------------------------------------------
  // Labels.

  /** The last definition of a label among the first `k` items. */
  function LastDef(items: seq<Item>, k: nat, name: string): (d: int)
    requires k <= |items|
    ensures -1 <= d < k
    ensures d >= 0 ==> items[d] == Define(name)
    ensures forall j :: d < j < k ==> items[j] != Define(name)
  {
    if k == 0 then -1
    else if items[k - 1] == Define(name) then k - 1
    else LastDef(items, k - 1, name)
  }

  predicate Defined(items: seq<Item>, name: string) {
    LastDef(items, |items|, name) >= 0
  }

  /** The address a label finally has. */
  function LabelAddr(items: seq<Item>, name: string): nat {
    if Defined(items, name) then Addr(items, LastDef(items, |items|, name)) else 0
  }

  /** How item `k` resolves a label.  Draft: to the definition already seen, or 0.  Seen: to the
      definition already seen, or else the one that is final.  Final: to the one that is final. */
  datatype Resolution = Draft | Seen | Final

  function Resolve(items: seq<Item>, k: nat, how: Resolution, name: string): nat
    requires k <= |items|
  {
    var seen := LastDef(items, k, name);
    if how != Final && seen >= 0 then Addr(items, seen)
    else if how == Draft then 0
    else LabelAddr(items, name)
  }

  // ---------------------------------------------------------------------------------------
  // Images.  A cell of the assembler's memory list can hold more than a byte: the upper part of
  // a number above 0xFFFF is not masked.

  function Cells(n: nat): seq<nat> {
    [n % 0x100, n / 0x100]
  }

  function WordCells(ws: seq<nat>): (c: seq<nat>)
    ensures |c| == 2 * |ws|
  {
    if ws == [] then [] else Cells(ws[0] % 0x1_0000) + WordCells(ws[1..])
  }

  function ByteCells(bs: seq<nat>): seq<nat> {
    seq(|bs|, i requires 0 <= i < |bs| => bs[i] % 0x100)
  }

  function Operand(items: seq<Item>, k: nat, how: Resolution): nat
    requires k < |items| && items[k].Code? && HasOperand(items[k].insn)
  {
    match items[k].insn.v
    case Num(n) => n
    case Label(name) => Resolve(items, k, how, name)
  }

  function ItemCells(items: seq<Item>, k: nat, how: Resolution): (c: seq<nat>)
    requires k < |items|
    ensures |c| == Size(items[k])
  {
    match items[k]
    case Define(_) => []
    case Code(i) =>
      if HasOperand(i) then Cells(FirstWord(i)) + Cells(Operand(items, k, how)) else Cells(FirstWord(i))
    case Words(ws) => WordCells(ws)
    case Bytes(bs) => ByteCells(bs)
  }

  /** The image of the first `k` items. */
  function Image(items: seq<Item>, k: nat, how: Resolution): (c: seq<nat>)
    requires k <= |items|
    ensures |c| == Addr(items, k)
  {
    if k == 0 then [] else Image(items, k - 1, how) + ItemCells(items, k - 1, how)
  }

  /** The naive assembler: lay everything out first, then encode. */
  function TwoPassImage(items: seq<Item>): seq<nat> {
    Image(items, |items|, Final)
  }

  /** What the one-pass assembler is shown to produce. */
  function OnePassImage(items: seq<Item>): seq<nat> {
    Image(items, |items|, Seen)
  }
}
