/** What an assembly program means before it is assembled: control is a place in the program text
    and jumps go to labels; only indirect jumps and returns speak of addresses. */
module AsmMeaning {
  import opened Cpu
  import opened Assembly

  /** `idx` is the item to go on with. */
  datatype Source = Source(
    idx: nat, memory: seq<Byte>, r: seq<Word>, sp: Word, z: int, n: int,
    input: seq<Byte>, output: seq<Byte>)
  {
    ghost predicate Valid() {
      |memory| == MEMORY_SIZE && |r| == 8
    }
  }

  /** Wild is where the program text stops giving a meaning: control runs into data, off the end or
      to an address inside an item, a store hits code, a byte is stored to an address given in the text
      and would land elsewhere, or C leaves the operation undefined. */
  datatype Meaning = Goes(s: Source) | Stops(s: Source) | Wild

  /** Labels, and directives that emit nothing, are passed over. */
  function SkipLabels(items: seq<Item>, k: nat): (j: nat)
    requires k <= |items|
    ensures k <= j <= |items| && (j < |items| ==> Size(items[j]) > 0)
    ensures Addr(items, j) == Addr(items, k)
    decreases |items| - k
  {
    if k < |items| && Size(items[k]) == 0 then SkipLabels(items, k + 1) else k
  }

  /** The item that starts at an address, the first one if several do. */
  function Landing(items: seq<Item>, k: nat, a: nat): (j: int)
    requires k <= |items|
    ensures j >= 0 ==> j <= |items| && Addr(items, j) == a
    decreases |items| - k
  {
    if Addr(items, k) == a then k else if k < |items| then Landing(items, k + 1, a) else -1
  }

  ghost predicate IsCode(items: seq<Item>, a: int) {
    exists k: nat :: k < |items| && items[k].Code? && Addr(items, k) <= a < Addr(items, k + 1)
  }

  function ValueOf(items: seq<Item>, v: Value): Word {
    match v
    case Num(n) => Wrap(n)
    case Label(name) => Wrap(LabelAddr(items, name))
  }

  function Target(items: seq<Item>, v: Value): int {
    match v
    case Num(n) => Landing(items, 0, n)
    case Label(name) => LastDef(items, |items|, name)
  }

  /** Reading a byte, or a word stored low byte first. */
  function Read(memory: seq<Byte>, a: Word, isByte: bool): (w: (bool, Word))
    requires |memory| == MEMORY_SIZE
  {
    if isByte then (true, memory[a])
    else if a + 1 >= MEMORY_SIZE then (false, 0)
    else (true, memory[a] as int + 0x100 * (memory[a + 1] as int))
  }

  ghost function Write(items: seq<Item>, s: Source, a: Word, w: Word, isByte: bool): (m: Meaning)
    requires s.Valid()
    ensures m.Goes? ==> m.s.Valid() && m.s.idx == s.idx
  {
    if IsCode(items, a) then Wild
    else if isByte then Goes(s.(memory := s.memory[a := w % 0x100]))
    else if a + 1 >= MEMORY_SIZE || IsCode(items, a + 1) then Wild
    else Goes(s.(memory := s.memory[a := w % 0x100][a + 1 := w / 0x100]))
  }

  function Holds(c: Cond, z: int, n: int): bool {
    match c
    case Always => true
    case Z => z == 1
    case NZ => z == 0
    case LT => n == 1
    case GT => n == 0 && z == 0
    case LE => n == 1 || z == 1
    case GE => n == 0
  }

  function Compute(op: AluOp, x: Word, y: Word): Word {
    match op
    case ADD => Wrap(x + y)
    case SUB => Wrap(x - y)
    case AND => And16(x, y)
    case OR => Or16(x, y)
    case XOR => Xor16(x, y)
    case RSHIFT => Shr(x, y)
  }

  function Sign(s: Source, w: Word): Source {
    s.(z := if w == 0 then 1 else 0, n := if w >= 0x8000 then 1 else 0)
  }

  function GoTo(items: seq<Item>, s: Source, j: int): Meaning {
    if !(0 <= j <= |items|) then Wild else Goes(s.(idx := j))
  }

  ghost function PushValue(items: seq<Item>, s: Source, w: Word): (m: Meaning)
    requires s.Valid()
    ensures m.Goes? ==> m.s.Valid() && m.s.idx == s.idx
  {
    var sp := Wrap(s.sp - 2);
    Write(items, s.(sp := sp), sp, w, false)
  }

  /** Both the byte at `a` and the one behind it are `b`.  Only then does the processor, which writes
      the one behind, carry out a store of the byte `b` to the address `a` given in the text. */
  predicate HoldsTwice(memory: seq<Byte>, a: Word, b: int)
    requires |memory| == MEMORY_SIZE
  {
    a + 1 < MEMORY_SIZE && memory[a] == memory[a + 1] == b
  }

  /** The meaning of the instruction at item `k`. */
  ghost function InsnMeaning(items: seq<Item>, k: nat, s: Source): (m: Meaning)
    requires k < |items| && items[k].Code? && s.Valid()
    ensures m.Goes? ==> m.s.Valid() && m.s.idx <= |items|
  {
    var next := s.(idx := k + 1);
    match items[k].insn
    case Set(x, v) => Goes(next.(r := s.r[x := ValueOf(items, v)]))
    case Load(b, x, v) =>
      var w := Read(s.memory, ValueOf(items, v), b);
      if w.0 then Goes(next.(r := s.r[x := w.1])) else Wild
    case LoadInd(b, x, y) =>
      var w := Read(s.memory, s.r[y], b);
      if w.0 then Goes(next.(r := s.r[x := w.1])) else Wild
    case Store(b, x, v) =>
      if b && !HoldsTwice(s.memory, ValueOf(items, v), s.r[x] % 0x100) then Wild
      else Write(items, next, ValueOf(items, v), s.r[x], b)
    case StoreInd(b, x, y) => Write(items, next, s.r[y], s.r[x], b)
    case Move(from, to) =>
      if to == 8 then if from == 8 then Wild else Goes(next.(sp := s.r[from]))
      else Goes(next.(r := s.r[to := if from == 8 then s.sp else s.r[from]]))
    case Alu(op, x, y, to) =>
      if op == RSHIFT && s.r[y] >= 32 then Wild
      else
        var w := Compute(op, s.r[x], s.r[y]);
        Goes(Sign(next.(r := s.r[to := w]), w))
    case Cmp(x, y) => Goes(Sign(next, Compute(SUB, s.r[x], s.r[y])))
    case Test(x) => Goes(Sign(next, s.r[x]))
    case Jmp(c, v) => if Holds(c, s.z, s.n) then GoTo(items, s, Target(items, v)) else Goes(next)
    case JmpInd(c, x) => if Holds(c, s.z, s.n) then GoTo(items, s, Landing(items, 0, s.r[x])) else Goes(next)
    case Call(v) =>
      (match PushValue(items, s, Wrap(Addr(items, k + 1)))
       case Goes(s1) => GoTo(items, s1, Target(items, v))
       case other => other)
    case CallInd(x) =>
      (match PushValue(items, s, Wrap(Addr(items, k + 1)))
       case Goes(s1) => GoTo(items, s1, Landing(items, 0, s.r[x]))
       case other => other)
    case Ret =>
      var w := Read(s.memory, s.sp, false);
      if w.0 then GoTo(items, s.(sp := Wrap(s.sp + 2)), Landing(items, 0, w.1)) else Wild
    case Halt => Stops(s)
    case Push(x) => PushValue(items, next, s.r[x])
    case Pop(x) =>
      var w := Read(s.memory, s.sp, false);
      if w.0 then Goes(next.(r := s.r[x := w.1], sp := Wrap(s.sp + 2))) else Wild
    case In(x) =>
      if s.input == [] then Goes(next.(r := s.r[x := 0xFFFF]))
      else Goes(next.(r := s.r[x := s.input[0]], input := s.input[1..]))
    case Out(x) => Goes(next.(output := s.output + [s.r[x] % 0x100]))
  }

  ghost function Step(items: seq<Item>, s: Source): (m: Meaning)
    requires s.Valid() && s.idx <= |items|
    ensures m.Goes? ==> m.s.Valid() && m.s.idx <= |items|
  {
    var k := SkipLabels(items, s.idx);
    if k < |items| && items[k].Code? then InsnMeaning(items, k, s) else Wild
  }

  // ---------------------------------------------------------------------------------------
  // Where the text has no meaning.

  /** A store to `a` would hit code, or end outside memory. */
  ghost predicate Unstorable(items: seq<Item>, a: int, isByte: bool) {
    IsCode(items, a) || (!isByte && (a == 0xFFFF || IsCode(items, a + 1)))
  }

  /** No item starts at the address. */
  predicate NoItemAt(items: seq<Item>, a: int) {
    forall k: nat :: k <= |items| ==> Addr(items, k) != a
  }

  predicate NoTarget(items: seq<Item>, v: Value) {
    match v
    case Num(n) => NoItemAt(items, n)
    case Label(name) => forall k: nat :: k < |items| ==> items[k] != Define(name)
  }

  /** The places where an instruction has none. */
  ghost predicate Meaningless(items: seq<Item>, i: Insn, s: Source)
    requires s.Valid()
  {
    var slot := (s.sp as int - 2) % 0x1_0000;
    match i
    case Load(b, _, v) => !b && ValueOf(items, v) == 0xFFFF
    case LoadInd(b, _, y) => !b && s.r[y] == 0xFFFF
    case Store(b, x, v) =>
      Unstorable(items, ValueOf(items, v), b) || (b && !HoldsTwice(s.memory, ValueOf(items, v), s.r[x] % 0x100))
    case StoreInd(b, _, y) => Unstorable(items, s.r[y], b)
    case Move(from, to) => from == 8 && to == 8
    case Alu(op, _, y, _) => op == RSHIFT && s.r[y] >= 32
    case Jmp(c, v) => Holds(c, s.z, s.n) && NoTarget(items, v)
    case JmpInd(c, x) => Holds(c, s.z, s.n) && NoItemAt(items, s.r[x])
    case Call(v) => Unstorable(items, slot, false) || NoTarget(items, v)
    case CallInd(x) => Unstorable(items, slot, false) || NoItemAt(items, s.r[x])
    case Ret =>
      s.sp == 0xFFFF || NoItemAt(items, s.memory[s.sp] as int + 0x100 * (s.memory[s.sp + 1] as int))
    case Push(_) => Unstorable(items, slot, false)
    case Pop(_) => s.sp == 0xFFFF
    case _ => false
  }

  lemma {:induction false} LandingFinds(items: seq<Item>, k: nat, a: nat)
    requires k <= |items|
    ensures Landing(items, k, a) < 0 ==> forall j: nat :: k <= j <= |items| ==> Addr(items, j) != a
    decreases |items| - k
  {
    hide Addr;
    if Landing(items, k, a) < 0 && k < |items| {
      LandingFinds(items, k + 1, a);
      forall j: nat | k <= j <= |items| ensures Addr(items, j) != a {
        if j > k {
          assert k + 1 <= j;
        }
      }
    }
  }

  lemma NoItemIs(items: seq<Item>, a: nat)
    ensures Landing(items, 0, a) < 0 <==> NoItemAt(items, a)
  {
    hide Addr;
    LandingFinds(items, 0, a);
    var j := Landing(items, 0, a);
    if j >= 0 {
      assert Addr(items, j) == a;
    }
  }

  lemma TargetFinds(items: seq<Item>, v: Value)
    ensures Target(items, v) < 0 <==> NoTarget(items, v)
    ensures Target(items, v) <= |items|
  {
    hide Addr, Landing, NoItemAt;
    match v
    case Num(n) => NoItemIs(items, n);
    case Label(name) =>
      var d := LastDef(items, |items|, name);
      assert d >= 0 ==> items[d] == Define(name);
  }

  /** Everywhere else it has one. */
  lemma MeaningExactly(items: seq<Item>, k: nat, s: Source)
    requires k < |items| && items[k].Code? && s.Valid()
    ensures InsnMeaning(items, k, s).Wild? <==> Meaningless(items, items[k].insn, s)
    ensures InsnMeaning(items, k, s).Stops? <==> items[k].insn == Insn.Halt
  {
    hide Landing, Target, ValueOf, IsCode, NoTarget, NoItemAt, HoldsTwice, Compute, Addr;
    match items[k].insn
    case Jmp(_, v) => TargetFinds(items, v);
    case JmpInd(_, x) => NoItemIs(items, s.r[x]);
    case Call(v) => TargetFinds(items, v);
    case CallInd(x) => NoItemIs(items, s.r[x]);
    case Ret =>
      if s.sp != 0xFFFF {
        NoItemIs(items, s.memory[s.sp] as int + 0x100 * (s.memory[s.sp + 1] as int));
      }
    case _ =>
  }
}
