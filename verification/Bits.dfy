/** The masks and shifts of the emulator on 16-bit vectors, and the quotients and remainders that the
    rest of the model writes for them.

    A word is taken apart into short vectors of bits and put together again; that the parts are in
    place is a fact about vectors, that they add up one about integers. */
module Bits {

  // ---------------------------------------------------------------------------------------
  // The expressions of the program.

  /** insn & 0xF000 */
  function Opcode(insn: bv16): int { (insn & 0xF000) as int }

  /** (insn >> 9) & 7 */
  function FieldOp(insn: bv16): int { ((insn >> 9) & 7) as int }

  /** (insn >> 6) & 7 */
  function FieldC(insn: bv16): int { ((insn >> 6) & 7) as int }

  /** (insn >> 3) & 7 */
  function FieldB(insn: bv16): int { ((insn >> 3) & 7) as int }

  /** insn & 7 */
  function FieldA(insn: bv16): int { (insn & 7) as int }

  /** (insn & 0x0800) != 0 */
  predicate Indirect(insn: bv16) { insn & 0x0800 != 0 }

  /** (insn & 0x0400) != 0 */
  predicate ByteForm(insn: bv16) { insn & 0x0400 != 0 }

  /** insn & 0x0E00 */
  function AluOp(insn: bv16): int { (insn & 0x0E00) as int }

  /** (insn & 0xFF00) >> 8 */
  function HighByte(insn: bv16): int { ((insn & 0xFF00) >> 8) as int }

  /** (data >> 8) & 0xFF */
  function ByteAbove(data: bv16): int { ((data >> 8) & 0xFF) as int }

  /** data & 0xFF */
  function LowByte(data: bv16): int { (data & 0xFF) as int }

  /** insn & 0x0F */
  function MoveFrom(insn: bv16): int { (insn & 0x0F) as int }

  /** (insn >> 4) & 0x0F */
  function MoveTo(insn: bv16): int { ((insn >> 4) & 0x0F) as int }

  /** (res & 0x8000) != 0 */
  predicate Negative(res: bv16) { res & 0x8000 != 0 }

  /** memory[addr] | (memory[addr+1] << 8) */
  function JoinBytes(lo: bv8, hi: bv8): bv16 { (lo as bv16) | ((hi as bv16) << 8) }

  // ---------------------------------------------------------------------------------------
  // Bytes.

  lemma NibbleSame(b: int)
    requires 0 <= b < 0x10
    ensures (b as bv4) as int == b
  {
    hide *;
  }

  lemma NibblesAddUp(lo: bv4, hi: bv4)
    ensures ((lo as bv8) | ((hi as bv8) << 4)) as int == lo as int + 0x10 * (hi as int)
  {
    hide *;
  }

  lemma BackByte(x: bv8)
    ensures (x as int) as bv8 == x
  {
    hide *;
  }

  lemma AsByte(b: int) returns (w: bv8)
    requires 0 <= b < 0x100
    ensures w as int == b
  {
    hide *;
    var lo, hi := (b % 0x10) as bv4, (b / 0x10) as bv4;
    NibbleSame(b % 0x10);
    NibbleSame(b / 0x10);
    NibblesAddUp(lo, hi);
    w := (lo as bv8) | ((hi as bv8) << 4);
  }

  lemma ByteSame(b: int)
    requires 0 <= b < 0x100
    ensures (b as bv8) as int == b
  {
    hide *;
    var w := AsByte(b);
    BackByte(w);
  }

  lemma Back(x: bv16)
    ensures (x as int) as bv16 == x
  {
  }

  lemma BytesAddUp(lo: bv8, hi: bv8)
    ensures ((lo as bv16) | ((hi as bv16) << 8)) as int == lo as int + 0x100 * (hi as int)
  {
    hide *;
  }

  lemma JoinBytesUnfolds(lo: bv8, hi: bv8)
    ensures JoinBytes(lo, hi) == (lo as bv16) | ((hi as bv16) << 8)
  {
  }

  lemma JoinBytesIs(lo: bv8, hi: bv8)
    ensures JoinBytes(lo, hi) as int == lo as int + 0x100 * (hi as int)
  {
    hide *;
    BytesAddUp(lo, hi);
    JoinBytesUnfolds(lo, hi);
  }

  lemma AsVector(x: int) returns (w: bv16)
    requires 0 <= x < 0x1_0000
    ensures w as int == x
  {
    hide *;
    var lo, hi := (x % 0x100) as bv8, (x / 0x100) as bv8;
    ByteSame(x % 0x100);
    ByteSame(x / 0x100);
    JoinBytesIs(lo, hi);
    w := JoinBytes(lo, hi);
  }

  /** A word keeps its value on the way through a vector. */
  lemma Same(x: int)
    requires 0 <= x < 0x1_0000
    ensures (x as bv16) as int == x
  {
    hide *;
    var w := AsVector(x);
    Back(w);
  }

  lemma SplitBytes(w: bv16) returns (lo: bv8, hi: bv8)
    ensures w == JoinBytes(lo, hi)
  {
    lo, hi := (w & 0xFF) as bv8, (w >> 8) as bv8;
  }

  lemma BytesOfJoin(lo: bv8, hi: bv8)
    ensures var w := JoinBytes(lo, hi);
            LowByte(w) == lo as int && ByteAbove(w) == HighByte(w) == hi as int
  {
  }

  lemma Bytes(w: bv16)
    ensures LowByte(w) == w as int % 0x100 && ByteAbove(w) == HighByte(w) == w as int / 0x100
  {
    hide *;
    var lo, hi := SplitBytes(w);
    BytesOfJoin(lo, hi);
    JoinBytesIs(lo, hi);
  }

  // ---------------------------------------------------------------------------------------
  // The fields of an instruction.

  function Join(t: bv4, i: bv1, y: bv1, k: bv1, c: bv3, b: bv3, a: bv3): bv16 {
    ((t as bv16) << 12) | ((i as bv16) << 11) | ((y as bv16) << 10) | ((k as bv16) << 9)
    | ((c as bv16) << 6) | ((b as bv16) << 3) | (a as bv16)
  }

  lemma JoinAddsUp(t: bv4, i: bv1, y: bv1, k: bv1, c: bv3, b: bv3, a: bv3)
    ensures (((t as bv16) << 12) | ((i as bv16) << 11) | ((y as bv16) << 10) | ((k as bv16) << 9)
             | ((c as bv16) << 6) | ((b as bv16) << 3) | (a as bv16)) as int
         == 0x1000 * (t as int) + 0x800 * (i as int) + 0x400 * (y as int) + 0x200 * (k as int)
            + 64 * (c as int) + 8 * (b as int) + a as int
  {
    hide *;
  }

  lemma JoinIs(t: bv4, i: bv1, y: bv1, k: bv1, c: bv3, b: bv3, a: bv3)
    ensures Join(t, i, y, k, c, b, a)
         == ((t as bv16) << 12) | ((i as bv16) << 11) | ((y as bv16) << 10) | ((k as bv16) << 9)
            | ((c as bv16) << 6) | ((b as bv16) << 3) | (a as bv16)
  {
  }

  lemma Split(w: bv16) returns (t: bv4, i: bv1, y: bv1, k: bv1, c: bv3, b: bv3, a: bv3)
    ensures w == Join(t, i, y, k, c, b, a)
  {
    t, i, y, k := (w >> 12) as bv4, ((w >> 11) & 1) as bv1, ((w >> 10) & 1) as bv1, ((w >> 9) & 1) as bv1;
    c, b, a := ((w >> 6) & 7) as bv3, ((w >> 3) & 7) as bv3, (w & 7) as bv3;
  }

  lemma FieldsOfJoin(t: bv4, i: bv1, y: bv1, k: bv1, c: bv3, b: bv3, a: bv3)
    ensures var w := Join(t, i, y, k, c, b, a);
            && FieldC(w) == c as int && FieldB(w) == b as int && FieldA(w) == a as int
            && (Indirect(w) <==> i == 1) && (ByteForm(w) <==> y == 1)
  {
  }

  lemma OpsOfJoin(t: bv4, i: bv1, y: bv1, k: bv1, c: bv3, b: bv3, a: bv3)
    ensures var w := Join(t, i, y, k, c, b, a);
            && Opcode(w) == 0x1000 * (t as int)
            && FieldOp(w) == 4 * (i as int) + 2 * (y as int) + k as int
            && AluOp(w) == 0x800 * (i as int) + 0x400 * (y as int) + 0x200 * (k as int)
  {
  }

  lemma Digits(w: int, t: int, i: int, y: int, k: int, c: int, b: int, a: int)
    requires 0 <= t < 16 && 0 <= i < 2 && 0 <= y < 2 && 0 <= k < 2 && 0 <= c < 8 && 0 <= b < 8 && 0 <= a < 8
    requires w == 0x1000 * t + 0x800 * i + 0x400 * y + 0x200 * k + 64 * c + 8 * b + a
    ensures w / 0x1000 == t && w / 0x800 % 2 == i && w / 0x400 % 2 == y
    ensures w / 512 % 8 == 4 * i + 2 * y + k && w / 64 % 8 == c && w / 8 % 8 == b && w % 8 == a
  {
    hide *;
    var op := 4 * i + 2 * y + k;
    var w1 := 512 * t + 64 * op + 8 * c + b;
    var w2 := 64 * t + 8 * op + c;
    var w3 := 8 * t + op;
    assert w / 8 == w1 && w % 8 == a;
    assert w / 64 == w2;
    assert w / 512 == w3;
    assert w3 / 2 == 4 * t + 2 * i + y && w / 0x400 == 4 * t + 2 * i + y;
    assert w / 0x800 == 2 * t + i;
    assert w1 % 8 == b && w2 % 8 == c && w3 % 8 == op;
  }

  /** What each mask and shift takes out of a word. */
  lemma Fields(w: bv16)
    ensures Opcode(w) == 0x1000 * (w as int / 0x1000)
    ensures FieldOp(w) == w as int / 512 % 8 && AluOp(w) == 512 * (w as int / 512 % 8)
    ensures FieldC(w) == w as int / 64 % 8 && FieldB(w) == w as int / 8 % 8 && FieldA(w) == w as int % 8
    ensures (Indirect(w) <==> w as int / 0x800 % 2 == 1) && (ByteForm(w) <==> w as int / 0x400 % 2 == 1)
  {
    hide *;
    var t, i, y, k, c, b, a := Split(w);
    JoinAddsUp(t, i, y, k, c, b, a);
    JoinIs(t, i, y, k, c, b, a);
    FieldsOfJoin(t, i, y, k, c, b, a);
    OpsOfJoin(t, i, y, k, c, b, a);
    Digits(w as int, t as int, i as int, y as int, k as int, c as int, b as int, a as int);
    OneBit(i);
    OneBit(y);
  }

  lemma OneBit(b: bv1)
    ensures b == 1 <==> b as int == 1
  {
  }

  // ---------------------------------------------------------------------------------------
  // The register numbers of MOVE, and the sign.

  function JoinMove(rest: bv8, to: bv4, from: bv4): bv16 {
    ((rest as bv16) << 8) | ((to as bv16) << 4) | (from as bv16)
  }

  lemma MoveAddsUp(rest: bv8, to: bv4, from: bv4)
    ensures (((rest as bv16) << 8) | ((to as bv16) << 4) | (from as bv16)) as int
         == 0x100 * (rest as int) + 16 * (to as int) + from as int
  {
    hide *;
  }

  lemma JoinMoveIs(rest: bv8, to: bv4, from: bv4)
    ensures JoinMove(rest, to, from) == ((rest as bv16) << 8) | ((to as bv16) << 4) | (from as bv16)
  {
  }

  lemma SplitMove(w: bv16) returns (rest: bv8, to: bv4, from: bv4)
    ensures w == JoinMove(rest, to, from)
  {
    rest, to, from := (w >> 8) as bv8, ((w >> 4) & 0x0F) as bv4, (w & 0x0F) as bv4;
  }

  lemma FieldsOfMove(rest: bv8, to: bv4, from: bv4)
    ensures var w := JoinMove(rest, to, from); MoveFrom(w) == from as int && MoveTo(w) == to as int
  {
  }

  lemma MoveFields(w: bv16)
    ensures MoveFrom(w) == w as int % 16 && MoveTo(w) == w as int / 16 % 16
  {
    hide *;
    var rest, to, from := SplitMove(w);
    MoveAddsUp(rest, to, from);
    JoinMoveIs(rest, to, from);
    FieldsOfMove(rest, to, from);
    assert w as int / 16 == 16 * (rest as int) + to as int;
  }

  lemma SignBit(res: bv16)
    ensures Negative(res) <==> res as int >= 0x8000
  {
  }

  // ---------------------------------------------------------------------------------------
  // Halving, for laws that go bit by bit.

  function JoinBit(h: bv15, b: bv1): bv16 {
    ((h as bv16) << 1) | (b as bv16)
  }

  lemma BitAddsUp(h: bv15, b: bv1)
    ensures (((h as bv16) << 1) | (b as bv16)) as int == 2 * (h as int) + b as int
  {
    hide *;
  }

  lemma JoinBitIs(h: bv15, b: bv1)
    ensures JoinBit(h, b) == ((h as bv16) << 1) | (b as bv16)
  {
  }

  lemma SplitBit(w: bv16) returns (h: bv15, b: bv1)
    ensures w == JoinBit(h, b)
  {
    h, b := (w >> 1) as bv15, (w & 1) as bv1;
  }

  function Half(w: bv16): bv16 { w >> 1 }
  function LowBit(w: bv16): int { (w & 1) as int }

  lemma HalfOfJoin(h: bv15, b: bv1)
    ensures Half(JoinBit(h, b)) as int == h as int && LowBit(JoinBit(h, b)) == b as int
  {
    hide *;
    PartsOfJoin(h, b);
    Widen15(h);
    LowBitIs(JoinBit(h, b), b);
  }

  lemma PartsOfJoin(h: bv15, b: bv1)
    ensures Half(JoinBit(h, b)) == h as bv16 && JoinBit(h, b) & 1 == b as bv16
  {
  }

  lemma Widen15(h: bv15)
    ensures (h as bv16) as int == h as int
  {
  }

  lemma LowBitIs(w: bv16, b: bv1)
    requires w & 1 == b as bv16
    ensures LowBit(w) == b as int
  {
  }

  lemma Halves(w: bv16)
    ensures Half(w) as int == w as int / 2 && LowBit(w) == w as int % 2
  {
    hide *;
    var h, b := SplitBit(w);
    BitAddsUp(h, b);
    JoinBitIs(h, b);
    HalfOfJoin(h, b);
  }

  function Vector(x: int): bv16
    requires 0 <= x < 0x1_0000
  {
    x as bv16
  }

  lemma VectorIs(x: int)
    requires 0 <= x < 0x1_0000
    ensures Vector(x) as int == x
  {
    Same(x);
  }

  lemma HalfAgain(x: int)
    requires 0 <= x < 0x1_0000
    ensures Vector(x / 2) == Half(Vector(x))
  {
    hide *;
    VectorIs(x);
    Halves(Vector(x));
    HalfBack(x / 2, Half(Vector(x)));
  }

  lemma HalfBack(x: int, w: bv16)
    requires 0 <= x < 0x1_0000 && w as int == x
    ensures Vector(x) == w
  {
    Back(w);
  }

  function Conj(x: bv16, y: bv16): bv16 { x & y }
  function Disj(x: bv16, y: bv16): bv16 { x | y }
  function Excl(x: bv16, y: bv16): bv16 { x ^ y }

  /** A bit of a conjunction is the product of the bits. */
  lemma AndOfHalves(x: bv16, y: bv16)
    ensures Half(Conj(x, y)) == Conj(Half(x), Half(y)) && LowBit(Conj(x, y)) == LowBit(x) * LowBit(y)
  {
    AndLow(x, y);
  }

  lemma AndLow(x: bv16, y: bv16)
    ensures x & y & 1 == 1 <==> x & 1 == 1 && y & 1 == 1
    ensures x & 1 == 0 || x & 1 == 1
    ensures y & 1 == 0 || y & 1 == 1
    ensures x & y & 1 == 0 || x & y & 1 == 1
  {
  }

  lemma HalfOfDisj(x: bv16, y: bv16)
    ensures Half(Disj(x, y)) == Disj(Half(x), Half(y))
  {
  }

  /** A bit of a disjunction is 1 if either is. */
  lemma OrOfHalves(x: bv16, y: bv16)
    ensures Half(Disj(x, y)) == Disj(Half(x), Half(y))
    ensures LowBit(Disj(x, y)) == if LowBit(x) == 1 || LowBit(y) == 1 then 1 else 0
  {
    hide Half;
    HalfOfDisj(x, y);
    OrLow(x, y);
  }

  lemma OrLow(x: bv16, y: bv16)
    ensures (x | y) & 1 == 1 <==> x & 1 == 1 || y & 1 == 1
    ensures x & 1 == 0 || x & 1 == 1
    ensures y & 1 == 0 || y & 1 == 1
    ensures (x | y) & 1 == 0 || (x | y) & 1 == 1
  {
  }

  /** A bit of an exclusive disjunction is 1 if the bits differ. */
  lemma XorOfHalves(x: bv16, y: bv16)
    ensures Half(Excl(x, y)) == Excl(Half(x), Half(y))
    ensures LowBit(Excl(x, y)) == if LowBit(x) != LowBit(y) then 1 else 0
  {
    XorLow(x, y);
  }

  lemma XorLow(x: bv16, y: bv16)
    ensures (x ^ y) & 1 == 1 <==> x & 1 != y & 1
    ensures x & 1 == 0 || x & 1 == 1
    ensures y & 1 == 0 || y & 1 == 1
    ensures (x ^ y) & 1 == 0 || (x ^ y) & 1 == 1
  {
  }
}
