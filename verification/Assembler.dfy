/** The one-pass assembler: it emits code as it reads, leaves 0 for labels it has not seen, and
    fills those in at the end. */
module Assembler {
  import opened Cpu
  import opened Assembly

  datatype Fixup = Fixup(name: string, loc: nat)

  /** What a run ends with: an image, or the exception it stops at. */
  datatype Assembled =
    | Assembled(image: seq<Byte>)
    | TooBig                              // IndexError: past the end of the memory list
    | UndefinedLabel                      // KeyError in the fixup pass
    | NotAByte                            // ValueError: a cell above 255 is written out

  // ---------------------------------------------------------------------------------------
  // Specification.

  /** Item `k` is an instruction whose operand is the label `name`. */
  predicate Uses(items: seq<Item>, k: nat, name: string)
  {
    k < |items| && items[k].Code? && HasOperand(items[k].insn) && items[k].insn.v == Label(name)
  }

  predicate UsesALabel(item: Item) {
    item.Code? && HasOperand(item.insn) && item.insn.v.Label?
  }

  predicate AllDefined(items: seq<Item>) {
    forall k | 0 <= k < |items| && UsesALabel(items[k]) :: Defined(items, items[k].insn.v.name)
  }

  predicate AllBytes(cells: seq<nat>) {
    forall i | 0 <= i < |cells| :: cells[i] < 0x100
  }

  function Result(items: seq<Item>): Assembled {
    if Addr(items, |items|) > MEMORY_SIZE then TooBig
    else if !AllDefined(items) then UndefinedLabel
    else if !AllBytes(OnePassImage(items)) then NotAByte
    else Assembled(OnePassImage(items))
  }

  /** The labels of the first `k` items, as the pass has recorded them. */
  ghost predicate Records(symtab: map<string, nat>, items: seq<Item>, k: nat)
    requires k <= |items|
  {
    forall name: string ::
      (name in symtab <==> LastDef(items, k, name) >= 0)
      && (name in symtab ==> symtab[name] == Addr(items, LastDef(items, k, name)))
  }

  function Pending(items: seq<Item>, k: nat): seq<Fixup>
    requires k <= |items|
  {
    if k == 0 then []
    else
      Pending(items, k - 1)
      + if Postponed(items, k - 1) then [NewFixup(items, k - 1)] else []
  }

  /** store2 */
  function StoreAt(cells: seq<nat>, loc: nat, val: nat): seq<nat> {
    if loc + 1 < |cells| then cells[loc := val % 0x100][loc + 1 := val / 0x100] else cells
  }

  function Patch(cells: seq<nat>, fixups: seq<Fixup>, items: seq<Item>): (c: seq<nat>)
    ensures |c| == |cells|
  {
    if fixups == [] then cells
    else
      var last := fixups[|fixups| - 1];
      StoreAt(Patch(cells, fixups[..|fixups| - 1], items), last.loc, LabelAddr(items, last.name))
  }

  // ---------------------------------------------------------------------------------------
  // Fixups complete the draft.

  lemma AddrMonotone(items: seq<Item>, j: nat, k: nat)
    requires j <= k <= |items|
    ensures Addr(items, j) <= Addr(items, k)
  {
    if j < k {
      AddrMonotone(items, j, k - 1);
    }
  }

  lemma {:induction false} PendingInside(items: seq<Item>, k: nat)
    requires k <= |items|
    ensures forall i | 0 <= i < |Pending(items, k)| :: Pending(items, k)[i].loc + 1 < Addr(items, k)
  {
    if k > 0 {
      PendingInside(items, k - 1);
    }
  }

  lemma {:induction false} PatchPrefix(cells: seq<nat>, more: seq<nat>, fixups: seq<Fixup>, items: seq<Item>)
    requires forall i | 0 <= i < |fixups| :: fixups[i].loc + 1 < |cells|
    ensures Patch(cells + more, fixups, items) == Patch(cells, fixups, items) + more
  {
    if fixups != [] {
      var rest := fixups[..|fixups| - 1];
      var last := fixups[|fixups| - 1];
      PatchPrefix(cells, more, rest, items);
      var p := Patch(cells, rest, items);
      assert StoreAt(p + more, last.loc, LabelAddr(items, last.name)) == StoreAt(p, last.loc, LabelAddr(items, last.name)) + more;
    }
  }

  /** One forward reference, patched after everything before it. */
  lemma PatchOperand(done: seq<nat>, first: nat, val: nat)
    ensures StoreAt(done + (Cells(first) + Cells(0)), |done| + 2, val) == done + (Cells(first) + Cells(val))
  {
    var before := done + (Cells(first) + Cells(0));
    var after := done + (Cells(first) + Cells(val));
    var patched := StoreAt(before, |done| + 2, val);
    assert |patched| == |after|;
    forall i | 0 <= i < |after| ensures patched[i] == after[i] {
      if i >= |done| {
        assert before[i] == (Cells(first) + Cells(0))[i - |done|];
        assert after[i] == (Cells(first) + Cells(val))[i - |done|];
      }
    }
  }

  /** Filling in the fixups of the draft gives the image in which every label seen too late has its
      final address. */
  lemma {:induction false} FixupsComplete(items: seq<Item>, k: nat)
    requires k <= |items|
    ensures Patch(Image(items, k, Draft), Pending(items, k), items)
         == Image(items, k, Seen)
  {
    hide ItemCells, Resolve, StoreAt;
    if k > 0 {
      FixupsComplete(items, k - 1);
      var cells := ItemCells(items, k - 1, Draft);
      PendingInside(items, k - 1);
      PatchPrefix(Image(items, k - 1, Draft), cells, Pending(items, k - 1), items);
      ItemCompletes(items, k - 1, Image(items, k - 1, Seen) + cells);
    }
  }

  predicate Postponed(items: seq<Item>, k: nat)
    requires k < |items|
  {
    UsesALabel(items[k]) && LastDef(items, k, items[k].insn.v.name) < 0
  }

  lemma DraftIsSeen(items: seq<Item>, k: nat)
    requires k < |items| && !Postponed(items, k)
    ensures ItemCells(items, k, Draft) == ItemCells(items, k, Seen)
  {
  }

  lemma ItemCompletes(items: seq<Item>, k: nat, cells: seq<nat>)
    requires k < |items| && cells == Image(items, k, Seen) + ItemCells(items, k, Draft)
    requires cells == Patch(Image(items, k + 1, Draft), Pending(items, k), items)
    ensures Patch(Image(items, k + 1, Draft), Pending(items, k + 1), items) == Image(items, k + 1, Seen)
  {
    hide ItemCells, Resolve, StoreAt;
    if Postponed(items, k) {
      PatchLast(Image(items, k + 1, Draft), Pending(items, k), NewFixup(items, k), items);
      PostponedCells(items, k);
      PatchOperand(Image(items, k, Seen), FirstWord(items[k].insn), LabelAddr(items, items[k].insn.v.name));
    } else {
      DraftIsSeen(items, k);
      assert Pending(items, k + 1) == Pending(items, k);
    }
  }

  function NewFixup(items: seq<Item>, k: nat): Fixup
    requires k < |items| && Postponed(items, k)
  {
    Fixup(items[k].insn.v.name, Addr(items, k) + 2)
  }

  lemma PatchLast(cells: seq<nat>, fixups: seq<Fixup>, last: Fixup, items: seq<Item>)
    ensures Patch(cells, fixups + [last], items)
         == StoreAt(Patch(cells, fixups, items), last.loc, LabelAddr(items, last.name))
  {
    assert (fixups + [last])[..|fixups|] == fixups;
  }

  lemma PostponedCells(items: seq<Item>, k: nat)
    requires k < |items| && Postponed(items, k)
    ensures ItemCells(items, k, Draft) == Cells(FirstWord(items[k].insn)) + Cells(0)
    ensures ItemCells(items, k, Seen)
         == Cells(FirstWord(items[k].insn)) + Cells(LabelAddr(items, items[k].insn.v.name))
  {
  }

  // ---------------------------------------------------------------------------------------
  // One pass against two.

  lemma {:induction false} ImagePrefix(items: seq<Item>, k: nat, n: nat, how: Resolution)
    requires k <= n <= |items|
    ensures Image(items, k, how) <= Image(items, n, how)
  {
    if k < n {
      ImagePrefix(items, k, n - 1, how);
    }
  }

  lemma ImageAt(items: seq<Item>, n: nat, how: Resolution, k: nat)
    requires k < n <= |items|
    ensures Addr(items, k + 1) <= Addr(items, n)
    ensures Image(items, n, how)[Addr(items, k)..Addr(items, k + 1)] == ItemCells(items, k, how)
  {
    hide Cells, ItemCells;
    ImagePrefix(items, k + 1, n, how);
    assert Image(items, n, how)[..Addr(items, k + 1)] == Image(items, k, how) + ItemCells(items, k, how);
  }

  lemma {:induction false} ImagesAgree(items: seq<Item>, n: nat, how1: Resolution, how2: Resolution)
    requires n <= |items|
    requires forall k | 0 <= k < n :: ItemCells(items, k, how1) == ItemCells(items, k, how2)
    ensures Image(items, n, how1) == Image(items, n, how2)
  {
    if n > 0 {
      ImagesAgree(items, n - 1, how1, how2);
    }
  }

  /** No label is defined again after an instruction that refers back to it. */
  ghost predicate NoLateRedefinition(items: seq<Item>) {
    forall i: nat, k: nat, j: nat, name: string ::
      i < k < j < |items| && items[i] == Define(name) && Uses(items, k, name) ==> items[j] != Define(name)
  }

  lemma SeenIsFinal(items: seq<Item>, k: nat, name: string)
    requires Uses(items, k, name)
    ensures Resolve(items, k, Seen, name) == LabelAddr(items, name) <==>
              LastDef(items, k, name) < 0 || LastDef(items, k, name) == LastDef(items, |items|, name)
  {
    var seen := LastDef(items, k, name);
    var final := LastDef(items, |items|, name);
    if seen >= 0 {
      assert items[seen] == Define(name);
      assert final >= seen;
      if final != seen {
        assert final > k by {
          assert items[k] != Define(name);
        }
        AddrMonotone(items, seen, k);
        AddrMonotone(items, k + 1, final);
      }
    }
  }

  /** The one-pass assembler gives the image of the two-pass one, byte for byte, exactly for the
      programs that define no label again after referring back to it.  Labels defined once are
      the usual case. */
  lemma OnePassIsTwoPass(items: seq<Item>)
    ensures OnePassImage(items) == TwoPassImage(items) <==> NoLateRedefinition(items)
  {
    hide Image, Cells, LastDef;
    if NoLateRedefinition(items) {
      forall k | 0 <= k < |items| ensures ItemCells(items, k, Seen) == ItemCells(items, k, Final) {
        if UsesALabel(items[k]) {
          SeenUnlessRedefined(items, k, items[k].insn.v.name);
        }
      }
      ImagesAgree(items, |items|, Seen, Final);
    } else {
      var i: nat, k: nat, j: nat, name: string :|
        i < k < j < |items| && items[i] == Define(name) && Uses(items, k, name) && items[j] == Define(name);
      SeenIsFinal(items, k, name);
      ImageAt(items, |items|, Seen, k);
      ImageAt(items, |items|, Final, k);
      CellsDiffer(FirstWord(items[k].insn), Resolve(items, k, Seen, name), LabelAddr(items, name));
    }
  }

  /** A jump back to a label that is defined again below: the one-pass image jumps to the first
      definition, the two-pass image to the second. */
  lemma LateRedefinitionExample()
    ensures var items := [Define("a"), Code(Jmp(Always, Label("a"))), Define("a")];
            && !NoLateRedefinition(items) && OnePassImage(items) != TwoPassImage(items)
            && Operand(items, 1, Seen) == 0 && Operand(items, 1, Final) == 4
  {
    var items := [Define("a"), Code(Jmp(Always, Label("a"))), Define("a")];
    assert items[0] == Define("a") && Uses(items, 1, "a") && items[2] == Define("a");
    OnePassIsTwoPass(items);
    assert LastDef(items, 1, "a") == 0 && LastDef(items, 3, "a") == 2;
    assert Addr(items, 0) == 0 && Addr(items, 1) == 0 && Addr(items, 2) == 4;
  }

  lemma SeenUnlessRedefined(items: seq<Item>, k: nat, name: string)
    requires NoLateRedefinition(items) && Uses(items, k, name)
    ensures Resolve(items, k, Seen, name) == LabelAddr(items, name)
  {
    SeenIsFinal(items, k, name);
    var seen := LastDef(items, k, name);
    assert seen >= 0 ==> items[seen] == Define(name);
  }

  lemma CellsDiffer(first: nat, x: nat, y: nat)
    requires x != y
    ensures Cells(first) + Cells(x) != Cells(first) + Cells(y)
  {
    assert (Cells(first) + Cells(x))[2] == x % 0x100 && (Cells(first) + Cells(x))[3] == x / 0x100;
    assert (Cells(first) + Cells(y))[2] == y % 0x100 && (Cells(first) + Cells(y))[3] == y / 0x100;
  }

  // ---------------------------------------------------------------------------------------
  // The program.

  /** The globals of the assembler. */
  class OnePass {
    var memory: seq<nat>
    var currentAddr: nat
    var maxAddr: nat
    var symtab: map<string, nat>
    var fixups: seq<Fixup>

    constructor ()
      ensures Fits() && currentAddr == 0 && maxAddr == 0 && symtab == map[] && fixups == []
    {
      memory := seq(MEMORY_SIZE, _ => 0);
      currentAddr, maxAddr, symtab, fixups := 0, 0, map[], [];
    }

    ghost predicate Fits()
      reads this
    {
      |memory| == MEMORY_SIZE && currentAddr <= MEMORY_SIZE
    }

    /** The cells emitted so far. */
    ghost function Emitted(): seq<nat>
      reads this
      requires Fits()
    {
      memory[..currentAddr]
    }

    /** One cell; writing past the end of the list is an IndexError. */
    method StoreCell(cell: nat) returns (ok: bool)
      requires Fits()
      modifies this`memory, this`currentAddr
      ensures Fits() && ok == (old(currentAddr) < MEMORY_SIZE)
      ensures ok ==> currentAddr == old(currentAddr) + 1 && Emitted() == old(Emitted()) + [cell]
    {
      ok := currentAddr < MEMORY_SIZE;
      if ok {
        memory := memory[currentAddr := cell];
        currentAddr := currentAddr + 1;
      }
    }

    /** store_insn */
    method StoreInsn(insn: nat) returns (ok: bool)
      requires Fits()
      modifies this`memory, this`currentAddr
      ensures Fits() && ok == (old(currentAddr) + 2 <= MEMORY_SIZE)
      ensures ok ==> currentAddr == old(currentAddr) + 2 && Emitted() == old(Emitted()) + Cells(insn)
    {
      ok := StoreCell(insn % 0x100);
      if ok {
        ok := StoreCell(insn / 0x100);
      }
    }

    /** value */
    method Evaluate(v: Value) returns (n: nat)
      modifies this`fixups
      ensures n == match v case Num(m) => m case Label(name) => if name in symtab then symtab[name] else 0
      ensures fixups == old(fixups) +
                (if v.Label? && v.name !in symtab then [Fixup(v.name, currentAddr)] else [])
    {
      match v
      case Num(m) => n := m;
      case Label(name) =>
        if name in symtab {
          n := symtab[name];
        } else {
          fixups := fixups + [Fixup(name, currentAddr)];
          n := 0;
        }
    }

    ghost predicate After(items: seq<Item>, k: nat)
      reads this
    {
      && k <= |items| && Fits() && currentAddr == Addr(items, k)
      && Emitted() == Image(items, k, Draft)
      && fixups == Pending(items, k)
      && Records(symtab, items, k)
    }

    lemma AtStart(items: seq<Item>)
      requires Fits() && currentAddr == 0 && symtab == map[] && fixups == []
      ensures After(items, 0)
    {
    }

    /** The do_* methods of instructions. */
    method DoInsn(ghost items: seq<Item>, ghost k: nat, i: Insn) returns (ok: bool)
      requires After(items, k) && k < |items| && items[k] == Code(i)
      modifies this`memory, this`currentAddr, this`fixups
      ensures ok == (Addr(items, k + 1) <= MEMORY_SIZE) && (ok ==> After(items, k + 1))
    {
      hide Image, Pending, Records, LastDef, Cells;
      InsnEmits(items, k, i);
      ok := StoreInsn(FirstWord(i));
      if ok && HasOperand(i) {
        OperandIs(symtab, items, k, i);
        var n := Evaluate(i.v);
        ok := StoreInsn(n);
      }
    }

    method DoWords(ghost items: seq<Item>, ghost k: nat, ws: seq<nat>) returns (ok: bool)
      requires After(items, k) && k < |items| && items[k] == Words(ws)
      modifies this`memory, this`currentAddr
      ensures ok == (Addr(items, k + 1) <= MEMORY_SIZE) && (ok ==> After(items, k + 1))
    {
      var i := 0;
      while i < |ws|
        invariant 0 <= i <= |ws| && Fits() && currentAddr == Addr(items, k) + 2 * i
        invariant Emitted() == Image(items, k, Draft) + WordCells(ws[..i])
      {
        ok := StoreInsn(ws[i] % 0x1_0000);
        if !ok {
          return;
        }
        WordCellsAppend(ws, i);
        i := i + 1;
      }
      assert ws[..i] == ws;
      return true;
    }

    method DoBytes(ghost items: seq<Item>, ghost k: nat, bs: seq<nat>) returns (ok: bool)
      requires After(items, k) && k < |items| && items[k] == Bytes(bs)
      modifies this`memory, this`currentAddr
      ensures ok == (Addr(items, k + 1) <= MEMORY_SIZE) && (ok ==> After(items, k + 1))
    {
      var i := 0;
      while i < |bs|
        invariant 0 <= i <= |bs| && Fits() && currentAddr == Addr(items, k) + i
        invariant Emitted() == Image(items, k, Draft) + ByteCells(bs[..i])
      {
        ok := StoreCell(bs[i] % 0x100);
        if !ok {
          return;
        }
        assert ByteCells(bs[..i + 1]) == ByteCells(bs[..i]) + [bs[i] % 0x100];
        i := i + 1;
      }
      assert bs[..i] == bs;
      return true;
    }

    /** do_sym */
    method DoSym(ghost items: seq<Item>, ghost k: nat, name: string)
      requires After(items, k) && k < |items| && items[k] == Define(name)
      modifies this`symtab
      ensures After(items, k + 1)
    {
      symtab := symtab[name := currentAddr];
    }

    method DoLine(ghost items: seq<Item>, ghost k: nat, item: Item) returns (ok: bool)
      requires After(items, k) && k < |items| && items[k] == item
      modifies this`memory, this`currentAddr, this`fixups, this`symtab
      ensures ok == (Addr(items, k + 1) <= MEMORY_SIZE) && (ok ==> After(items, k + 1))
    {
      match item
      case Code(i) => ok := DoInsn(items, k, i);
      case Words(ws) => ok := DoWords(items, k, ws);
      case Bytes(bs) => ok := DoBytes(items, k, bs);
      case Define(name) =>
        DoSym(items, k, name);
        ok := true;
    }

    /** The fixup loop. */
    method FillIn(ghost items: seq<Item>) returns (ok: bool)
      requires After(items, |items|)
      modifies this`memory
      ensures Fits() && ok == AllDefined(items)
      ensures ok ==> Emitted() == OnePassImage(items)
    {
      hide Image, Pending, LastDef, AllDefined, Patch, StoreAt, Defined, Addr, Records;
      ghost var draft := Emitted();
      PendingInside(items, |items|);
      PatchNone(draft, items);
      RecordsFinal(symtab, items);
      var i := 0;
      while i < |fixups|
        invariant 0 <= i <= |fixups| && Fits()
        invariant Emitted() == Patch(draft, fixups[..i], items)
        invariant forall j | 0 <= j < i :: fixups[j].name in symtab
      {
        var fix := fixups[i];
        if fix.name !in symtab {
          PendingUndefined(items, i);
          return false;
        }
        var val := symtab[fix.name];
        PatchLast(draft, fixups[..i], fix, items);
        assert fixups[..i + 1] == fixups[..i] + [fix];
        StorePrefix(memory, currentAddr, fix.loc, val);
        memory := memory[fix.loc := val % 0x100][fix.loc + 1 := val / 0x100];
        i := i + 1;
      }
      assert fixups[..i] == fixups;
      FixupsComplete(items, |items|);
      PendingCoversUndefined(items);
      return true;
    }

    /** The whole run. */
    method Run(items: seq<Item>) returns (r: Assembled)
      requires Fits() && currentAddr == 0 && maxAddr == 0 && symtab == map[] && fixups == []
      modifies this
      ensures r == Result(items)
    {
      hide Image, Pending, Records, Patch;
      AtStart(items);
      var k := 0;
      while k < |items|
        invariant After(items, k) && maxAddr == currentAddr
      {
        var ok := DoLine(items, k, items[k]);
        if !ok {
          AddrMonotone(items, k + 1, |items|);
          return TooBig;
        }
        AddrMonotone(items, k, k + 1);
        maxAddr := if currentAddr > maxAddr then currentAddr else maxAddr;
        k := k + 1;
      }
      var defined := FillIn(items);
      if !defined {
        return UndefinedLabel;
      }
      var data: seq<Byte> := [];
      var i := 0;
      while i < maxAddr
        invariant 0 <= i <= maxAddr == |OnePassImage(items)| && data == memory[..i]
      {
        if memory[i] >= 0x100 {
          assert OnePassImage(items)[i] >= 0x100;
          return NotAByte;
        }
        data := data + [memory[i]];
        i := i + 1;
      }
      return Assembled(data);
    }
  }

  /** What an instruction adds to the image, the fixups and the labels. */
  lemma InsnEmits(items: seq<Item>, k: nat, i: Insn)
    requires k < |items| && items[k] == Code(i)
    ensures Image(items, k + 1, Draft) == Image(items, k, Draft) + Cells(FirstWord(i)) +
              (if HasOperand(i) then Cells(Operand(items, k, Draft)) else [])
    ensures Pending(items, k + 1) == Pending(items, k) +
              (if Postponed(items, k) then [Fixup(i.v.name, Addr(items, k) + 2)] else [])
    ensures forall symtab :: Records(symtab, items, k + 1) <==> Records(symtab, items, k)
    ensures Addr(items, k + 1) == Addr(items, k) + (if HasOperand(i) then 4 else 2)
  {
    forall name: string ensures LastDef(items, k + 1, name) == LastDef(items, k, name) {}
  }

  /** The operand of the draft is what value finds in the symbol table. */
  lemma OperandIs(symtab: map<string, nat>, items: seq<Item>, k: nat, i: Insn)
    requires k < |items| && items[k] == Code(i) && HasOperand(i) && Records(symtab, items, k)
    ensures Operand(items, k, Draft) ==
              match i.v case Num(n) => n case Label(name) => if name in symtab then symtab[name] else 0
    ensures Postponed(items, k) <==> i.v.Label? && i.v.name !in symtab
  {
  }

  lemma StorePrefix(memory: seq<nat>, n: nat, loc: nat, val: nat)
    requires loc + 1 < n <= |memory|
    ensures memory[loc := val % 0x100][loc + 1 := val / 0x100][..n] == StoreAt(memory[..n], loc, val)
  {
  }

  lemma PatchNone(cells: seq<nat>, items: seq<Item>)
    ensures forall fixups: seq<Fixup> | fixups == [] :: Patch(cells, fixups, items) == cells
  {
  }

  lemma RecordsFinal(symtab: map<string, nat>, items: seq<Item>)
    requires Records(symtab, items, |items|)
    ensures forall name: string ::
              (name in symtab <==> Defined(items, name))
              && (name in symtab ==> symtab[name] == LabelAddr(items, name))
  {
  }

  lemma PendingUndefined(items: seq<Item>, i: nat)
    requires i < |Pending(items, |items|)| && !Defined(items, Pending(items, |items|)[i].name)
    ensures !AllDefined(items)
  {
    PendingAreUndefined(items, |items|, i);
  }

  lemma {:induction false} WordCellsAppend(ws: seq<nat>, i: nat)
    requires i < |ws|
    ensures WordCells(ws[..i + 1]) == WordCells(ws[..i]) + Cells(ws[i] % 0x1_0000)
  {
    if i == 0 {
      assert ws[..1] == [ws[0]] && ws[..1][1..] == [];
    } else {
      assert ws[..i + 1][1..] == ws[1..][..i] && ws[..i][1..] == ws[1..][..i - 1];
      WordCellsAppend(ws[1..], i - 1);
    }
  }

  /** What is left to fill in are the uses of labels not seen before the use; a label undefined at
      the end is among them. */
  lemma {:induction false} PendingAreUndefined(items: seq<Item>, k: nat, i: nat)
    requires k <= |items| && i < |Pending(items, k)|
    ensures exists j :: 0 <= j < |items| && UsesALabel(items[j]) && items[j].insn.v.name == Pending(items, k)[i].name
  {
    if i < |Pending(items, k - 1)| {
      PendingAreUndefined(items, k - 1, i);
    }
  }

  lemma {:induction false} PendingCovers(items: seq<Item>, k: nat, j: nat)
    requires j < k <= |items| && Postponed(items, j)
    ensures NewFixup(items, j) in Pending(items, k)
  {
    if j + 1 < k {
      PendingCovers(items, k - 1, j);
    }
  }

  lemma PendingCoversUndefined(items: seq<Item>)
    requires forall i | 0 <= i < |Pending(items, |items|)| :: Defined(items, Pending(items, |items|)[i].name)
    ensures AllDefined(items)
  {
    forall j | 0 <= j < |items| && UsesALabel(items[j]) ensures Defined(items, items[j].insn.v.name) {
      if Postponed(items, j) {
        PendingCovers(items, |items|, j);
      } else {
        SeenStays(items, j, items[j].insn.v.name);
      }
    }
  }

  lemma SeenStays(items: seq<Item>, k: nat, name: string)
    requires k <= |items| && LastDef(items, k, name) >= 0
    ensures Defined(items, name)
  {
    assert items[LastDef(items, k, name)] == Define(name);
  }
}
