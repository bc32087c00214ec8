/** What is in an image and when there is one, and the program that comes with the assembler. */
module AsmImage {
  import opened Cpu
  import opened Assembly
  import opened Assembler

  // ---------------------------------------------------------------------------------------
  // Data in the image.

  lemma {:induction false} WordCellsAt(ws: seq<nat>, i: nat)
    requires i < |ws|
    ensures WordCells(ws)[2 * i] == ws[i] % 0x100 && WordCells(ws)[2 * i + 1] == ws[i] / 0x100 % 0x100
    decreases i
  {
    if i == 0 {
      LowWord(ws[0]);
    } else {
      WordCellsAt(ws[1..], i - 1);
      assert WordCells(ws)[2 * i] == WordCells(ws[1..])[2 * i - 2];
      assert WordCells(ws)[2 * i + 1] == WordCells(ws[1..])[2 * i - 1];
    }
  }

  lemma LowWord(n: nat)
    ensures n % 0x1_0000 % 0x100 == n % 0x100 && n % 0x1_0000 / 0x100 == n / 0x100 % 0x100
  {
  }

  lemma CellInImage(items: seq<Item>, k: nat, how: Resolution, i: nat)
    requires k < |items| && i < Size(items[k])
    ensures Addr(items, k) + i < |Image(items, |items|, how)|
    ensures Image(items, |items|, how)[Addr(items, k) + i] == ItemCells(items, k, how)[i]
  {
    hide Image, ItemCells;
    ImageAt(items, |items|, how, k);
    var image := Image(items, |items|, how);
    assert image[Addr(items, k)..Addr(items, k + 1)][i] == image[Addr(items, k) + i];
  }

  /** Byte `i` of a BYTES line is at its place in the image, masked to eight bits. */
  lemma BytesInImage(items: seq<Item>, k: nat, how: Resolution, i: nat)
    requires k < |items| && items[k].Bytes? && i < |items[k].bs|
    ensures var at := Addr(items, k) + i; var image := Image(items, |items|, how);
            at < |image| && image[at] == items[k].bs[i] % 0x100
  {
    hide Image;
    CellInImage(items, k, how, i);
  }

  /** Word `i` of a WORDS line is at its place, masked to sixteen bits, low byte first. */
  lemma WordsInImage(items: seq<Item>, k: nat, how: Resolution, i: nat)
    requires k < |items| && items[k].Words? && i < |items[k].ws|
    ensures var at := Addr(items, k) + 2 * i; var image := Image(items, |items|, how); var w := items[k].ws[i];
            at + 1 < |image| && image[at] == w % 0x100 && image[at + 1] == w / 0x100 % 0x100
  {
    hide Image;
    CellInImage(items, k, how, 2 * i);
    CellInImage(items, k, how, 2 * i + 1);
    WordCellsAt(items[k].ws, i);
  }

  /** In the file that is written. */
  lemma DataInFile(items: seq<Item>, k: nat, i: nat)
    requires Result(items).Assembled? && k < |items|
    ensures items[k].Bytes? && i < |items[k].bs| ==>
              var at := Addr(items, k) + i;
              at < |Result(items).image| && Result(items).image[at] == items[k].bs[i] % 0x100
    ensures items[k].Words? && i < |items[k].ws| ==>
              var at := Addr(items, k) + 2 * i; var w := items[k].ws[i];
              at + 1 < |Result(items).image|
              && Result(items).image[at] == w % 0x100 && Result(items).image[at + 1] == w / 0x100 % 0x100
  {
    hide Image;
    if items[k].Bytes? && i < |items[k].bs| {
      BytesInImage(items, k, Seen, i);
    }
    if items[k].Words? && i < |items[k].ws| {
      WordsInImage(items, k, Seen, i);
    }
  }

  /** An instruction is at its place, each of its words low byte first. */
  lemma CodeInImage(items: seq<Item>, k: nat, how: Resolution)
    requires k < |items| && items[k].Code?
    ensures var at := Addr(items, k); var image := Image(items, |items|, how); var i := items[k].insn;
            && at + 1 < |image| && image[at] == FirstWord(i) % 0x100 && image[at + 1] == FirstWord(i) / 0x100
            && (HasOperand(i) ==>
                  at + 3 < |image|
                  && image[at + 2] == Operand(items, k, how) % 0x100 && image[at + 3] == Operand(items, k, how) / 0x100)
  {
    hide Image, FirstWord, Operand;
    CellInImage(items, k, how, 0);
    CellInImage(items, k, how, 1);
    if HasOperand(items[k].insn) {
      CellInImage(items, k, how, 2);
      CellInImage(items, k, how, 3);
    }
  }

  // ---------------------------------------------------------------------------------------
  // When there is an image.

  predicate OperandFits(items: seq<Item>, k: nat)
    requires k < |items|
  {
    items[k].Code? && HasOperand(items[k].insn) ==> Operand(items, k, Seen) < 0x1_0000
  }

  lemma ItemBytes(items: seq<Item>, k: nat)
    requires k < |items| && OperandFits(items, k)
    ensures AllBytes(ItemCells(items, k, Seen))
  {
    hide Operand, FirstWord;
    if items[k].Words? {
      WordBytes(items[k].ws);
    }
  }

  lemma {:induction false} WordBytes(ws: seq<nat>)
    ensures AllBytes(WordCells(ws))
    decreases |ws|
  {
    if ws != [] {
      WordBytes(ws[1..]);
    }
  }

  lemma {:induction false} ImageBytes(items: seq<Item>, n: nat)
    requires n <= |items| && forall k :: 0 <= k < n ==> OperandFits(items, k)
    ensures AllBytes(Image(items, n, Seen))
    decreases n
  {
    hide ItemCells, OperandFits;
    if n > 0 {
      ImageBytes(items, n - 1);
      ItemBytes(items, n - 1);
    }
  }

  /** A file is written exactly if the program fits memory, every label used is defined somewhere, and every
      number or address in an operand fits a word.  (An address does not fit only at the very end of full
      memory.) */
  lemma AssemblesExactly(items: seq<Item>)
    ensures Result(items).Assembled? <==>
              && Addr(items, |items|) <= 0x1_0000
              && (forall k :: 0 <= k < |items| && UsesALabel(items[k]) ==>
                    exists j :: 0 <= j < |items| && items[j] == Define(items[k].insn.v.name))
              && (forall k :: 0 <= k < |items| ==> OperandFits(items, k))
  {
    hide Image, ItemCells, Operand, FirstWord;
    if forall k :: 0 <= k < |items| ==> OperandFits(items, k) {
      ImageBytes(items, |items|);
    }
    if AllBytes(OnePassImage(items)) {
      forall k | 0 <= k < |items| ensures OperandFits(items, k) {
        if items[k].Code? && HasOperand(items[k].insn) {
          CodeInImage(items, k, Seen);
        }
      }
    }
    AllDefinedIs(items);
  }

  lemma AllDefinedIs(items: seq<Item>)
    ensures AllDefined(items) <==>
              forall k :: 0 <= k < |items| && UsesALabel(items[k]) ==>
                exists j :: 0 <= j < |items| && items[j] == Define(items[k].insn.v.name)
  {
    forall k | 0 <= k < |items| && UsesALabel(items[k])
      ensures Defined(items, items[k].insn.v.name)
         <==> exists j :: 0 <= j < |items| && items[j] == Define(items[k].insn.v.name)
    {
      var d := LastDef(items, |items|, items[k].insn.v.name);
      assert d >= 0 ==> items[d] == Define(items[k].insn.v.name);
    }
  }

  // ---------------------------------------------------------------------------------------
  // hello.asm.

  /** The program, its STRING line written as the bytes and their NUL. */
  const HELLO := [
    Code(Set(0, Label("hello_str"))),
    Define("loop"),
    Code(LoadInd(true, 1, 0)),
    Code(Test(1)),
    Code(Jmp(Z, Label("done"))),
    Code(Out(1)),
    Code(Set(2, Num(1))),
    Code(Alu(ADD, 0, 2, 0)),
    Code(Jmp(Always, Label("loop"))),
    Define("done"),
    Code(Insn.Halt),
    Define("hello_str"),
    Bytes(HELLO_TEXT)]

  /** "Hello world!", a newline and the NUL. */
  const HELLO_TEXT: seq<nat> := [0x48, 0x65, 0x6C, 0x6C, 0x6F, 0x20, 0x77, 0x6F, 0x72, 0x6C, 0x64, 0x21, 0x0A, 0x00]

  /** The file that comes with it, line by line. */
  const HELLO_BIN: seq<Byte> :=
    [0x00, 0x10, 0x1A, 0x00] + [0x01, 0x2C] + [0x01, 0x5E] + [0x00, 0x62, 0x18, 0x00] + [0x01, 0xE0]
    + [0x02, 0x10, 0x01, 0x00] + [0x10, 0x50] + [0x00, 0x60, 0x04, 0x00] + [0x00, 0xF0]
    + [0x48, 0x65, 0x6C, 0x6C, 0x6F, 0x20, 0x77, 0x6F, 0x72, 0x6C, 0x64, 0x21, 0x0A, 0x00]

  lemma HelloSizes()
    ensures |HELLO| == 13
    ensures Addr(HELLO, 1) == 4 && Addr(HELLO, 2) == 4 && Addr(HELLO, 3) == 6 && Addr(HELLO, 4) == 8
    ensures Addr(HELLO, 5) == 12 && Addr(HELLO, 6) == 14 && Addr(HELLO, 7) == 18 && Addr(HELLO, 8) == 20
    ensures Addr(HELLO, 9) == 24 && Addr(HELLO, 10) == 24 && Addr(HELLO, 11) == 26 && Addr(HELLO, 12) == 26
    ensures Addr(HELLO, 13) == 40
  {
    hide FirstWord;
    assert Addr(HELLO, 0) == 0;
  }

  lemma HelloLabels()
    ensures LabelAddr(HELLO, "hello_str") == 26 && LabelAddr(HELLO, "done") == 24
    ensures Resolve(HELLO, 0, Seen, "hello_str") == 26 && Resolve(HELLO, 4, Seen, "done") == 24
    ensures Resolve(HELLO, 8, Seen, "loop") == 4 && LabelAddr(HELLO, "loop") == 4
  {
    hide Addr;
    HelloSizes();
    assert HELLO[11] == Define("hello_str") && HELLO[9] == Define("done") && HELLO[1] == Define("loop");
    assert LastDef(HELLO, 13, "hello_str") == 11 && LastDef(HELLO, 0, "hello_str") == -1;
    assert LastDef(HELLO, 13, "done") == 9 && LastDef(HELLO, 4, "done") == -1;
    assert LastDef(HELLO, 8, "loop") == 1 && LastDef(HELLO, 13, "loop") == 1;
  }

  /** The cells of each line. */
  lemma HelloCells()
    ensures |HELLO| == 13
    ensures ItemCells(HELLO, 0, Seen) == [0x00, 0x10, 0x1A, 0x00] && ItemCells(HELLO, 1, Seen) == []
    ensures ItemCells(HELLO, 2, Seen) == [0x01, 0x2C]
  {
    hide Addr, LastDef, Resolve, LabelAddr;
    HelloLabels();
  }

  lemma HelloTestCells()
    ensures |HELLO| == 13 && ItemCells(HELLO, 3, Seen) == [0x01, 0x5E]
    ensures ItemCells(HELLO, 4, Seen) == [0x00, 0x62, 0x18, 0x00] && ItemCells(HELLO, 5, Seen) == [0x01, 0xE0]
  {
    hide Addr, LastDef, Resolve, LabelAddr;
    HelloLabels();
  }

  lemma HelloMoreCells()
    ensures |HELLO| == 13
    ensures ItemCells(HELLO, 6, Seen) == [0x02, 0x10, 0x01, 0x00] && ItemCells(HELLO, 7, Seen) == [0x10, 0x50]
    ensures ItemCells(HELLO, 8, Seen) == [0x00, 0x60, 0x04, 0x00] && ItemCells(HELLO, 9, Seen) == []
    ensures ItemCells(HELLO, 10, Seen) == [0x00, 0xF0] && ItemCells(HELLO, 11, Seen) == []
  {
    hide Addr, LastDef, Resolve, LabelAddr;
    HelloLabels();
  }

  lemma HelloData()
    ensures |HELLO| == 13 && ItemCells(HELLO, 12, Seen) == HELLO_TEXT
  {
  }

  lemma HelloImage()
    ensures |HELLO| == 13 && Image(HELLO, 13, Seen) == HELLO_BIN
  {
    hide Image, ItemCells, HELLO;
    HelloCells();
    HelloTestCells();
    HelloMoreCells();
    HelloData();
    HelloSteps();
    var code: seq<nat> := [0x00, 0x10, 0x1A, 0x00] + [0x01, 0x2C] + [0x01, 0x5E] + [0x00, 0x62, 0x18, 0x00] + [0x01, 0xE0];
    assert Image(HELLO, 6, Seen) == code;
    var more: seq<nat> := [0x02, 0x10, 0x01, 0x00] + [0x10, 0x50] + [0x00, 0x60, 0x04, 0x00] + [0x00, 0xF0];
    assert Image(HELLO, 12, Seen) == code + more;
  }

  lemma ImageStep(items: seq<Item>, k: nat, how: Resolution)
    requires k < |items|
    ensures Image(items, k + 1, how) == Image(items, k, how) + ItemCells(items, k, how)
    ensures Image(items, 0, how) == []
  {
    hide ItemCells;
  }

  /** The image grows line by line. */
  lemma HelloSteps()
    ensures |HELLO| == 13
    ensures Image(HELLO, 6, Seen) == ItemCells(HELLO, 0, Seen) + ItemCells(HELLO, 1, Seen) + ItemCells(HELLO, 2, Seen)
              + ItemCells(HELLO, 3, Seen) + ItemCells(HELLO, 4, Seen) + ItemCells(HELLO, 5, Seen)
    ensures Image(HELLO, 12, Seen) == Image(HELLO, 6, Seen)
              + ItemCells(HELLO, 6, Seen) + ItemCells(HELLO, 7, Seen) + ItemCells(HELLO, 8, Seen)
              + ItemCells(HELLO, 9, Seen) + ItemCells(HELLO, 10, Seen) + ItemCells(HELLO, 11, Seen)
    ensures Image(HELLO, 13, Seen) == Image(HELLO, 12, Seen) + ItemCells(HELLO, 12, Seen)
  {
    hide Image, ItemCells, HELLO;
    HelloData();
    forall k: nat | k < 13 ensures Image(HELLO, k + 1, Seen) == Image(HELLO, k, Seen) + ItemCells(HELLO, k, Seen) {
      ImageStep(HELLO, k, Seen);
    }
    ImageStep(HELLO, 0, Seen);
    assert Image(HELLO, 3, Seen) == ItemCells(HELLO, 0, Seen) + ItemCells(HELLO, 1, Seen) + ItemCells(HELLO, 2, Seen);
    assert Image(HELLO, 6, Seen) == Image(HELLO, 3, Seen)
        + ItemCells(HELLO, 3, Seen) + ItemCells(HELLO, 4, Seen) + ItemCells(HELLO, 5, Seen);
    assert Image(HELLO, 9, Seen) == Image(HELLO, 6, Seen)
        + ItemCells(HELLO, 6, Seen) + ItemCells(HELLO, 7, Seen) + ItemCells(HELLO, 8, Seen);
    assert Image(HELLO, 12, Seen) == Image(HELLO, 9, Seen)
        + ItemCells(HELLO, 9, Seen) + ItemCells(HELLO, 10, Seen) + ItemCells(HELLO, 11, Seen);
  }

  /** The assembler makes exactly the file that comes with the program. */
  lemma HelloAssembles()
    ensures Result(HELLO) == Assembled(HELLO_BIN)
  {
    hide Image, ItemCells, Addr, LastDef, LabelAddr, HELLO, HELLO_BIN;
    HelloSizes();
    HelloImage();
    HelloDefined();
  }

  lemma HelloDefined()
    ensures AllDefined(HELLO)
  {
    hide Addr;
    assert HELLO[11] == Define("hello_str") && HELLO[9] == Define("done") && HELLO[1] == Define("loop");
  }
}
