/** The translation of bytecode to threaded code (src/runtime/expand.c): every label becomes the
    index of the word that the instruction at its target is translated to. */
module Expansion {
  import opened Options
  import opened Bytecode

  /** A word of threaded code: where the code of an instruction is, a number, or the index of a
      word. */
  datatype Word = Op(op: int) | Num(n: int) | Addr(k: int)

  /** What the map of addresses has for `a`. */
  ghost function Mapped(prog: seq<byte>, a: int): int {
    if 0 <= a < |prog| && IsStart(prog, 0, a) then Real(prog, a) else -1
  }

  ghost function NumWords(ns: seq<int>): (s: seq<Word>)
    ensures |s| == |ns|
  {
    seq(|ns|, i requires 0 <= i < |ns| => Num(ns[i]))
  }

  ghost function LabelWords(prog: seq<byte>, ls: seq<int>): (s: seq<Word>)
    ensures |s| == |ls|
  {
    seq(|ls|, i requires 0 <= i < |ls| => Addr(Mapped(prog, ls[i])))
  }

  /** The translation of the instruction at `pc`. */
  ghost function WordsOf(prog: seq<byte>, pc: int): (s: seq<Word>)
    requires Instruction(prog, pc)
    ensures |s| == WordSize(prog, pc)
  {
    [Op(prog[pc])] + NumWords(Nums(prog, pc)) + LabelWords(prog, Labels(prog, pc))
  }

  /** The translation of all instructions from `p` on. */
  ghost function Expanded(prog: seq<byte>, p: int): seq<Word>
    decreases |prog| - p
  {
    if !Instruction(prog, p) then []
    else WordsOf(prog, p) + Expanded(prog, p + ByteSize(prog, p))
  }

  lemma {:induction false} ExpandedLength(prog: seq<byte>, p: int)
    requires 0 <= p
    ensures |Expanded(prog, p)| == WordsTo(prog, p, |prog|)
    decreases |prog| - p
  {
    hide WordsOf, ByteSize, WordSize;
    if Instruction(prog, p) {
      ExpandedLength(prog, p + ByteSize(prog, p));
    }
  }

  /** The translation of an instruction lies at its real address. */
  lemma {:induction false} ExpandedAt(prog: seq<byte>, p: int, a: int)
    requires IsStart(prog, p, a) && Instruction(prog, a) && 0 <= p
    ensures var k := WordsTo(prog, p, a);
            k + WordSize(prog, a) <= |Expanded(prog, p)| &&
            Expanded(prog, p)[k..k + WordSize(prog, a)] == WordsOf(prog, a)
    decreases |prog| - p
  {
    hide WordsOf, ByteSize, WordSize;
    if p == a {
      assert Expanded(prog, p)[..WordSize(prog, a)] == WordsOf(prog, a);
    } else {
      var q := p + ByteSize(prog, p);
      ExpandedAt(prog, q, a);
      var k := WordsTo(prog, q, a);
      var w := WordSize(prog, p);
      assert Expanded(prog, p)[w + k..w + k + WordSize(prog, a)] == Expanded(prog, q)[k..k + WordSize(prog, a)];
    }
  }

  // ----- The map of addresses -----

  ghost predicate MapDone(prog: seq<byte>, map_: seq<int>, pc: int) {
    && |map_| == |prog|
    && (forall a :: 0 <= a < |prog| && a < pc ==> map_[a] == Mapped(prog, a))
    && (forall a :: 0 <= a < |prog| && pc <= a ==> map_[a] == -1)
  }

  lemma MapStep(prog: seq<byte>, before: seq<int>, pc: int)
    requires MapDone(prog, before, pc) && IsStart(prog, 0, pc) && Instruction(prog, pc)
    ensures MapDone(prog, before[pc := Real(prog, pc)], pc + ByteSize(prog, pc))
  {
    hide ByteSize, WordSize, IsStart, WordsTo;
    NextStart(prog, 0, pc);
  }

  /** The size of the translation, and for each start of an instruction its real address. */
  method BuildRealMap(prog: seq<byte>, realaddress: array<int>) returns (realsize: int, ok: bool)
    requires realaddress.Length == |prog| && Scanned(prog, 0) != Truncated
    modifies realaddress
    ensures ok <==> Scanned(prog, 0) == Good
    ensures ok ==> realsize == |Expanded(prog, 0)|
    ensures ok ==> MapIs(prog, realaddress[..])
  {
    hide IsStart, WordsTo, Expanded, ByteSize, WordSize;
    var i := 0;
    while i < |prog|
      invariant 0 <= i <= |prog| && forall a :: 0 <= a < i ==> realaddress[a] == -1
    {
      realaddress[i] := -1;
      i := i + 1;
    }
    realsize := 0;
    var pc := 0;
    AtFirst(prog);
    while pc < |prog|
      invariant 0 <= pc && IsStart(prog, 0, pc) && Scanned(prog, pc) == Scanned(prog, 0)
      invariant realsize == Real(prog, pc) && MapDone(prog, realaddress[..], pc)
      decreases |prog| - pc
    {
      StartInside(prog, 0, pc);
      if ShapeOf(prog[pc]).None? {
        return realsize, false;
      }
      MapStep(prog, realaddress[..], pc);
      NextStart(prog, 0, pc);
      realaddress[pc] := realsize;
      pc, realsize := SkipOne(prog, pc, realsize);
    }
    StartInside(prog, 0, pc);
    ExpandedLength(prog, 0);
    ok := true;
  }

  lemma AtFirst(prog: seq<byte>)
    ensures IsStart(prog, 0, 0) && Real(prog, 0) == 0
  {
  }

  method SkipOne(prog: seq<byte>, pc0: int, realsize0: int) returns (pc: int, realsize: int)
    requires Instruction(prog, pc0)
    ensures pc == pc0 + ByteSize(prog, pc0) && realsize == realsize0 + WordSize(prog, pc0)
  {
    pc, realsize := pc0 + 1, realsize0 + 1;
    match ShapeOf(prog[pc0]).value {
      case Plain =>
      case Byte => pc, realsize := pc + 1, realsize + 1;
      case Label => pc, realsize := pc + 4, realsize + 1;
      case TwoLabels =>
        pc, realsize := pc + 4, realsize + 1;
        pc, realsize := pc + 4, realsize + 1;
      case SignedShort | Short => pc, realsize := pc + 2, realsize + 1;
      case Long | SignedLong => pc, realsize := pc + 4, realsize + 1;
      case ByteLabel =>
        pc, realsize := pc + 1, realsize + 1;
        pc, realsize := pc + 4, realsize + 1;
      case ByteShort =>
        pc, realsize := pc + 1, realsize + 1;
        pc, realsize := pc + 2, realsize + 1;
      case ShortLong =>
        pc, realsize := pc + 2, realsize + 1;
        pc, realsize := pc + 4, realsize + 1;
      case Table =>
        var n: int := prog[pc];
        pc, realsize := pc + 1, realsize + 1;
        pc, realsize := pc + n * 4, realsize + n;
    }
  }

  // ----- The expander -----

  /** The labels of the instruction at `pc` are addresses of the program. */
  ghost predicate LabelsInside(prog: seq<byte>, pc: int)
    requires Instruction(prog, pc)
  {
    forall i :: 0 <= i < |Labels(prog, pc)| ==> 0 <= Labels(prog, pc)[i] < |prog|
  }

  /** Writes a word at index `codeptr`. */
  method Put(realprog: array<Word>, codeptr: int, w: Word) returns (codeptr': int)
    requires 0 <= codeptr < realprog.Length
    modifies realprog
    ensures codeptr' == codeptr + 1 && realprog[..codeptr'] == old(realprog[..codeptr]) + [w]
  {
    realprog[codeptr] := w;
    codeptr' := codeptr + 1;
  }

  /** The translation, operand by operand. */
  lemma WordsAre(prog: seq<byte>, pc: int)
    requires Instruction(prog, pc)
    ensures var op, p, words := Op(prog[pc]), pc + 1, WordsOf(prog, pc);
            match ShapeOf(prog[pc]).value
            case Plain => words == [op]
            case Byte => words == [op, Num(prog[p])]
            case Label => words == [op, Addr(Mapped(prog, p + S32(prog, p)))]
            case TwoLabels =>
              words == [op, Addr(Mapped(prog, p + S32(prog, p))), Addr(Mapped(prog, p + 4 + S32(prog, p + 4)))]
            case SignedShort => words == [op, Num(S16(prog, p))]
            case Short => words == [op, Num(U16(prog, p))]
            case SignedLong => words == [op, Num(S32(prog, p))]
            case Long => words == [op, Num(U32(prog, p))]
            case ByteLabel => words == [op, Num(prog[p]), Addr(Mapped(prog, p + 1 + S32(prog, p + 1)))]
            case ByteShort => words == [op, Num(prog[p]), Num(U16(prog, p + 1))]
            case ShortLong => words == [op, Num(U16(prog, p)), Num(U32(prog, p + 2))]
            case Table => words == [op, Num(prog[p])] + LabelWords(prog, Labels(prog, pc))
  {
    hide Mapped, U16, S16, U32, S32;
  }

  /** Where the labels of an instruction lead. */
  lemma LabelsAre(prog: seq<byte>, pc: int)
    requires Instruction(prog, pc) && LabelsInside(prog, pc)
    ensures match ShapeOf(prog[pc]).value
            case Label => 0 <= pc + 1 + S32(prog, pc + 1) < |prog|
            case TwoLabels => 0 <= pc + 1 + S32(prog, pc + 1) < |prog| && 0 <= pc + 5 + S32(prog, pc + 5) < |prog|
            case ByteLabel => 0 <= pc + 2 + S32(prog, pc + 2) < |prog|
            case _ => true
  {
    hide S32;
    var labels := Labels(prog, pc);
    assert |labels| > 0 ==> 0 <= labels[0] < |prog|;
    assert |labels| > 1 ==> 0 <= labels[1] < |prog|;
  }

  ghost predicate MapIs(prog: seq<byte>, realaddress: seq<int>) {
    |realaddress| == |prog| && forall a :: 0 <= a < |prog| ==> realaddress[a] == Mapped(prog, a)
  }

  /** Appends the words of one instruction at index `codeptr0`. */
  method ExpandOne(prog: seq<byte>, pc0: int, realaddress: array<int>, realprog: array<Word>, codeptr0: int)
    returns (pc: int, codeptr: int)
    requires Instruction(prog, pc0) && LabelsInside(prog, pc0) && MapIs(prog, realaddress[..])
    requires 0 <= codeptr0 && codeptr0 + WordSize(prog, pc0) <= realprog.Length
    modifies realprog
    ensures pc == pc0 + ByteSize(prog, pc0) && codeptr == codeptr0 + WordSize(prog, pc0)
    ensures realprog[..codeptr] == old(realprog[..codeptr0]) + WordsOf(prog, pc0)
  {
    hide Mapped, WordsOf, Labels, LabelWords, LabelsInside, MapIs, U16, S16, U32, S32;
    WordsAre(prog, pc0);
    pc, codeptr := pc0, codeptr0;
    codeptr := Put(realprog, codeptr, Op(prog[pc]));
    pc := pc + 1;
    match ShapeOf(prog[pc0]).value {
      case Plain =>
      case Byte =>
        codeptr := Put(realprog, codeptr, Num(prog[pc]));
        pc := pc + 1;
      case Label | TwoLabels | ByteLabel =>
        pc, codeptr := ExpandJump(prog, pc0, realaddress, realprog, codeptr);
      case SignedShort =>
        codeptr := Put(realprog, codeptr, Num(S16(prog, pc)));
        pc := pc + 2;
      case Short =>
        codeptr := Put(realprog, codeptr, Num(U16(prog, pc)));
        pc := pc + 2;
      case Long =>
        codeptr := Put(realprog, codeptr, Num(U32(prog, pc)));
        pc := pc + 4;
      case SignedLong =>
        codeptr := Put(realprog, codeptr, Num(S32(prog, pc)));
        pc := pc + 4;
      case ByteShort | ShortLong =>
        pc, codeptr := ExpandPair(prog, pc0, realprog, codeptr);
      case Table =>
        codeptr := Put(realprog, codeptr, Num(prog[pc]));
        pc, codeptr := ExpandTable(prog, pc0, realaddress, realprog, codeptr);
    }
  }

  /** The operands of an instruction with two numbers. */
  method ExpandPair(prog: seq<byte>, pc0: int, realprog: array<Word>, codeptr0: int) returns (pc: int, codeptr: int)
    requires Instruction(prog, pc0) && ShapeOf(prog[pc0]).value in {ByteShort, ShortLong}
    requires 1 <= codeptr0 && codeptr0 - 1 + WordSize(prog, pc0) <= realprog.Length
    requires realprog[codeptr0 - 1] == Op(prog[pc0])
    modifies realprog
    ensures pc == pc0 + ByteSize(prog, pc0) && codeptr == codeptr0 - 1 + WordSize(prog, pc0)
    ensures realprog[..codeptr] == old(realprog[..codeptr0 - 1]) + WordsOf(prog, pc0)
  {
    hide WordsOf, U16, U32;
    WordsAre(prog, pc0);
    pc, codeptr := pc0 + 1, codeptr0;
    if ShapeOf(prog[pc0]) == Some(ByteShort) {
      codeptr := Put(realprog, codeptr, Num(prog[pc]));
      pc := pc + 1;
      codeptr := Put(realprog, codeptr, Num(U16(prog, pc)));
      pc := pc + 2;
    } else {
      codeptr := Put(realprog, codeptr, Num(U16(prog, pc)));
      pc := pc + 2;
      codeptr := Put(realprog, codeptr, Num(U32(prog, pc)));
      pc := pc + 4;
    }
  }

  /** The operands of an instruction with labels, but for tables. */
  method ExpandJump(prog: seq<byte>, pc0: int, realaddress: array<int>, realprog: array<Word>, codeptr0: int)
    returns (pc: int, codeptr: int)
    requires Instruction(prog, pc0) && LabelsInside(prog, pc0) && MapIs(prog, realaddress[..])
    requires ShapeOf(prog[pc0]).value in {Label, TwoLabels, ByteLabel}
    requires 1 <= codeptr0 && codeptr0 - 1 + WordSize(prog, pc0) <= realprog.Length
    requires realprog[codeptr0 - 1] == Op(prog[pc0])
    modifies realprog
    ensures pc == pc0 + ByteSize(prog, pc0) && codeptr == codeptr0 - 1 + WordSize(prog, pc0)
    ensures realprog[..codeptr] == old(realprog[..codeptr0 - 1]) + WordsOf(prog, pc0)
  {
    hide Mapped, WordsOf, Labels, LabelsInside, S32;
    WordsAre(prog, pc0);
    LabelsAre(prog, pc0);
    ghost var at := realaddress[..];
    pc, codeptr := pc0 + 1, codeptr0;
    if ShapeOf(prog[pc0]) == Some(ByteLabel) {
      codeptr := Put(realprog, codeptr, Num(prog[pc]));
      pc := pc + 1;
    }
    codeptr := Put(realprog, codeptr, Addr(realaddress[pc + S32(prog, pc)]));
    pc := pc + 4;
    if ShapeOf(prog[pc0]) == Some(TwoLabels) {
      codeptr := Put(realprog, codeptr, Addr(realaddress[pc + S32(prog, pc)]));
      pc := pc + 4;
    }
  }

  /** The entries of a table are labels that count from its start. */
  method ExpandTable(prog: seq<byte>, pc0: int, realaddress: array<int>, realprog: array<Word>, codeptr0: int)
    returns (pc: int, codeptr: int)
    requires Instruction(prog, pc0) && ShapeOf(prog[pc0]) == Some(Table) && LabelsInside(prog, pc0)
    requires MapIs(prog, realaddress[..])
    requires 0 <= codeptr0 && codeptr0 + |Labels(prog, pc0)| <= realprog.Length
    modifies realprog
    ensures pc == pc0 + ByteSize(prog, pc0) && codeptr == codeptr0 + |Labels(prog, pc0)|
    ensures realprog[..codeptr] == old(realprog[..codeptr0]) + LabelWords(prog, Labels(prog, pc0))
  {
    hide Mapped, LabelWords, S32;
    var n: int := prog[pc0 + 1];
    var pc1 := pc0 + 2;
    pc, codeptr := pc1, codeptr0;
    ghost var labels := Labels(prog, pc0);
    NoLabelWords(prog, labels[..0]);
    var i := 0;
    while i < n
      invariant 0 <= i <= n && pc == pc1 + 4 * i && codeptr == codeptr0 + i
      invariant realprog[..codeptr] == old(realprog[..codeptr0]) + LabelWords(prog, labels[..i])
    {
      assert labels[i] == pc1 + S32(prog, pc);
      MoreLabelWords(prog, labels, i);
      codeptr := Put(realprog, codeptr, Addr(realaddress[pc1 + S32(prog, pc)]));
      pc := pc + 4;
      i := i + 1;
    }
    assert labels[..n] == labels;
  }

  lemma NoLabelWords(prog: seq<byte>, labels: seq<int>)
    requires labels == []
    ensures LabelWords(prog, labels) == []
  {
  }

  lemma MoreLabelWords(prog: seq<byte>, labels: seq<int>, i: int)
    requires 0 <= i < |labels|
    ensures LabelWords(prog, labels[..i + 1]) == LabelWords(prog, labels[..i]) + [Addr(Mapped(prog, labels[i]))]
  {
    hide Mapped;
  }

  ghost predicate AllLabelsInside(prog: seq<byte>) {
    forall a {:trigger Instruction(prog, a)} :: IsStart(prog, 0, a) && Instruction(prog, a) ==> LabelsInside(prog, a)
  }

  /** The threaded code of a program, unless it has a bad opcode. */
  method ExpandCode(prog: seq<byte>) returns (realprog: array<Word>, ok: bool)
    requires Scanned(prog, 0) != Truncated && AllLabelsInside(prog)
    ensures ok <==> Scanned(prog, 0) == Good
    ensures ok ==> realprog[..] == Expanded(prog, 0)
  {
    hide IsStart, WordsTo, ByteSize, WordSize, WordsOf, LabelsInside, MapIs, NumBytes, LabelCount;
    var realaddress := new int[|prog|];
    var realsize;
    realsize, ok := BuildRealMap(prog, realaddress);
    if !ok {
      realprog := new Word[0];
      return;
    }
    realprog := new Word[realsize];
    var pc, codeptr := 0, 0;
    AtFirst(prog);
    while pc < |prog|
      invariant 0 <= pc && IsStart(prog, 0, pc)
      invariant 0 <= codeptr <= realprog.Length && realprog.Length == |Expanded(prog, 0)|
      invariant realprog[..codeptr] + Expanded(prog, pc) == Expanded(prog, 0)
      invariant MapIs(prog, realaddress[..])
      decreases |prog| - pc
    {
      StartIsInstruction(prog, pc);
      NextStart(prog, 0, pc);
      ghost var before, a := realprog[..codeptr], pc;
      pc, codeptr := ExpandOne(prog, pc, realaddress, realprog, codeptr);
      assert realprog[..codeptr] + Expanded(prog, pc) == before + (WordsOf(prog, a) + Expanded(prog, pc));
    }
    assert realprog[..codeptr] == realprog[..];
  }
}
