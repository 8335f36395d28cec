/** Bytecode (src/runtime/instruct.h, src/runtime/unalignd.h): the instructions with their
    operands, and where they lie. */
module Bytecode {
  import opened Options

  type byte = b: int | 0 <= b < 256

  // ----- Opcodes: those that have operands or pass control -----

  const CONSTBYTE := 0
  const CONSTSHORT := 1
  const SWITCH := 2
  const BRANCH := 3
  const BRANCHIF := 4
  const BRANCHIFNOT := 5
  const POPBRANCHIFNOT := 6
  const BRANCHIFNEQTAG := 7
  const BRANCHIFEQ := 8
  const BRANCHIFNEQ := 9
  const BRANCHIFLT := 10
  const BRANCHIFGT := 11
  const BRANCHIFLE := 12
  const BRANCHIFGE := 13
  const BRANCHINTERVAL := 14
  const C_CALL1 := 15
  const C_CALL2 := 16
  const C_CALL3 := 17
  const C_CALL4 := 18
  const C_CALL5 := 19
  const C_CALLN := 20
  const MAKEBLOCK := 21
  const MAKEBLOCK1 := 22
  const MAKEBLOCK2 := 23
  const MAKEBLOCK3 := 24
  const MAKEBLOCK4 := 25
  const ACCESS := 27
  const PUSHACC := 36
  const ENVACC := 45
  const PUSHENVACC := 53
  const PUSH_ENV1_APPLY1 := 61
  const PUSH_ENV1_APPLY2 := 62
  const PUSH_ENV1_APPLY3 := 63
  const PUSH_ENV1_APPLY4 := 64
  const PUSH_ENV1_APPTERM1 := 65
  const PUSH_ENV1_APPTERM2 := 66
  const PUSH_ENV1_APPTERM3 := 67
  const PUSH_ENV1_APPTERM4 := 68
  const PUSHATOM := 69
  const ATOM := 70
  const CONSTINT := 82
  const PUSHCONSTINT := 83
  const GETFIELD := 92
  const SETFIELD := 101
  const GETGLOBAL := 106
  const PUSH_GETGLOBAL := 107
  const PUSH_GETGLOBAL_APPLY1 := 108
  const PUSH_GETGLOBAL_APPLY2 := 109
  const PUSH_GETGLOBAL_APPLY3 := 110
  const PUSH_GETGLOBAL_APPLY4 := 111
  const PUSH_GETGLOBAL_APPTERM1 := 112
  const PUSH_GETGLOBAL_APPTERM2 := 113
  const PUSH_GETGLOBAL_APPTERM3 := 114
  const PUSH_GETGLOBAL_APPTERM4 := 115
  const SETGLOBAL := 116
  const PUSH_RETADDR := 117
  const APPLY := 118
  const APPLY1 := 119
  const APPLY2 := 120
  const APPLY3 := 121
  const APPLY4 := 122
  const APPTERM := 123
  const APPTERM1 := 124
  const APPTERM2 := 125
  const APPTERM3 := 126
  const APPTERM4 := 127
  const RESTART := 128
  const GRAB := 129
  const RETURN1 := 130
  const RETURN2 := 131
  const RETURN := 132
  const CLOSURE := 133
  const CLOSREC := 134
  const DUMMY := 135
  const PUSHTRAP := 137
  const RAISE := 138
  const POPTRAP := 139
  const POP := 142
  const ASSIGN := 143
  const CHECK_SIGNALS := 199
  const STOP := 200
  const GEUNSIGN := 206

  /** What follows an opcode: numbers of one, two or four bytes, then labels of four. */
  datatype Shape =
    | Plain | Byte | Label | TwoLabels | SignedShort | Short | Long | SignedLong
    | ByteLabel | ByteShort | ShortLong | Table

  /** `None` for a bad opcode. */
  function ShapeOf(op: int): Option<Shape> {
    if 0 <= op <= GEUNSIGN then
      if op in {APPLY, GRAB, PUSHATOM, ATOM, MAKEBLOCK1, MAKEBLOCK2, MAKEBLOCK3, MAKEBLOCK4,
                CONSTBYTE} then Some(Byte)
      else if op in {PUSH_RETADDR, PUSHTRAP, BRANCH, BRANCHIF, BRANCHIFNOT, POPBRANCHIFNOT,
                     BRANCHIFEQ, BRANCHIFNEQ, BRANCHIFLT, BRANCHIFGT, BRANCHIFLE, BRANCHIFGE} then Some(Label)
      else if op in {BRANCHINTERVAL} then Some(TwoLabels)
      else if op in {CONSTSHORT} then Some(SignedShort)
      else if op in {PUSHACC, ACCESS, POP, ASSIGN, PUSHENVACC, ENVACC, DUMMY, RETURN, APPTERM1,
                     APPTERM2, APPTERM3, APPTERM4, PUSH_ENV1_APPTERM1, PUSH_ENV1_APPTERM2,
                     PUSH_ENV1_APPTERM3, PUSH_ENV1_APPTERM4, GETFIELD, SETFIELD, C_CALL1, C_CALL2,
                     C_CALL3, C_CALL4, C_CALL5} then Some(Short)
      else if op in {MAKEBLOCK, SETGLOBAL, GETGLOBAL, PUSH_GETGLOBAL, PUSH_GETGLOBAL_APPLY1,
                     PUSH_GETGLOBAL_APPLY2, PUSH_GETGLOBAL_APPLY3, PUSH_GETGLOBAL_APPLY4} then Some(Long)
      else if op in {PUSHCONSTINT, CONSTINT} then Some(SignedLong)
      else if op in {CLOSURE, CLOSREC, BRANCHIFNEQTAG} then Some(ByteLabel)
      else if op in {APPTERM, C_CALLN} then Some(ByteShort)
      else if op in {PUSH_GETGLOBAL_APPTERM1, PUSH_GETGLOBAL_APPTERM2, PUSH_GETGLOBAL_APPTERM3,
                     PUSH_GETGLOBAL_APPTERM4} then Some(ShortLong)
      else if op in {SWITCH} then Some(Table)
      else Some(Plain)
    else None
  }

  // ----- Operands, the lowest byte first -----

  function U16(prog: seq<byte>, p: int): int
    requires 0 <= p && p + 2 <= |prog|
  {
    prog[p] as int + 256 * prog[p + 1] as int
  }

  function S16(prog: seq<byte>, p: int): int
    requires 0 <= p && p + 2 <= |prog|
  {
    if prog[p + 1] >= 128 then U16(prog, p) - 0x1_0000 else U16(prog, p)
  }

  function U32(prog: seq<byte>, p: int): int
    requires 0 <= p && p + 4 <= |prog|
  {
    prog[p] as int + 256 * prog[p + 1] as int + 0x1_0000 * prog[p + 2] as int + 0x100_0000 * prog[p + 3] as int
  }

  function S32(prog: seq<byte>, p: int): int
    requires 0 <= p && p + 4 <= |prog|
  {
    if prog[p + 3] >= 128 then U32(prog, p) - 0x1_0000_0000 else U32(prog, p)
  }

  // ----- Instructions -----

  function NumBytes(shape: Shape): nat {
    match shape
    case Byte | ByteLabel | Table => 1
    case SignedShort | Short => 2
    case ByteShort => 3
    case Long | SignedLong => 4
    case ShortLong => 6
    case _ => 0
  }

  function NumCount(shape: Shape): nat {
    match shape
    case Plain | Label | TwoLabels => 0
    case ByteShort | ShortLong => 2
    case _ => 1
  }

  /** The number of labels; `n` is the first operand of a table. */
  function LabelCount(shape: Shape, n: int): nat {
    match shape
    case Label | ByteLabel => 1
    case TwoLabels => 2
    case Table => if n < 0 then 0 else n
    case _ => 0
  }

  function FirstByte(prog: seq<byte>, pc: int): int {
    if 0 <= pc && pc + 1 < |prog| then prog[pc + 1] else 0
  }

  /** The bytes and the words that the instruction at `pc` takes. */
  function ByteSize(prog: seq<byte>, pc: int): (n: int)
    requires 0 <= pc < |prog| && ShapeOf(prog[pc]).Some?
    ensures n >= 1
  {
    var shape := ShapeOf(prog[pc]).value;
    1 + NumBytes(shape) + 4 * LabelCount(shape, FirstByte(prog, pc))
  }

  function WordSize(prog: seq<byte>, pc: int): (n: int)
    requires 0 <= pc < |prog| && ShapeOf(prog[pc]).Some?
    ensures n >= 1
  {
    var shape := ShapeOf(prog[pc]).value;
    1 + NumCount(shape) + LabelCount(shape, FirstByte(prog, pc))
  }

  /** A whole instruction lies at `pc`. */
  predicate Instruction(prog: seq<byte>, pc: int) {
    && 0 <= pc < |prog| && ShapeOf(prog[pc]).Some?
    && pc + 1 + NumBytes(ShapeOf(prog[pc]).value) <= |prog|
    && pc + ByteSize(prog, pc) <= |prog|
  }

  /** The numbers among its operands. */
  function Nums(prog: seq<byte>, pc: int): (ns: seq<int>)
    requires Instruction(prog, pc)
    ensures |ns| == NumCount(ShapeOf(prog[pc]).value)
  {
    match ShapeOf(prog[pc]).value
    case Byte | ByteLabel | Table => [prog[pc + 1]]
    case SignedShort => [S16(prog, pc + 1)]
    case Short => [U16(prog, pc + 1)]
    case SignedLong => [S32(prog, pc + 1)]
    case Long => [U32(prog, pc + 1)]
    case ByteShort => [prog[pc + 1], U16(prog, pc + 2)]
    case ShortLong => [U16(prog, pc + 1), U32(prog, pc + 3)]
    case _ => []
  }

  /** The addresses that its labels stand for; those of a table count from its start. */
  function Labels(prog: seq<byte>, pc: int): (ls: seq<int>)
    requires Instruction(prog, pc)
    ensures |ls| == LabelCount(ShapeOf(prog[pc]).value, FirstByte(prog, pc))
  {
    match ShapeOf(prog[pc]).value
    case Label => [pc + 1 + S32(prog, pc + 1)]
    case TwoLabels => [pc + 1 + S32(prog, pc + 1), pc + 5 + S32(prog, pc + 5)]
    case ByteLabel => [pc + 2 + S32(prog, pc + 2)]
    case Table => seq(prog[pc + 1], i requires 0 <= i < prog[pc + 1] => pc + 2 + S32(prog, pc + 2 + 4 * i))
    case _ => []
  }

  // ----- Where instructions start -----

  /** Going from instruction to instruction from `p` on, one comes to `a`. */
  ghost predicate IsStart(prog: seq<byte>, p: int, a: int)
    decreases |prog| - p
  {
    p == a || (p < a && Instruction(prog, p) && IsStart(prog, p + ByteSize(prog, p), a))
  }

  /** The words of the instructions from `p` on that start before `a`. */
  ghost function WordsTo(prog: seq<byte>, p: int, a: int): nat
    decreases |prog| - p
  {
    if p >= a || !Instruction(prog, p) then 0
    else WordSize(prog, p) + WordsTo(prog, p + ByteSize(prog, p), a)
  }

  /** The index of the translated instruction for the one at `a`. */
  ghost function Real(prog: seq<byte>, a: int): nat {
    WordsTo(prog, 0, a)
  }

  datatype Scan = Good | BadOpcode | Truncated

  ghost function Scanned(prog: seq<byte>, p: int): Scan
    decreases |prog| - p
  {
    if p == |prog| then Good
    else if p < 0 || p > |prog| then Truncated
    else if ShapeOf(prog[p]).None? then BadOpcode
    else if !Instruction(prog, p) then Truncated
    else Scanned(prog, p + ByteSize(prog, p))
  }

  /** One instruction after a start is the next one, with nothing in between. */
  lemma {:induction false} NextStart(prog: seq<byte>, p: int, a: int)
    requires IsStart(prog, p, a) && Instruction(prog, a)
    ensures IsStart(prog, p, a + ByteSize(prog, a))
    ensures WordsTo(prog, p, a + ByteSize(prog, a)) == WordsTo(prog, p, a) + WordSize(prog, a)
    ensures forall b :: a < b < a + ByteSize(prog, a) ==> !IsStart(prog, p, b)
    decreases |prog| - p
  {
    if p < a {
      NextStart(prog, p + ByteSize(prog, p), a);
    } else {
      assert WordsTo(prog, a + ByteSize(prog, a), a + ByteSize(prog, a)) == 0;
    }
  }

  /** No instruction starts above the end, and none between two starts is cut. */
  lemma {:induction false} StartInside(prog: seq<byte>, p: int, a: int)
    requires IsStart(prog, p, a) && Scanned(prog, p) != Truncated
    ensures p <= a <= |prog| && Scanned(prog, a) == Scanned(prog, p)
    decreases |prog| - p
  {
    if p < a {
      StartInside(prog, p + ByteSize(prog, p), a);
    }
  }

  lemma StartIsInstruction(prog: seq<byte>, a: int)
    requires IsStart(prog, 0, a) && Scanned(prog, 0) == Good && a < |prog|
    ensures Instruction(prog, a)
  {
    StartInside(prog, 0, a);
  }

  lemma {:induction false} WordsMonotone(prog: seq<byte>, p: int, a: int, b: int)
    requires a <= b
    ensures WordsTo(prog, p, a) <= WordsTo(prog, p, b)
    decreases |prog| - p
  {
    if p < a && Instruction(prog, p) {
      WordsMonotone(prog, p + ByteSize(prog, p), a, b);
    }
  }
}
