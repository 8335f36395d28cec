/** The bytes of an instruction, as the compiler lays them out (src/compiler/Buffcode.sml,
    src/compiler/Emitcode.sml, src/compiler/Labels.sml), and that decoding gives back the numbers
    and the targets. */
module Encoding {
  import opened Bytecode

  /** `out_short` and `out_long`, the lowest byte first. */
  function OutShort(n: int): (s: seq<byte>)
    ensures |s| == 2
  {
    [n % 0x100, n / 0x100 % 0x100]
  }

  function OutLong(n: int): (s: seq<byte>)
    ensures |s| == 4
  {
    [n % 0x100, n / 0x100 % 0x100, n / 0x1_0000 % 0x100, n / 0x100_0000 % 0x100]
  }

  /** Operands that the fields of the instruction can hold. */
  ghost predicate Encodable(op: int, nums: seq<int>, labels: nat) {
    && ShapeOf(op).Some? && |nums| == NumCount(ShapeOf(op).value)
    && match ShapeOf(op).value
       case Plain => labels == 0
       case Byte => labels == 0 && 0 <= nums[0] < 0x100
       case Label => labels == 1
       case TwoLabels => labels == 2
       case SignedShort => labels == 0 && -0x8000 <= nums[0] < 0x8000
       case Short => labels == 0 && 0 <= nums[0] < 0x1_0000
       case Long => labels == 0 && 0 <= nums[0] < 0x1_0000_0000
       case SignedLong => labels == 0 && -0x8000_0000 <= nums[0] < 0x8000_0000
       case ByteLabel => labels == 1 && 0 <= nums[0] < 0x100
       case ByteShort => labels == 0 && 0 <= nums[0] < 0x100 && 0 <= nums[1] < 0x1_0000
       case ShortLong => labels == 0 && 0 <= nums[0] < 0x1_0000 && 0 <= nums[1] < 0x1_0000_0000
       case Table => 0 <= nums[0] < 0x100 && labels == nums[0]
  }

  /** The opcode and the numbers; the labels come behind them. */
  ghost function Head(op: int, nums: seq<int>): (s: seq<byte>)
    requires ShapeOf(op).Some? && |nums| == NumCount(ShapeOf(op).value)
    ensures |s| == 1 + NumBytes(ShapeOf(op).value)
  {
    [op] +
    match ShapeOf(op).value
    case Byte | ByteLabel | Table => [nums[0] % 0x100]
    case SignedShort | Short => OutShort(nums[0])
    case SignedLong | Long => OutLong(nums[0])
    case ByteShort => [nums[0] % 0x100] + OutShort(nums[1])
    case ShortLong => OutShort(nums[0]) + OutLong(nums[1])
    case _ => []
  }

  /** The head, shape by shape. */
  lemma HeadIs(op: int, nums: seq<int>)
    requires ShapeOf(op).Some? && |nums| == NumCount(ShapeOf(op).value)
    ensures match ShapeOf(op).value
            case Byte | ByteLabel | Table => Head(op, nums) == [op] + [nums[0] % 0x100]
            case SignedShort | Short => Head(op, nums) == [op] + OutShort(nums[0])
            case SignedLong | Long => Head(op, nums) == [op] + OutLong(nums[0])
            case ByteShort => Head(op, nums) == [op] + ([nums[0] % 0x100] + OutShort(nums[1]))
            case ShortLong => Head(op, nums) == [op] + (OutShort(nums[0]) + OutLong(nums[1]))
            case _ => Head(op, nums) == [op]
  {
    hide OutShort, OutLong, ShapeOf;
  }

  /** Where label `j` of the instruction at `pc` lies, and from where it counts: from there, but in
      a table from the first entry. */
  ghost function Slot(pc: int, op: int, j: int): int
    requires ShapeOf(op).Some?
  {
    pc + 1 + NumBytes(ShapeOf(op).value) + 4 * j
  }

  ghost function Origin(pc: int, op: int, j: int): int
    requires ShapeOf(op).Some?
  {
    if op == SWITCH then pc + 2 else Slot(pc, op, j)
  }

  ghost predicate BytesAt(prog: seq<byte>, p: int, bytes: seq<byte>) {
    0 <= p && p + |bytes| <= |prog| && prog[p..p + |bytes|] == bytes
  }

  /** At `pc` lies the instruction with the given numbers, its labels leading to the targets. */
  ghost predicate EncodedAt(prog: seq<byte>, pc: int, op: int, nums: seq<int>, targets: seq<int>) {
    && Encodable(op, nums, |targets|) && BytesAt(prog, pc, Head(op, nums))
    && forall j :: 0 <= j < |targets| ==>
         var d := targets[j] - Origin(pc, op, j);
         BytesAt(prog, Slot(pc, op, j), OutLong(d)) && -0x8000_0000 <= d < 0x8000_0000
  }

  // ----- Numbers -----

  lemma ShortRead(prog: seq<byte>, p: int, n: int)
    requires BytesAt(prog, p, OutShort(n))
    ensures 0 <= n < 0x1_0000 ==> U16(prog, p) == n
    ensures -0x8000 <= n < 0x8000 ==> S16(prog, p) == n
  {
    var b := prog[p..p + 2];
    assert prog[p] == b[0] && prog[p + 1] == b[1];
  }

  lemma LongRead(prog: seq<byte>, p: int, n: int)
    requires BytesAt(prog, p, OutLong(n))
    ensures 0 <= n < 0x1_0000_0000 ==> U32(prog, p) == n
    ensures -0x8000_0000 <= n < 0x8000_0000 ==> S32(prog, p) == n
  {
    var b := prog[p..p + 4];
    assert prog[p] == b[0] && prog[p + 1] == b[1] && prog[p + 2] == b[2] && prog[p + 3] == b[3];
    Digits(n);
  }

  lemma Digits(n: int)
    ensures n == n % 0x100 + 0x100 * (n / 0x100 % 0x100) + 0x1_0000 * (n / 0x1_0000 % 0x100) +
                 0x100_0000 * (n / 0x100_0000)
    ensures 0 <= n < 0x1_0000_0000 ==> n / 0x100_0000 % 0x100 == n / 0x100_0000
    ensures -0x8000_0000 <= n < 0 ==> n / 0x100_0000 % 0x100 == n / 0x100_0000 + 0x100
    ensures 0 <= n < 0x8000_0000 ==> n / 0x100_0000 < 128
    ensures -0x8000_0000 <= n < 0 ==> n / 0x100_0000 % 0x100 >= 128
  {
    Shifts(n);
  }

  // ----- Decoding -----

  lemma HeadPart(prog: seq<byte>, pc: int, head: seq<byte>, i: int, part: seq<byte>)
    requires BytesAt(prog, pc, head) && 0 <= i && i + |part| <= |head| && head[i..i + |part|] == part
    ensures BytesAt(prog, pc + i, part)
  {
    forall k | 0 <= k < |part|
      ensures prog[pc + i..pc + i + |part|][k] == part[k]
    {
      assert prog[pc..pc + |head|][i + k] == head[i + k] == head[i..i + |part|][k];
    }
  }

  lemma NumsRead(prog: seq<byte>, pc: int, op: int, nums: seq<int>, labels: nat)
    requires Encodable(op, nums, labels) && BytesAt(prog, pc, Head(op, nums))
    ensures 0 <= pc < |prog| && prog[pc] == op && pc + 1 + NumBytes(ShapeOf(op).value) <= |prog|
    ensures LabelCount(ShapeOf(op).value, FirstByte(prog, pc)) == labels
    ensures Instruction(prog, pc) ==> Nums(prog, pc) == nums
  {
    hide OutShort, OutLong, U16, S16, U32, S32, ShapeOf, Head, BytesAt, Instruction;
    var head := Head(op, nums);
    HeadIs(op, nums);
    HeadStarts(prog, pc, head);
    match ShapeOf(op).value {
      case Byte | ByteLabel | Table =>
      case SignedShort | Short =>
        HeadPart(prog, pc, head, 1, OutShort(nums[0]));
        ShortRead(prog, pc + 1, nums[0]);
      case SignedLong | Long =>
        HeadPart(prog, pc, head, 1, OutLong(nums[0]));
        LongRead(prog, pc + 1, nums[0]);
      case ByteShort =>
        HeadPart(prog, pc, head, 2, OutShort(nums[1]));
        ShortRead(prog, pc + 2, nums[1]);
      case ShortLong =>
        HeadPart(prog, pc, head, 1, OutShort(nums[0]));
        HeadPart(prog, pc, head, 3, OutLong(nums[1]));
        ShortRead(prog, pc + 1, nums[0]);
        LongRead(prog, pc + 3, nums[1]);
      case _ =>
    }
    InstructionStarts(prog, pc);
  }

  lemma HeadStarts(prog: seq<byte>, pc: int, head: seq<byte>)
    requires BytesAt(prog, pc, head) && |head| >= 1
    ensures 0 <= pc && pc + |head| <= |prog| && prog[pc] == head[0] && (|head| >= 2 ==> prog[pc + 1] == head[1])
  {
    assert prog[pc] == prog[pc..pc + |head|][0];
    assert |head| >= 2 ==> prog[pc + 1] == prog[pc..pc + |head|][1];
  }

  lemma InstructionStarts(prog: seq<byte>, pc: int)
    ensures Instruction(prog, pc) ==> 0 <= pc < |prog| && ShapeOf(prog[pc]).Some?
    ensures Instruction(prog, pc) ==> pc + 1 + NumBytes(ShapeOf(prog[pc]).value) <= |prog|
  {
    hide ShapeOf;
  }

  lemma SwitchIsTable(op: int)
    requires ShapeOf(op).Some?
    ensures ShapeOf(op).value.Table? <==> op == SWITCH
  {
  }

  lemma LabelsRead(prog: seq<byte>, pc: int, op: int, targets: seq<int>)
    requires Instruction(prog, pc) && prog[pc] == op
    requires |targets| == LabelCount(ShapeOf(op).value, FirstByte(prog, pc))
    requires forall j :: 0 <= j < |targets| ==>
               Slot(pc, op, j) + 4 <= |prog| && S32(prog, Slot(pc, op, j)) == targets[j] - Origin(pc, op, j)
    ensures Labels(prog, pc) == targets
  {
    hide ShapeOf, S32;
    SwitchIsTable(op);
    var labels := Labels(prog, pc);
    forall j | 0 <= j < |targets|
      ensures labels[j] == targets[j]
    {
      assert S32(prog, Slot(pc, op, j)) == targets[j] - Origin(pc, op, j);
    }
  }

  /** An instruction that has been laid out is decoded to the same numbers and targets, whatever its
      shape. */
  lemma Decoded(prog: seq<byte>, pc: int, op: int, nums: seq<int>, targets: seq<int>)
    requires EncodedAt(prog, pc, op, nums, targets)
    ensures Instruction(prog, pc) && prog[pc] == op
    ensures Nums(prog, pc) == nums && Labels(prog, pc) == targets
    ensures ByteSize(prog, pc) == |Head(op, nums)| + 4 * |targets|
  {
    hide OutLong, ShapeOf, Head;
    NumsRead(prog, pc, op, nums, |targets|);
    if targets != [] {
      var j := |targets| - 1;
      assert BytesAt(prog, Slot(pc, op, j), OutLong(targets[j] - Origin(pc, op, j)));
    }
    forall j | 0 <= j < |targets|
      ensures Slot(pc, op, j) + 4 <= |prog| && S32(prog, Slot(pc, op, j)) == targets[j] - Origin(pc, op, j)
    {
      LongRead(prog, Slot(pc, op, j), targets[j] - Origin(pc, op, j));
    }
    LabelsRead(prog, pc, op, targets);
  }

  /** A SWITCH of two labels with offsets 8 and 9: both count from the first of them. */
  lemma TableFromStart(prog: seq<byte>)
    requires prog == [2, 2, 8, 0, 0, 0, 9, 0, 0, 0, 200, 200, 200, 200, 200, 200]
    ensures Instruction(prog, 0) && Nums(prog, 0) == [2] && Labels(prog, 0) == [10, 11]
  {
    assert S32(prog, 2) == 8 && S32(prog, 6) == 9;
  }

  // ----- Encoding what has been decoded -----

  lemma ShortWritten(prog: seq<byte>, p: int)
    requires 0 <= p && p + 2 <= |prog|
    ensures BytesAt(prog, p, OutShort(U16(prog, p))) && BytesAt(prog, p, OutShort(S16(prog, p)))
    ensures 0 <= U16(prog, p) < 0x1_0000 && -0x8000 <= S16(prog, p) < 0x8000
  {
    assert prog[p..p + 2] == [prog[p], prog[p + 1]];
  }

  lemma LongWritten(prog: seq<byte>, p: int)
    requires 0 <= p && p + 4 <= |prog|
    ensures BytesAt(prog, p, OutLong(U32(prog, p))) && BytesAt(prog, p, OutLong(S32(prog, p)))
    ensures 0 <= U32(prog, p) < 0x1_0000_0000 && -0x8000_0000 <= S32(prog, p) < 0x8000_0000
  {
    assert prog[p..p + 4] == [prog[p], prog[p + 1], prog[p + 2], prog[p + 3]];
    DigitsOf(prog[p], prog[p + 1], prog[p + 2], prog[p + 3]);
  }

  lemma DigitsOf(a: int, b: int, c: int, d: int)
    requires 0 <= a < 0x100 && 0 <= b < 0x100 && 0 <= c < 0x100 && 0 <= d < 0x100
    ensures OutLong(a + 0x100 * b + 0x1_0000 * c + 0x100_0000 * d) == [a, b, c, d]
    ensures OutLong(a + 0x100 * b + 0x1_0000 * c + 0x100_0000 * d - 0x1_0000_0000) == [a, b, c, d]
  {
    DigitsAre(a, b, c, d, 0);
    DigitsAre(a, b, c, d, -1);
  }

  lemma DigitsAre(a: int, b: int, c: int, d: int, e: int)
    requires 0 <= a < 0x100 && 0 <= b < 0x100 && 0 <= c < 0x100 && 0 <= d < 0x100
    ensures OutLong(a + 0x100 * b + 0x1_0000 * c + 0x100_0000 * d + 0x1_0000_0000 * e) == [a, b, c, d]
  {
    var n := a + 0x100 * b + 0x1_0000 * c + 0x100_0000 * d + 0x1_0000_0000 * e;
    LastDigit(a, b + 0x100 * c + 0x1_0000 * d + 0x100_0000 * e);
    LastDigit(b, c + 0x100 * d + 0x1_0000 * e);
    LastDigit(c, d + 0x100 * e);
    LastDigit(d, e);
    Shifts(n);
  }

  lemma LastDigit(a: int, q: int)
    requires 0 <= a < 0x100
    ensures (a + 0x100 * q) % 0x100 == a && (a + 0x100 * q) / 0x100 == q
  {
  }

  lemma Shifts(n: int)
    ensures n / 0x1_0000 == n / 0x100 / 0x100 && n / 0x100_0000 == n / 0x100 / 0x100 / 0x100
  {
  }

  lemma NumsWritten(prog: seq<byte>, pc: int)
    requires Instruction(prog, pc)
    ensures Encodable(prog[pc], Nums(prog, pc), |Labels(prog, pc)|)
    ensures BytesAt(prog, pc, Head(prog[pc], Nums(prog, pc)))
  {
    hide OutShort, OutLong, U16, S16, U32, S32, ShapeOf;
    var nums, p := Nums(prog, pc), pc + 1;
    match ShapeOf(prog[pc]).value {
      case Byte | ByteLabel | Table =>
      case SignedShort | Short => ShortWritten(prog, p);
      case SignedLong | Long => LongWritten(prog, p);
      case ByteShort => ShortWritten(prog, p + 1);
      case ShortLong =>
        ShortWritten(prog, p);
        LongWritten(prog, p + 2);
      case _ =>
    }
    var n := NumBytes(ShapeOf(prog[pc]).value);
    Joined(prog, pc, [prog[pc]], Head(prog[pc], nums)[1..]) by {
      assert prog[p..p + n] == Head(prog[pc], nums)[1..] by {
        match ShapeOf(prog[pc]).value {
          case ByteShort => assert prog[p..p + n] == [prog[p]] + prog[p + 1..p + 3];
          case ShortLong => assert prog[p..p + n] == prog[p..p + 2] + prog[p + 2..p + 6];
          case _ =>
        }
      }
    }
    assert Head(prog[pc], nums) == [prog[pc]] + Head(prog[pc], nums)[1..];
  }

  lemma Joined(prog: seq<byte>, p: int, a: seq<byte>, b: seq<byte>)
    requires BytesAt(prog, p, a) && BytesAt(prog, p + |a|, b)
    ensures BytesAt(prog, p, a + b)
  {
    assert prog[p..p + |a + b|] == prog[p..p + |a|] + prog[p + |a|..p + |a| + |b|];
  }

  /** Any instruction is laid out as the one with its numbers and targets is. */
  lemma Encoded(prog: seq<byte>, pc: int)
    requires Instruction(prog, pc)
    ensures EncodedAt(prog, pc, prog[pc], Nums(prog, pc), Labels(prog, pc))
  {
    hide OutLong, S32, ShapeOf, Nums, Labels, Head, Slot, Origin, BytesAt;
    NumsWritten(prog, pc);
    var targets := Labels(prog, pc);
    forall j | 0 <= j < |targets|
      ensures var d := targets[j] - Origin(pc, prog[pc], j);
              BytesAt(prog, Slot(pc, prog[pc], j), OutLong(d)) && -0x8000_0000 <= d < 0x8000_0000
    {
      LabelAt(prog, pc, j);
      LongWritten(prog, Slot(pc, prog[pc], j));
    }
  }

  lemma LabelAt(prog: seq<byte>, pc: int, j: int)
    requires Instruction(prog, pc) && 0 <= j < |Labels(prog, pc)|
    ensures 0 <= Slot(pc, prog[pc], j) && Slot(pc, prog[pc], j) + 4 <= |prog|
    ensures Labels(prog, pc)[j] == Origin(pc, prog[pc], j) + S32(prog, Slot(pc, prog[pc], j))
  {
    hide S32, ShapeOf, Nums;
    SwitchIsTable(prog[pc]);
  }
}
