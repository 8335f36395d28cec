/** The compact format of structured output (src/runtime/externcp.c, src/runtime/interncp.c,
    src/runtime/intext.h): what a machine with 64-bit words writes for a value, and what machines
    with words of 8 or of 4 bytes read from any bytes. */
module Compact {
  /** A value: an integer, an atom, or a pointer to an object. */
  datatype Val = Int(n: int) | Atom(tag: int) | Ref(a: int)

  type byte = b: int | 0 <= b < 256

  datatype Node = Str(bytes: seq<byte>) | Dbl(bytes: seq<byte>) | Blk(tag: int, fields: seq<Val>)

  /** An object and the colour in its header. */
  datatype Cell = Cell(color: int, node: Node)

  type Mem = map<int, Cell>

  const PREFIX_SMALL_BLOCK := 0x80
  const PREFIX_SMALL_INT := 0x40
  const PREFIX_SMALL_STRING := 0x20
  const CODE_INT8 := 0x0
  const CODE_INT16 := 0x1
  const CODE_INT32 := 0x2
  const CODE_INT64 := 0x3
  const CODE_SHARED8 := 0x4
  const CODE_SHARED16 := 0x5
  const CODE_SHARED32 := 0x6
  const CODE_BLOCK32 := 0x8
  const CODE_STRING8 := 0x9
  const CODE_STRING32 := 0xA
  const CODE_DOUBLE := 0xB

  const CLOSURE_TAG := 249
  const ABSTRACT_TAG := 252
  const STRING_TAG := 253
  const DOUBLE_TAG := 254
  const FINAL_TAG := 255

  ghost predicate ValOk(m: Mem, v: Val) {
    match v
    case Int(n) => -0x4000_0000_0000_0000 <= n < 0x4000_0000_0000_0000
    case Atom(tag) => 0 <= tag < 256
    case Ref(a) => a in m
  }

  ghost predicate AllOk(m: Mem, fs: seq<Val>) {
    forall k :: 0 <= k < |fs| ==> ValOk(m, fs[k])
  }

  ghost predicate NodeOk(m: Mem, o: Node) {
    match o
    case Str(_) => true
    case Dbl(bytes) => |bytes| == 8
    case Blk(tag, fields) =>
      0 <= tag < 256 && tag != STRING_TAG && tag != DOUBLE_TAG && fields != [] && AllOk(m, fields)
  }

  ghost predicate CellOk(m: Mem, a: int)
    requires a in m
  {
    0 <= m[a].color < 4 && NodeOk(m, m[a].node)
  }

  ghost predicate MemOk(m: Mem) {
    forall a {:trigger CellOk(m, a)} :: a in m ==> CellOk(m, a)
  }

  // ----- Numbers -----

  function Pow256(n: nat): (p: int)
    ensures p >= 1
  {
    if n == 0 then 1 else 256 * Pow256(n - 1)
  }

  /** The lowest `n` bytes of a number, the most significant one first. */
  function Bytes(v: int, n: nat): (s: seq<byte>)
    ensures |s| == n
    decreases n
  {
    if n == 0 then [] else Bytes(v / 256, n - 1) + [v % 256]
  }

  function Unsigned(s: seq<byte>): nat {
    if s == [] then 0 else Unsigned(s[..|s| - 1]) * 256 + s[|s| - 1]
  }

  /** The first byte counts as negative when its top bit is set. */
  function Signed(s: seq<byte>): int
    requires s != []
  {
    if |s| == 1 then (if s[0] >= 128 then s[0] - 256 else s[0]) else Signed(s[..|s| - 1]) * 256 + s[|s| - 1]
  }

  /** What is read back is the number modulo a power of 256. */
  lemma {:induction false} UnsignedBytes(v: int, n: nat)
    ensures Unsigned(Bytes(v, n)) == v % Pow256(n)
    decreases n
  {
    if n > 0 {
      UnsignedBytes(v / 256, n - 1);
      assert Bytes(v, n)[..n - 1] == Bytes(v / 256, n - 1);
      ModStep(v, Pow256(n - 1));
    }
  }

  lemma ModStep(v: int, p: int)
    requires p >= 1
    ensures v % (256 * p) == ((v / 256) % p) * 256 + v % 256
  {
    var q, r := v / 256, v % 256;
    var a, b := q / p, q % p;
    assert v == 256 * q + r && q == a * p + b;
    assert v == a * (256 * p) + (b * 256 + r) by {
      assert 256 * (a * p + b) == a * (256 * p) + b * 256;
    }
    ModUnique(v, 256 * p, a, b * 256 + r);
  }

  lemma ModUnique(v: int, m: int, q: int, r: int)
    requires m > 0 && v == q * m + r && 0 <= r < m
    ensures v % m == r
  {
    var e := v / m;
    assert v == e * m + v % m;
    assert (q - e) * m == v % m - r;
    Multiple(q - e, m);
  }

  lemma Multiple(e: int, d: int)
    requires d > 0
    ensures (e >= 1 ==> e * d >= d) && (e <= -1 ==> e * d <= -d)
  {
  }

  /** A number that fits the bytes, sign included, is read back as it is. */
  lemma {:induction false} SignedBytes(v: int, n: nat)
    requires n > 0 && -128 * Pow256(n - 1) <= v < 128 * Pow256(n - 1)
    ensures Signed(Bytes(v, n)) == v
    decreases n
  {
    if n == 1 {
      assert Bytes(v, 1) == [v % 256];
    } else {
      var p := Pow256(n - 2);
      assert Pow256(n - 1) == 256 * p;
      SignedBytes(v / 256, n - 1);
      assert Bytes(v, n)[..n - 1] == Bytes(v / 256, n - 1);
    }
  }

  // ----- Writing -----

  function EmitInt(n: int): (s: seq<byte>) {
    if 0 <= n < 0x40 then [PREFIX_SMALL_INT + n]
    else if -0x80 <= n < 0x80 then [CODE_INT8] + Bytes(n, 1)
    else if -0x8000 <= n < 0x8000 then [CODE_INT16] + Bytes(n, 2)
    else if n < -0x8000_0000 || n >= 0x8000_0000 then [CODE_INT64] + Bytes(n, 8)
    else [CODE_INT32] + Bytes(n, 4)
  }

  function EmitShared(d: int): (s: seq<byte>) {
    if d < 0x100 then [CODE_SHARED8] + Bytes(d, 1)
    else if d < 0x1_0000 then [CODE_SHARED16] + Bytes(d, 2)
    else [CODE_SHARED32] + Bytes(d, 4)
  }

  function EmitString(bytes: seq<byte>): (s: seq<byte>) {
    (if |bytes| < 0x20 then [PREFIX_SMALL_STRING + |bytes|]
     else if |bytes| < 0x100 then [CODE_STRING8] + Bytes(|bytes|, 1)
     else [CODE_STRING32] + Bytes(|bytes|, 4)) + bytes
  }

  /** The header: size, colour and tag. */
  function EmitHeader(tag: int, size: int, color: int): (s: seq<byte>)
    requires 0 <= tag < 256 && 0 <= size
  {
    if tag < 16 && size < 8 then [PREFIX_SMALL_BLOCK + tag + 16 * size]
    else [CODE_BLOCK32] + Bytes(size * 1024 + color * 256 + tag, 4)
  }

  /** The bytes written, and the objects met so far in their order; or nothing when there is an
      abstract or functional value. */
  datatype Emitted = Rejected | Emitted(out: seq<byte>, table: seq<int>)

  function IndexOf(t: seq<int>, a: int): (i: int)
    requires a in t
    ensures 0 <= i < |t| && t[i] == a && forall k :: 0 <= k < i ==> t[k] != a
  {
    if t[0] == a then 0 else 1 + IndexOf(t[1..], a)
  }

  function NotYet(m: Mem, t: seq<int>): set<int> {
    m.Keys - set a | a in t
  }

  lemma OneLess(m: Mem, t: seq<int>, a: int)
    requires a in m && a !in t
    ensures |NotYet(m, t + [a])| < |NotYet(m, t)|
  {
    assert NotYet(m, t + [a]) == NotYet(m, t) - {a};
  }

  lemma NoMore(m: Mem, t: seq<int>, t': seq<int>)
    requires t <= t'
    ensures |NotYet(m, t')| <= |NotYet(m, t)|
  {
    assert NotYet(m, t) == NotYet(m, t') + (NotYet(m, t) - NotYet(m, t'));
  }

  predicate Refused(tag: int) {
    tag == ABSTRACT_TAG || tag == FINAL_TAG || tag == CLOSURE_TAG
  }

  /** What is written for a value, an object being written when it is met first. */
  function Emit(m: Mem, v: Val, t: seq<int>): (e: Emitted)
    requires MemOk(m) && ValOk(m, v)
    ensures e.Emitted? ==> t <= e.table
    decreases |NotYet(m, t)|, 0
  {
    match v
    case Int(n) => Emitted(EmitInt(n), t)
    case Atom(tag) => Emitted(EmitHeader(tag, 0, 0), t)
    case Ref(a) =>
      if a in t then Emitted(EmitShared(|t| - IndexOf(t, a)), t)
      else
        assert CellOk(m, a);
        match m[a].node
        case Str(bytes) => Emitted(EmitString(bytes), t + [a])
        case Dbl(bytes) => Emitted([CODE_DOUBLE] + bytes, t + [a])
        case Blk(tag, fields) =>
          if Refused(tag) then Rejected
          else
            OneLess(m, t, a);
            match EmitFields(m, fields, t + [a])
            case Rejected => Rejected
            case Emitted(out, table) => Emitted(EmitHeader(tag, |fields|, m[a].color) + out, table)
  }

  function EmitFields(m: Mem, fs: seq<Val>, t: seq<int>): (e: Emitted)
    requires MemOk(m) && AllOk(m, fs)
    ensures e.Emitted? ==> t <= e.table
    decreases |NotYet(m, t)|, |fs| + 1
  {
    if fs == [] then Emitted([], t)
    else
      match Emit(m, fs[0], t)
      case Rejected => Rejected
      case Emitted(out, table) =>
        NoMore(m, t, table);
        match EmitFields(m, fs[1..], table)
        case Rejected => Rejected
        case Emitted(out', table') => Emitted(out + out', table')
  }

  // ----- Reading -----

  /** The bytes of a word. */
  type wordsize = w: int | w == 4 || w == 8 witness 8

  /** What is left of the input, where the next object goes, the objects read so far in their
      order, the memory filled so far, and the size of its words. */
  datatype Reader = Reader(input: seq<byte>, ptr: int, objs: seq<int>, heap: Mem, word: wordsize)

  /** The value read; or nothing when the input ends too early, refers to no object, or has an
      integer of eight bytes for a machine with words of four. */
  datatype Result = Stuck | Done(v: Val, s: Reader)

  /** Tagging drops the top bit of a word. */
  function Wrapped(n: int, word: wordsize): int {
    var half := if word == 8 then 0x4000_0000_0000_0000 else 0x4000_0000;
    (n + half) % (2 * half) - half
  }

  function ReadInt(s: Reader, n: nat): Result
    requires n > 0
  {
    if |s.input| < n then Stuck else Done(Int(Wrapped(Signed(s.input[..n]), s.word)), s.(input := s.input[n..]))
  }

  function ReadShared(s: Reader, n: nat): Result {
    if |s.input| < n then Stuck
    else
      var d := Unsigned(s.input[..n]);
      if 0 < d <= |s.objs| then Done(Ref(s.objs[|s.objs| - d]), s.(input := s.input[n..])) else Stuck
  }

  /** A new object of `size` words, read to be `node`. */
  function Placed(s: Reader, rest: seq<byte>, size: int, color: int, node: Node): Result {
    Done(Ref(s.ptr), Reader(rest, s.ptr + 1 + size, s.objs + [s.ptr], s.heap[s.ptr := Cell(color, node)], s.word))
  }

  function ReadString(s: Reader, len: int, color: int): Result
    requires len >= 0
  {
    if |s.input| < len then Stuck
    else Placed(s, s.input[len..], (len + s.word) / s.word, color, Str(s.input[..len]))
  }

  function ReadDouble(s: Reader, color: int): Result {
    if |s.input| < 8 then Stuck else Placed(s, s.input[8..], 8 / s.word, color, Dbl(s.input[..8]))
  }

  datatype Results = AllStuck | AllDone(vs: seq<Val>, s: Reader)

  /** What the variable holds when a field is read and `n` are left: the unit value, but for the
      last field, which is read in the same call as the block, the block itself. */
  function StaleFor(n: nat, last: Val): Val {
    if n == 1 then last else Atom(0)
  }

  function ReadFields(size: nat, s: Reader, color: int, last: Val): (r: Results)
    ensures r.AllDone? ==> |r.vs| == size && |r.s.input| <= |s.input|
    decreases |s.input|, size + 1
  {
    if size == 0 then AllDone([], s)
    else
      match Read(s, color, StaleFor(size, last))
      case Stuck => AllStuck
      case Done(v, s1) =>
        match ReadFields(size - 1, s1, color, last)
        case AllStuck => AllStuck
        case AllDone(vs, s2) => AllDone([v] + vs, s2)
  }

  /** A block of `size` fields with some tag; an atom when there are none. */
  function ReadBlock(tag: int, size: nat, s: Reader, color: int): (r: Result)
    ensures r.Done? ==> |r.s.input| <= |s.input|
    decreases |s.input|, size + 2
  {
    if size == 0 then Done(Atom(tag), s)
    else
      match ReadFields(size, Reader(s.input, s.ptr + 1 + size, s.objs + [s.ptr], s.heap, s.word), color, Ref(s.ptr))
      case AllStuck => Stuck
      case AllDone(vs, s') => Done(Ref(s.ptr), s'.(heap := s'.heap[s.ptr := Cell(color, Blk(tag, vs))]))
  }

  /** Reads a value: any bytes are accepted until they run out, and unknown codes stand for
      the value that the reader's variable has held since before. */
  function Read(s: Reader, color: int, stale: Val): (r: Result)
    ensures r.Done? ==> |r.s.input| < |s.input|
    decreases |s.input|, 0
  {
    if s.input == [] then Stuck
    else
      var code, s1 := s.input[0], s.(input := s.input[1..]);
      if code >= PREFIX_SMALL_BLOCK then ReadBlock(code % 16, code / 16 % 8, s1, color)
      else if code >= PREFIX_SMALL_INT then Done(Int(code % 64), s1)
      else if code >= PREFIX_SMALL_STRING then ReadString(s1, code % 32, color)
      else if code == CODE_INT8 then ReadInt(s1, 1)
      else if code == CODE_INT16 then ReadInt(s1, 2)
      else if code == CODE_INT32 then ReadInt(s1, 4)
      else if code == CODE_INT64 then if s.word == 8 then ReadInt(s1, 8) else Stuck
      else if code == CODE_SHARED8 then ReadShared(s1, 1)
      else if code == CODE_SHARED16 then ReadShared(s1, 2)
      else if code == CODE_SHARED32 then ReadShared(s1, 4)
      else if code == CODE_BLOCK32 then
        if |s1.input| < 4 then Stuck
        else
          var header := Unsigned(s1.input[..4]);
          ReadBlock(header % 256, header / 1024, s1.(input := s1.input[4..]), color)
      else if code == CODE_STRING8 || code == CODE_STRING32 then
        var n := if code == CODE_STRING8 then 1 else 4;
        if |s1.input| < n then Stuck
        else ReadString(s1.(input := s1.input[n..]), Unsigned(s1.input[..n]), color)
      else if code == CODE_DOUBLE then ReadDouble(s1, color)
      else Done(stale, s1)
  }
}
