/** The writer and the reader of the compact format as they work on a channel
    (src/runtime/externcp.c, src/runtime/interncp.c). */
module CompactChannels {
  import opened Compact
  import opened CompactRoundTrip
  import opened CompactGraphs
  import opened ExternTables

  // ----- Writing -----

  /** Where each object is in the table. */
  ghost function Indexes(t: seq<int>): map<int, int> {
    map a | a in t :: IndexOf(t, a)
  }

  lemma IndexesAdd(t: seq<int>, a: int)
    requires a !in t
    ensures Indexes(t + [a]) == Indexes(t)[a := |t|]
  {
    var t' := t + [a];
    LastIndex(t, t', a);
    forall b | b in t
      ensures b in t' && IndexOf(t', b) == IndexOf(t, b)
    {
      IndexStays(t, t', b);
    }
    assert forall b :: b in t' <==> b in t || b == a;
  }

  lemma {:induction false} OneMoreObject(word: wordsize, m: Mem, t: seq<int>, a: int, from: nat)
    requires from <= |t| && (forall i :: from <= i < |t| ==> t[i] in m) && a in m
    ensures forall i :: from <= i < |t| + 1 ==> (t + [a])[i] in m
    ensures WordsFrom(word, m, t + [a], from) == WordsFrom(word, m, t, from) + Words(word, m[a].node)
    decreases |t| - from
  {
    assert forall i :: from <= i < |t| ==> (t + [a])[i] == t[i];
    assert (t + [a])[|t|] == a;
    if from < |t| {
      OneMoreObject(word, m, t, a, from + 1);
    } else {
      assert WordsFrom(word, m, t + [a], |t| + 1) == 0;
    }
  }

  lemma FieldsDef(m: Mem, fs: seq<Val>, t: seq<int>)
    requires MemOk(m) && AllOk(m, fs)
    ensures fs == [] ==> EmitFields(m, fs, t) == Emitted([], t)
    ensures fs != [] ==> ValOk(m, fs[0]) && AllOk(m, fs[1..])
    ensures fs != [] && Emit(m, fs[0], t).Rejected? ==> EmitFields(m, fs, t) == Rejected
    ensures fs != [] && Emit(m, fs[0], t).Emitted? ==>
              EmitFields(m, fs, t) == Joined(Emit(m, fs[0], t).out, EmitFields(m, fs[1..], Emit(m, fs[0], t).table))
  {
    hide Emit;
  }

  function Joined(out: seq<byte>, e: Emitted): Emitted {
    if e.Emitted? then Emitted(out + e.out, e.table) else Rejected
  }

  lemma JoinedTwice(a: seq<byte>, b: seq<byte>, e: Emitted)
    ensures Joined(a, Joined(b, e)) == Joined(a + b, e)
    ensures e.Emitted? ==> a + (b + e.out) == a + b + e.out
  {
    if e.Emitted? {
      assert a + (b + e.out) == a + b + e.out;
    }
  }

  lemma Parts(m: Mem, fs: seq<Val>, i: int)
    requires AllOk(m, fs) && 0 < i <= |fs|
    ensures fs[1..][..i - 1] == fs[..i][1..] && fs[1..][i - 1..] == fs[i..] && fs[..i][0] == fs[0] && fs[..i] != []
    ensures AllOk(m, fs[1..]) && AllOk(m, fs[..i]) && AllOk(m, fs[i..])
  {
  }

  lemma NoParts(m: Mem, fs: seq<Val>)
    requires AllOk(m, fs)
    ensures fs[0..] == fs && fs[..0] == [] && AllOk(m, fs[..0]) && AllOk(m, fs[0..])
  {
  }

  /** Fields are written one after the other. */
  lemma {:induction false} EmitSplit(m: Mem, fs: seq<Val>, i: int, t: seq<int>)
    requires MemOk(m) && AllOk(m, fs) && 0 <= i <= |fs|
    ensures AllOk(m, fs[..i]) && AllOk(m, fs[i..])
    ensures var e := EmitFields(m, fs[..i], t);
            EmitFields(m, fs, t) == if e.Rejected? then Rejected else Joined(e.out, EmitFields(m, fs[i..], e.table))
    decreases i
  {
    hide Emit, EmitFields, AllOk, MemOk;
    if i == 0 {
      NoParts(m, fs);
      FieldsDef(m, fs[..0], t);
      JoinedNothing(EmitFields(m, fs, t));
    } else {
      Parts(m, fs, i);
      FieldsDef(m, fs, t);
      FieldsDef(m, fs[..i], t);
      var first := Emit(m, fs[0], t);
      if first.Emitted? {
        EmitSplit(m, fs[1..], i - 1, first.table);
        var e := EmitFields(m, fs[1..][..i - 1], first.table);
        if e.Emitted? {
          JoinedTwice(first.out, e.out, EmitFields(m, fs[i..], e.table));
        }
      }
    }
  }

  lemma JoinedNothing(e: Emitted)
    ensures Joined([], e) == e
  {
    if e.Emitted? {
      assert [] + e.out == e.out;
    }
  }

  lemma EmitNext(m: Mem, fs: seq<Val>, i: int, t: seq<int>)
    requires MemOk(m) && AllOk(m, fs) && 0 <= i < |fs| && EmitFields(m, fs[..i], t).Emitted?
    ensures AllOk(m, fs[..i]) && AllOk(m, fs[..i + 1]) && ValOk(m, fs[i])
    ensures var e := EmitFields(m, fs[..i], t); var v := Emit(m, fs[i], e.table);
            EmitFields(m, fs[..i + 1], t) == if v.Emitted? then Emitted(e.out + v.out, v.table) else Rejected
    ensures Emit(m, fs[i], EmitFields(m, fs[..i], t).table).Rejected? ==> EmitFields(m, fs, t).Rejected?
  {
    hide Emit, EmitFields, MemOk;
    var e := EmitFields(m, fs[..i], t);
    EmitSplit(m, fs[..i + 1], i, t);
    assert fs[..i + 1][..i] == fs[..i] && fs[..i + 1][i..] == [fs[i]];
    EmitSplit(m, fs, i + 1, t);
    OneField(m, fs[i], e.table);
  }

  lemma OneField(m: Mem, v: Val, t: seq<int>)
    requires MemOk(m) && ValOk(m, v)
    ensures EmitFields(m, [v], t) == Emit(m, v, t)
  {
    hide Emit;
    var e := Emit(m, v, t);
    if e.Emitted? {
      assert EmitFields(m, [], e.table) == Emitted([], e.table);
      assert e.out + [] == e.out;
    }
  }

  lemma {:induction false} BytesStep(v: int, n: nat)
    ensures Bytes(v, n + 1) == Bytes(v / 256, n) + [v % 256]
  {
  }

  lemma ShiftStep(v: int, p: int)
    requires p > 0
    ensures (v / p) / 256 == v / (256 * p)
  {
    var n, r := v / p, v % p;
    var q, d := n / 256, n % 256;
    assert v == n * p + r && n == q * 256 + d;
    Regroup(q, d, p);
    AtMost(d, 255, p);
    DivUnique(v, 256 * p, q, d * p + r);
  }

  lemma Regroup(q: int, d: int, p: int)
    ensures (q * 256 + d) * p == q * (256 * p) + d * p
  {
  }

  lemma AtMost(a: int, b: int, p: int)
    requires 0 <= a <= b && 0 < p
    ensures 0 <= a * p <= b * p
  {
  }

  /** What is written for anything but a new object. */
  lemma SimpleEmitted(m: Mem, v: Val, t: seq<int>)
    requires MemOk(m) && ValOk(m, v)
    ensures v.Int? ==> Emit(m, v, t) == Emitted(EmitInt(v.n), t)
    ensures v.Atom? ==> 0 <= v.tag < 256 && Emit(m, v, t) == Emitted(EmitHeader(v.tag, 0, 0), t)
    ensures v.Ref? ==> v.a in m && (v.a in t ==> Emit(m, v, t) == Emitted(EmitShared(|t| - IndexOf(t, v.a)), t))
  {
    hide EmitInt, EmitHeader, EmitShared, EmitFields;
  }

  lemma ObjectFacts(m: Mem, a: int, t: seq<int>)
    requires MemOk(m) && a in m
    ensures ValOk(m, Ref(a)) && 0 <= m[a].color < 4
    ensures m[a].node.Blk? ==> AllOk(m, m[a].node.fields) && 0 <= m[a].node.tag < 256
    ensures a !in t ==>
              match m[a].node
              case Str(bytes) => Emit(m, Ref(a), t) == Emitted(EmitString(bytes), t + [a])
              case Dbl(bytes) => Emit(m, Ref(a), t) == Emitted([CODE_DOUBLE] + bytes, t + [a])
              case Blk(tag, fields) =>
                Emit(m, Ref(a), t) == if Refused(tag) then Rejected
                                      else Joined(EmitHeader(tag, |fields|, m[a].color), EmitFields(m, fields, t + [a]))
  {
    assert CellOk(m, a);
    hide EmitString, EmitHeader, EmitFields;
  }

  lemma IndexesHold(t: seq<int>, a: int)
    ensures a in t <==> a in Indexes(t)
    ensures a in t ==> Indexes(t)[a] == IndexOf(t, a)
  {
    hide IndexOf;
  }

  /** The words of an object on both kinds of machines. */
  lemma Counted(o: Node)
    ensures match o
            case Str(bytes) => Words(4, o) == 1 + (|bytes| + 4) / 4 && Words(8, o) == 1 + (|bytes| + 8) / 8
            case Dbl(_) => Words(4, o) == 3 && Words(8, o) == 2
            case Blk(_, fields) => Words(4, o) == Words(8, o) == 1 + |fields|
  {
  }

  class Writer {
    const m: Mem
    const table: ExternTable
    var out: seq<byte>
    var objCounter: int
    var size32: int
    var size64: int
    ghost var t: seq<int>

    /** The table holds the objects written so far, and the counters count them. */
    ghost predicate Valid()
      reads `objCounter, `size32, `size64, `t, table, table.obj, table.ofs
    {
      && table.Valid() && MemOk(m) && (forall a :: a in m ==> a > 0)
      && NoDup(t) && (forall i :: 0 <= i < |t| ==> t[i] in m) && table.contents == Indexes(t)
      && objCounter == |t| && size32 == WordsFrom(4, m, t, 0) && size64 == WordsFrom(8, m, t, 0)
    }

    constructor (m: Mem)
      requires MemOk(m) && forall a :: a in m ==> a > 0
      ensures Valid() && this.m == m && out == [] && t == [] && fresh(table) && fresh(table.obj) && fresh(table.ofs)
    {
      this.m := m;
      table := new ExternTable(INITIAL_EXTERN_TABLE_SIZE);
      out, objCounter, size32, size64, t := [], 0, 0, 0, [];
    }

    /** Writes a code and the lowest `n` bytes of a number. */
    method OutputNumber(code: byte, val: int, n: nat)
      modifies `out
      ensures out == old(out) + [code] + Bytes(val, n)
    {
      out := out + [code];
      ghost var start := out;
      var i := n;
      assert Bytes(val / Pow256(n), 0) == [];
      while i > 0
        invariant 0 <= i <= n && out == start + Bytes(val / Pow256(i), n - i)
      {
        i := i - 1;
        ShiftStep(val, Pow256(i));
        BytesStep(val / Pow256(i), n - i - 1);
        out := out + [(val / Pow256(i)) % 256];
      }
      assert val / Pow256(0) == val;
    }

    method EmitLong(n: int)
      modifies `out
      ensures out == old(out) + EmitInt(n)
    {
      if 0 <= n < 0x40 {
        out := out + [PREFIX_SMALL_INT + n];
      } else if -0x80 <= n < 0x80 {
        OutputNumber(CODE_INT8, n, 1);
      } else if -0x8000 <= n < 0x8000 {
        OutputNumber(CODE_INT16, n, 2);
      } else if n < -0x8000_0000 || n >= 0x8000_0000 {
        OutputNumber(CODE_INT64, n, 8);
      } else {
        OutputNumber(CODE_INT32, n, 4);
      }
    }

    method EmitOffset(d: int)
      modifies `out
      ensures out == old(out) + EmitShared(d)
    {
      if d < 0x100 {
        OutputNumber(CODE_SHARED8, d, 1);
      } else if d < 0x1_0000 {
        OutputNumber(CODE_SHARED16, d, 2);
      } else {
        OutputNumber(CODE_SHARED32, d, 4);
      }
    }

    method EmitBytes(bytes: seq<byte>)
      modifies `out
      ensures out == old(out) + EmitString(bytes)
    {
      if |bytes| < 0x20 {
        out := out + [PREFIX_SMALL_STRING + |bytes|];
      } else if |bytes| < 0x100 {
        OutputNumber(CODE_STRING8, |bytes|, 1);
      } else {
        OutputNumber(CODE_STRING32, |bytes|, 4);
      }
      out := out + bytes;
    }

    method EmitHd(tag: int, size: int, color: int)
      requires 0 <= tag < 256 && 0 <= size
      modifies `out
      ensures out == old(out) + EmitHeader(tag, size, color)
    {
      if tag < 16 && size < 8 {
        out := out + [PREFIX_SMALL_BLOCK + tag + 16 * size];
      } else {
        OutputNumber(CODE_BLOCK32, size * 1024 + color * 256 + tag, 4);
      }
    }

    /** Looks the object up; a new one is recorded and counted. */
    method Meet(a: int) returns (found: bool, d: int)
      requires Valid() && a in m
      modifies `objCounter, `size32, `size64, `t, table, table.obj, table.ofs
      ensures Valid() && (table.obj == old(table.obj) || fresh(table.obj))
      ensures (table.ofs == old(table.ofs) || fresh(table.ofs))
      ensures found <==> a in old(t)
      ensures if found then t == old(t) && d == |t| - IndexOf(t, a) else t == old(t) + [a]
    {
      hide *;
      ValidParts();
      IndexesHold(t, a);
      ghost var t0 := t;
      var ofs;
      found, ofs := table.Enter(a, objCounter);
      d := objCounter - ofs;
      if !found {
        IndexesAdd(t, a);
        NoDupAdd(t, a);
        OneMoreObject(4, m, t, a, 0);
        OneMoreObject(8, m, t, a, 0);
        t := t + [a];
        objCounter := objCounter + 1;
        Counted(m[a].node);
        match m[a].node {
          case Str(bytes) =>
            size32 := size32 + 1 + (|bytes| + 4) / 4;
            size64 := size64 + 1 + (|bytes| + 8) / 8;
          case Dbl(_) =>
            size32 := size32 + 1 + 8 / 4;
            size64 := size64 + 1 + 8 / 8;
          case Blk(_, fields) =>
            size32 := size32 + 1 + |fields|;
            size64 := size64 + 1 + |fields|;
        }
      }
      ValidFrom();
    }

    lemma ValidParts()
      requires Valid()
      ensures table.Valid() && MemOk(m) && (forall a :: a in m ==> a > 0)
      ensures NoDup(t) && (forall i :: 0 <= i < |t| ==> t[i] in m) && table.contents == Indexes(t)
      ensures objCounter == |t| && size32 == WordsFrom(4, m, t, 0) && size64 == WordsFrom(8, m, t, 0)
    {
      hide ExternTable.Valid, MemOk, NoDup, Indexes, WordsFrom;
    }

    lemma ValidFrom()
      requires table.Valid() && MemOk(m) && (forall a :: a in m ==> a > 0)
      requires NoDup(t) && (forall i :: 0 <= i < |t| ==> t[i] in m) && table.contents == Indexes(t)
      requires objCounter == |t| && size32 == WordsFrom(4, m, t, 0) && size64 == WordsFrom(8, m, t, 0)
      ensures Valid()
    {
      hide ExternTable.Valid, MemOk, NoDup, Indexes, WordsFrom;
    }

    /** Writes a value; it fails for abstract and functional values. */
    method EmitCompact(v: Val) returns (ok: bool)
      requires Valid() && MemOk(m) && ValOk(m, v)
      modifies this, table, table.obj, table.ofs
      ensures (table.obj == old(table.obj) || fresh(table.obj)) && (table.ofs == old(table.ofs) || fresh(table.ofs))
      ensures ok <==> old(Emit(m, v, t)).Emitted?
      ensures ok ==> Valid() && out == old(out) + old(Emit(m, v, t)).out && t == old(Emit(m, v, t)).table
      decreases |NotYet(m, t)|, 0
    {
      hide Writer.Valid, ExternTable.Valid, MemOk, ValOk, Emit, EmitFields, EmitInt, EmitShared, EmitString, EmitHeader,
        NotYet, IndexOf, AllOk, Refused;
      SimpleEmitted(m, v, t);
      match v {
        case Int(n) =>
          EmitLong(n);
          ok := true;
        case Atom(tag) =>
          EmitHd(tag, 0, 0);
          ok := true;
        case Ref(a) =>
          ghost var t0 := t;
          ObjectFacts(m, a, t);
          var found, d := Meet(a);
          if found {
            EmitOffset(d);
            ok := true;
          } else {
            OneLess(m, t0, a);
            match m[a].node {
              case Str(bytes) =>
                EmitBytes(bytes);
                ok := true;
              case Dbl(bytes) =>
                out := out + ([CODE_DOUBLE] + bytes);
                ok := true;
              case Blk(tag, fields) =>
                if Refused(tag) {
                  ok := false;
                } else {
                  ghost var e := EmitFields(m, fields, t);
                  EmitHd(tag, |fields|, m[a].color);
                  ok := EmitAll(fields);
                  if ok {
                    Rest(old(out), EmitHeader(tag, |fields|, m[a].color), e.out);
                  }
                }
            }
          }
      }
    }

    method EmitAll(fs: seq<Val>) returns (ok: bool)
      requires Valid() && MemOk(m) && AllOk(m, fs)
      modifies this, table, table.obj, table.ofs
      ensures (table.obj == old(table.obj) || fresh(table.obj)) && (table.ofs == old(table.ofs) || fresh(table.ofs))
      ensures ok <==> old(EmitFields(m, fs, t)).Emitted?
      ensures ok ==> Valid() && out == old(out) + old(EmitFields(m, fs, t)).out && t == old(EmitFields(m, fs, t)).table
      decreases |NotYet(m, t)|, 1
    {
      hide *;
      ghost var t0, out0 := t, out;
      NoFieldsYet(m, fs, t0);
      assert out0 + [] == out0;
      var i := 0;
      while i < |fs|
        invariant 0 <= i <= |fs| && Valid() && AllOk(m, fs[..i]) && EmitFields(m, fs[..i], t0).Emitted?
        invariant out == out0 + EmitFields(m, fs[..i], t0).out && t == EmitFields(m, fs[..i], t0).table && t0 <= t
        invariant (table.obj == old(table.obj) || fresh(table.obj)) && (table.ofs == old(table.ofs) || fresh(table.ofs))
      {
        NoMore(m, t0, t);
        EmitNext(m, fs, i, t0);
        ok := EmitCompact(fs[i]);
        if !ok {
          return;
        }
        Rest(out0, EmitFields(m, fs[..i], t0).out, Emit(m, fs[i], EmitFields(m, fs[..i], t0).table).out);
        i := i + 1;
      }
      assert fs[..i] == fs;
      ok := true;
    }
  }

  lemma NoFieldsYet(m: Mem, fs: seq<Val>, t: seq<int>)
    requires MemOk(m)
    ensures AllOk(m, fs[..0]) && EmitFields(m, fs[..0], t) == Emitted([], t)
  {
  }

  /** Writes a whole value with its header. */
  method ExternCompactVal(m: Mem, v: Val) returns (w: Written)
    requires MemOk(m) && ValOk(m, v) && forall a :: a in m ==> a > 0
    ensures w == Extern(m, v)
    ensures w == AbstractValue <==> LeadsToRefused(m, v)
  {
    hide *;
    RefusedExactly(m, v);
    var c := new Writer(m);
    var ok := c.EmitCompact(v);
    if ok {
      c.ValidParts();
      TableIn(m, v);
    }
    ExternIs(m, v);
    if !ok {
      return AbstractValue;
    }
    if c.size32 >= 0x1_0000_0000 || c.size64 >= 0x1_0000_0000 {
      return TooBig;
    }
    assert [] + Emit(m, v, []).out == Emit(m, v, []).out;
    w := Written(HeaderWords(c.objCounter, c.size32, c.size64) + c.out);
  }

  lemma ExternIs(m: Mem, v: Val)
    requires MemOk(m) && ValOk(m, v)
    ensures var e := Emit(m, v, []);
            if e.Rejected? then Extern(m, v) == AbstractValue
            else
              (forall i :: 0 <= i < |e.table| ==> e.table[i] in m) &&
              var words32, words64 := WordsFrom(4, m, e.table, 0), WordsFrom(8, m, e.table, 0);
              Extern(m, v) == if words32 >= 0x1_0000_0000 || words64 >= 0x1_0000_0000 then TooBig
                              else Written(HeaderWords(|e.table|, words32, words64) + e.out)
  {
    hide Emit, HeaderWords, MemOk, WordsFrom;
    if Emit(m, v, []).Emitted? {
      TableIn(m, v);
    }
  }

  // ----- Reading -----

  lemma Tail(s: seq<byte>, i: int, n: int)
    requires 0 <= i <= |s| && 0 <= n <= |s| - i
    ensures s[i..][n..] == s[i + n..] && s[i..][..n] == s[i..i + n] && |s[i..]| == |s| - i
  {
  }

  lemma SliceNext(s: seq<byte>, i: int, j: int)
    requires 0 <= i <= j < |s|
    ensures s[i..j + 1] == s[i..j] + [s[j]] && s[i..j + 1][..j - i] == s[i..j] && s[i..j + 1][j - i] == s[j]
    ensures |s[i..j + 1]| == j + 1 - i
  {
  }

  class Scanner {
    const input: seq<byte>
    const color: int
    const word: wordsize
    var pos: int
    var ptr: int
    var objs: seq<int>
    var heap: Mem

    ghost function State(): Reader
      requires 0 <= pos <= |input|
      reads this
    {
      Reader(input[pos..], ptr, objs, heap, word)
    }

    /** Objects will go from `ptr` on. */
    constructor (input: seq<byte>, pos: int, ptr: int, color: int, word: wordsize)
      requires 0 <= pos <= |input|
      ensures this.input == input && this.color == color && this.pos == pos && this.word == word
      ensures State() == Reader(input[pos..], ptr, [], map[], word)
    {
      this.input, this.color, this.pos, this.ptr, this.word := input, color, pos, ptr, word;
      objs, heap := [], map[];
    }

    /** Reads `n` bytes as a number, unless the input ends before. */
    method InputBytes(n: nat, signExtend: bool) returns (res: int, ok: bool)
      requires 0 <= pos <= |input| && n > 0
      modifies `pos
      ensures old(pos) <= pos <= |input| && (ok <==> n <= |input| - old(pos))
      ensures ok ==> pos == old(pos) + n
      ensures ok ==> res == if signExtend then Signed(input[old(pos)..pos]) else Unsigned(input[old(pos)..pos])
    {
      res, ok := 0, false;
      if pos == |input| {
        return;
      }
      res := input[pos];
      if signExtend && res >= 128 {
        res := res - 256;
      }
      pos := pos + 1;
      assert input[old(pos)..pos] == [input[old(pos)]];
      assert Unsigned([input[old(pos)]]) == input[old(pos)];
      var i := 1;
      while i < n
        invariant 1 <= i <= n && pos == old(pos) + i && i <= |input| - old(pos)
        invariant res == if signExtend then Signed(input[old(pos)..pos]) else Unsigned(input[old(pos)..pos])
      {
        if pos == |input| {
          return;
        }
        SliceNext(input, old(pos), pos);
        res := res * 256 + input[pos];
        pos := pos + 1;
        i := i + 1;
      }
      ok := true;
    }

    method ScanInt(n: nat) returns (v: Val, ok: bool)
      requires 0 <= pos <= |input| && n > 0
      modifies `pos
      ensures old(pos) <= pos <= |input|
      ensures ReadInt(old(State()), n) == if ok then Done(v, State()) else Stuck
    {
      hide Signed, Unsigned, Wrapped;
      var res;
      res, ok := InputBytes(n, true);
      if ok {
        Tail(input, old(pos), n);
        v := Int(Wrapped(res, word));
      } else {
        v := Atom(0);
      }
    }

    method ScanShared(n: nat) returns (v: Val, ok: bool)
      requires 0 <= pos <= |input| && n > 0
      modifies `pos
      ensures old(pos) <= pos <= |input|
      ensures ReadShared(old(State()), n) == if ok then Done(v, State()) else Stuck
    {
      hide Signed, Unsigned;
      v := Atom(0);
      var ofs;
      ofs, ok := InputBytes(n, false);
      if ok {
        Tail(input, old(pos), n);
        ok := 0 < ofs <= |objs|;
        if ok {
          v := Ref(objs[|objs| - ofs]);
        }
      }
    }

    /** Enters an object of `size` words. */
    method Place(size: int, node: Node) returns (v: Val)
      modifies `ptr, `objs, `heap
      ensures v == Ref(old(ptr)) && ptr == old(ptr) + 1 + size && objs == old(objs) + [old(ptr)]
      ensures heap == old(heap)[old(ptr) := Cell(color, node)]
    {
      v := Ref(ptr);
      objs := objs + [ptr];
      heap := heap[ptr := Cell(color, node)];
      ptr := ptr + 1 + size;
    }

    method ScanString(len: int) returns (v: Val, ok: bool)
      requires 0 <= pos <= |input| && len >= 0
      modifies `pos, `ptr, `objs, `heap
      ensures old(pos) <= pos <= |input|
      ensures ReadString(old(State()), len, color) == if ok then Done(v, State()) else Stuck
    {
      ok := len <= |input| - pos;
      v := Atom(0);
      if ok {
        Tail(input, pos, len);
        v := Place((len + word) / word, Str(input[pos..pos + len]));
        pos := pos + len;
      }
    }

    method ScanDouble() returns (v: Val, ok: bool)
      requires 0 <= pos <= |input|
      modifies `pos, `ptr, `objs, `heap
      ensures old(pos) <= pos <= |input|
      ensures ReadDouble(old(State()), color) == if ok then Done(v, State()) else Stuck
    {
      ok := 8 <= |input| - pos;
      v := Atom(0);
      if ok {
        Tail(input, pos, 8);
        v := Place(8 / word, Dbl(input[pos..pos + 8]));
        pos := pos + 8;
      }
    }

    /** Reads the fields of a block one by one; the block goes before what they lead to. */
    method ScanBlock(tag: int, size: nat) returns (v: Val, ok: bool)
      requires 0 <= pos <= |input|
      modifies `pos, `ptr, `objs, `heap
      ensures old(pos) <= pos <= |input|
      ensures ReadBlock(tag, size, old(State()), color) == if ok then Done(v, State()) else Stuck
      decreases |input| - pos, 2
    {
      hide Read, ReadFields;
      if size == 0 {
        return Atom(tag), true;
      }
      var hp := ptr;
      v := Ref(hp);
      objs := objs + [hp];
      ptr := ptr + 1 + size;
      var vs;
      vs, ok := ScanFields(size, v);
      if ok {
        heap := heap[hp := Cell(color, Blk(tag, vs))];
      }
    }

    method ScanFields(size: nat, last: Val) returns (vs: seq<Val>, ok: bool)
      requires 0 <= pos <= |input|
      modifies `pos, `ptr, `objs, `heap
      ensures old(pos) <= pos <= |input|
      ensures ReadFields(size, old(State()), color, last) == if ok then AllDone(vs, State()) else AllStuck
      decreases |input| - pos, 1
    {
      hide Read, ReadFields;
      vs := [];
      var n := size;
      ghost var s0 := State();
      FieldsLeft(size, s0, color, last, [], s0);
      while n > 0
        invariant 0 <= n <= size && old(pos) <= pos <= |input| && FieldsAre(size, s0, color, last, vs, n, State())
        decreases n
      {
        ghost var s := State();
        NextLeft(size, s0, color, last, vs, n, s);
        var v;
        v, ok := ReadCompact(StaleFor(n, last));
        if !ok {
          return;
        }
        vs := vs + [v];
        n := n - 1;
      }
      NoneLeft(size, s0, color, last, vs, State());
      ok := true;
    }

    /** Reads a value from any input, `stale` for an unknown code; it fails when the input ends or
        refers to no object. */
    method ReadCompact(stale: Val) returns (v: Val, ok: bool)
      requires 0 <= pos <= |input|
      modifies `pos, `ptr, `objs, `heap
      ensures old(pos) <= pos <= |input| && (ok ==> old(pos) < pos)
      ensures Read(old(State()), color, stale) == if ok then Done(v, State()) else Stuck
      decreases |input| - pos, 0
    {
      hide ReadBlock, ReadString, ReadInt, ReadShared, ReadDouble, Signed, Unsigned;
      v, ok := Atom(0), false;
      if pos == |input| {
        return;
      }
      Tail(input, pos, 1);
      var code := input[pos];
      pos := pos + 1;
      if code >= PREFIX_SMALL_BLOCK {
        v, ok := ScanBlock(code % 16, code / 16 % 8);
      } else if code >= PREFIX_SMALL_INT {
        v, ok := Int(code % 64), true;
      } else if code >= PREFIX_SMALL_STRING {
        v, ok := ScanString(code % 32);
      } else {
        match code {
          case 0 => v, ok := ScanInt(1);
          case 1 => v, ok := ScanInt(2);
          case 2 => v, ok := ScanInt(4);
          case 3 =>
            if word == 8 {
              v, ok := ScanInt(8);
            }
          case 4 => v, ok := ScanShared(1);
          case 5 => v, ok := ScanShared(2);
          case 6 => v, ok := ScanShared(4);
          case 8 =>
            ghost var p := pos;
            var header;
            header, ok := InputBytes(4, false);
            if ok {
              Tail(input, p, 4);
              v, ok := ScanBlock(header % 256, header / 1024);
            }
          case 9 => v, ok := ScanLong(1);
          case 10 => v, ok := ScanLong(4);
          case 11 => v, ok := ScanDouble();
          case _ => v, ok := stale, true;
        }
      }
    }

    method ScanLong(n: nat) returns (v: Val, ok: bool)
      requires 0 <= pos <= |input| && n > 0
      modifies `pos, `ptr, `objs, `heap
      ensures old(pos) <= pos <= |input|
      ensures LongString(old(State()), n, color) == if ok then Done(v, State()) else Stuck
    {
      hide ReadString, Unsigned;
      v := Atom(0);
      var len;
      len, ok := InputBytes(n, false);
      if ok {
        Tail(input, old(pos), n);
        v, ok := ScanString(len);
      }
    }
  }

  /** With `vs` read and the last `n` fields left, reading them from `s` completes the block. */
  ghost predicate FieldsAre(size: nat, s0: Reader, color: int, last: Val, vs: seq<Val>, n: nat, s: Reader) {
    && n <= size && |vs| == size - n
    && ReadFields(size, s0, color, last) == match ReadFields(n, s, color, last)
                                      case AllStuck => AllStuck
                                      case AllDone(ws, s') => AllDone(vs + ws, s')
  }

  lemma FieldsLeft(size: nat, s0: Reader, color: int, last: Val, vs: seq<Val>, s: Reader)
    requires vs == [] && s == s0
    ensures FieldsAre(size, s0, color, last, vs, size, s)
  {
    hide Read, ReadFields;
    if ReadFields(size, s, color, last).AllDone? {
      assert [] + ReadFields(size, s, color, last).vs == ReadFields(size, s, color, last).vs;
    }
  }

  lemma NextLeft(size: nat, s0: Reader, color: int, last: Val, vs: seq<Val>, n: nat, s: Reader)
    requires FieldsAre(size, s0, color, last, vs, n, s) && n > 0
    ensures Read(s, color, StaleFor(n, last)).Stuck? ==> ReadFields(size, s0, color, last) == AllStuck
    ensures Read(s, color, StaleFor(n, last)).Done? ==>
              FieldsAre(size, s0, color, last, vs + [Read(s, color, StaleFor(n, last)).v], n - 1,
                        Read(s, color, StaleFor(n, last)).s)
  {
    FieldsUnfold(n, s, color, last);
    hide Read, ReadFields;
    if Read(s, color, StaleFor(n, last)).Done? {
      var r := ReadFields(n - 1, Read(s, color, StaleFor(n, last)).s, color, last);
      if r.AllDone? {
        assert vs + ([Read(s, color, StaleFor(n, last)).v] + r.vs) == vs + [Read(s, color, StaleFor(n, last)).v] + r.vs;
      }
    }
  }

  lemma FieldsUnfold(n: nat, s: Reader, color: int, last: Val)
    requires n > 0
    ensures ReadFields(n, s, color, last) == match Read(s, color, StaleFor(n, last))
                                       case Stuck => AllStuck
                                       case Done(v, s1) =>
                                         match ReadFields(n - 1, s1, color, last)
                                         case AllStuck => AllStuck
                                         case AllDone(vs, s2) => AllDone([v] + vs, s2)
  {
    hide Read;
  }

  lemma NoneLeft(size: nat, s0: Reader, color: int, last: Val, vs: seq<Val>, s: Reader)
    requires FieldsAre(size, s0, color, last, vs, 0, s)
    ensures ReadFields(size, s0, color, last) == AllDone(vs, s)
  {
    assert ReadFields(0, s, color, last) == AllDone([], s);
    assert vs + [] == vs;
  }

  /** Reads a whole value after its header, into memory from `ptr` on, unless it is too big. */
  method InternCompactVal(input: seq<byte>, ptr: int, color: int, word: wordsize) returns (r: Result)
    ensures r == Intern(input, ptr, color, word)
  {
    hide Read, Unsigned, Signed;
    var c := new Scanner(input, 0, ptr, color, word);
    if |input| < 16 {
      return Stuck;
    }
    var magic, numObjects, size32, size64, ok;
    magic, ok := c.InputBytes(4, false);
    assert input[0..4] == input[..4];
    if magic != MAGIC {
      return Stuck;
    }
    numObjects, ok := c.InputBytes(4, false);
    size32, ok := c.InputBytes(4, false);
    size64, ok := c.InputBytes(4, false);
    var whsize := if word == 8 then size64 else size32;
    if whsize != 0 && whsize - 1 > MaxWosize(word) {
      return Stuck;
    }
    var v;
    v, ok := c.ReadCompact(Atom(0));
    r := if ok then Done(v, Reader(input[c.pos..], c.ptr, c.objs, c.heap, word)) else Stuck;
  }
}
