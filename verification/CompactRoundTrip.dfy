/** Reading in the compact format what was written in it gives back the same graph of objects,
    exactly when all sizes fit their fields (src/runtime/externcp.c, src/runtime/interncp.c). */
module CompactRoundTrip {
  import opened Compact

  // ----- One step of reading what was written -----

  lemma Rest(a: seq<byte>, b: seq<byte>, c: seq<byte>)
    ensures (a + b + c)[|a|..] == b + c && (a + b)[|a|..] == b && (a + b)[..|a|] == a && a + b + c == a + (b + c)
  {
  }

  lemma PowValues()
    ensures Pow256(0) == 1 && Pow256(1) == 0x100 && Pow256(2) == 0x1_0000 && Pow256(4) == 0x1_0000_0000
    ensures Pow256(3) == 0x100_0000 && Pow256(7) == 0x100_0000_0000_0000
  {
    assert Pow256(3) == 256 * Pow256(2) && Pow256(4) == 256 * Pow256(3);
    assert Pow256(5) == 256 * Pow256(4) && Pow256(6) == 256 * Pow256(5) && Pow256(7) == 256 * Pow256(6);
  }

  /** What the first byte decides. */
  lemma ReadCode(s: Reader, code: byte, rest: seq<byte>, color: int, stale: Val)
    requires s.input == [code] + rest
    ensures var s1 := s.(input := rest);
            && (code == CODE_SHARED8 ==> Read(s, color, stale) == ReadShared(s1, 1))
            && (code == CODE_SHARED16 ==> Read(s, color, stale) == ReadShared(s1, 2))
            && (code == CODE_SHARED32 ==> Read(s, color, stale) == ReadShared(s1, 4))
            && (PREFIX_SMALL_STRING <= code < PREFIX_SMALL_INT ==>
                Read(s, color, stale) == ReadString(s1, code % 32, color))
            && (code == CODE_STRING8 ==> Read(s, color, stale) == LongString(s1, 1, color))
            && (code == CODE_STRING32 ==> Read(s, color, stale) == LongString(s1, 4, color))
            && (code == CODE_DOUBLE ==> Read(s, color, stale) == ReadDouble(s1, color))
  {
    Rest([code], rest, []);
    hide ReadShared, ReadString, ReadDouble, ReadBlock, ReadInt, Unsigned, Signed;
  }

  function LongString(s: Reader, n: nat, color: int): Result {
    if |s.input| < n then Stuck else ReadString(s.(input := s.input[n..]), Unsigned(s.input[..n]), color)
  }

  /** An integer that a machine with such words has. */
  predicate InWord(word: wordsize, n: int) {
    if word == 8 then -0x4000_0000_0000_0000 <= n < 0x4000_0000_0000_0000 else -0x4000_0000 <= n < 0x4000_0000
  }

  lemma WrapsOrNot(n: int, word: wordsize)
    ensures Wrapped(n, word) == n <==> InWord(word, n)
  {
    hide InWord;
    if word == 8 {
      assert InWord(word, n) <==> -0x4000_0000_0000_0000 <= n < 0x4000_0000_0000_0000 by {
        WordLimits(n);
      }
    } else {
      assert InWord(word, n) <==> -0x4000_0000 <= n < 0x4000_0000 by {
        WordLimits(n);
      }
    }
  }

  lemma WordLimits(n: int)
    ensures InWord(8, n) <==> -0x4000_0000_0000_0000 <= n < 0x4000_0000_0000_0000
    ensures InWord(4, n) <==> -0x4000_0000 <= n < 0x4000_0000
  {
  }

  /** Reading a number of `n` bytes with its sign. */
  lemma ReadsNumber(s: Reader, n: nat, v: int, rest: seq<byte>)
    requires n > 0 && s.input == Bytes(v, n) + rest && -128 * Pow256(n - 1) <= v < 128 * Pow256(n - 1)
    ensures ReadInt(s, n) == Done(Int(Wrapped(v, s.word)), s.(input := rest))
  {
    Rest(Bytes(v, n), rest, []);
    SignedBytes(v, n);
    hide Wrapped;
  }

  /** How an integer of at least one byte is written. */
  lemma IntIs(n: int) returns (code: byte, k: nat)
    requires InWord(8, n) && !(0 <= n < 0x40)
    ensures EmitInt(n) == [code] + Bytes(n, k) && k > 0 && -128 * Pow256(k - 1) <= n < 128 * Pow256(k - 1)
    ensures (code, k) in {(0, 1), (1, 2), (2, 4), (3, 8)}
    ensures k == 8 ==> !InWord(4, n)
  {
    PowValues();
    hide Bytes, Pow256;
    if -0x80 <= n < 0x80 {
      code, k := 0, 1;
    } else if -0x8000 <= n < 0x8000 {
      code, k := 1, 2;
    } else if n < -0x8000_0000 || n >= 0x8000_0000 {
      code, k := 3, 8;
    } else {
      code, k := 2, 4;
    }
  }

  /** What the first byte of an integer decides. */
  lemma ReadIntCode(s: Reader, code: byte, k: nat, rest: seq<byte>, color: int, stale: Val)
    requires s.input == [code] + rest && (code, k) in {(0, 1), (1, 2), (2, 4), (3, 8)}
    ensures Read(s, color, stale) == if k == 8 && s.word == 4 then Stuck else ReadInt(s.(input := rest), k)
  {
    Rest([code], rest, []);
    hide ReadShared, ReadString, ReadDouble, ReadBlock, ReadInt, Unsigned, Signed;
  }

  lemma ReadsSmallInt(s: Reader, n: int, rest: seq<byte>, color: int, stale: Val)
    requires s.input == EmitInt(n) + rest && 0 <= n < 0x40
    ensures Read(s, color, stale) == Done(Int(n), s.(input := rest)) && InWord(s.word, n)
  {
    Rest([PREFIX_SMALL_INT + n], rest, []);
    hide ReadShared, ReadString, ReadDouble, ReadBlock, ReadInt, Unsigned, Signed;
  }

  /** An integer is read as it is, exactly on the machines that have it. */
  lemma ReadsInt(s: Reader, n: int, rest: seq<byte>, color: int, stale: Val)
    requires s.input == EmitInt(n) + rest && InWord(8, n)
    ensures var r := Read(s, color, stale);
            if InWord(s.word, n) then r == Done(Int(n), s.(input := rest))
            else r.Done? ==> r.v.Int? && r.v.n != n
  {
    hide *;
    if 0 <= n < 0x40 {
      ReadsSmallInt(s, n, rest, color, stale);
    } else {
      var code, k := IntIs(n);
      WrapsOrNot(n, s.word);
      Rest([code], Bytes(n, k), rest);
      ReadIntCode(s, code, k, Bytes(n, k) + rest, color, stale);
      ReadsNumber(s.(input := Bytes(n, k) + rest), k, n, rest);
    }
  }

  lemma SharedRead(s: Reader, k: nat, d: int, rest: seq<byte>)
    requires s.input == Bytes(d, k) + rest && 0 < d <= |s.objs| && d < Pow256(k)
    ensures ReadShared(s, k) == Done(Ref(s.objs[|s.objs| - d]), s.(input := rest))
  {
    Rest(Bytes(d, k), rest, []);
    UnsignedBytes(d, k);
    Small(d, Pow256(k));
    hide Bytes, Unsigned, Pow256;
  }

  lemma Small(d: int, p: int)
    requires 0 <= d < p
    ensures d % p == d
  {
  }

  lemma SharedIs(d: int) returns (code: byte, k: nat)
    requires 0 < d < 0x1_0000_0000
    ensures EmitShared(d) == [code] + Bytes(d, k) && d < Pow256(k)
    ensures (code, k) == (CODE_SHARED8, 1) || (code, k) == (CODE_SHARED16, 2) || (code, k) == (CODE_SHARED32, 4)
  {
    PowValues();
    k := if d < 0x100 then 1 else if d < 0x1_0000 then 2 else 4;
    code := if d < 0x100 then CODE_SHARED8 else if d < 0x1_0000 then CODE_SHARED16 else CODE_SHARED32;
  }

  lemma ReadsShared(s: Reader, d: int, rest: seq<byte>, color: int, stale: Val)
    requires s.input == EmitShared(d) + rest && 0 < d <= |s.objs| && d < 0x1_0000_0000
    ensures Read(s, color, stale) == Done(Ref(s.objs[|s.objs| - d]), s.(input := rest))
  {
    hide *;
    var code, k := SharedIs(d);
    Rest([code], Bytes(d, k), rest);
    ReadCode(s, code, Bytes(d, k) + rest, color, stale);
    SharedRead(s.(input := Bytes(d, k) + rest), k, d, rest);
    Codes();
  }

  lemma Codes()
    ensures CODE_SHARED8 == 4 && CODE_SHARED16 == 5 && CODE_SHARED32 == 6 && CODE_STRING8 == 9 && CODE_STRING32 == 10
    ensures PREFIX_SMALL_STRING == 0x20 && PREFIX_SMALL_INT == 0x40
  {
  }

  /** What the length of a string becomes when it is written in four bytes at most. */
  function ShortLength(n: nat): nat {
    n % 0x1_0000_0000
  }

  lemma LongStringRead(s: Reader, k: nat, bytes: seq<byte>, rest: seq<byte>, color: int)
    requires s.input == Bytes(|bytes|, k) + (bytes + rest)
    ensures LongString(s, k, color) == ReadString(s.(input := bytes + rest), |bytes| % Pow256(k), color)
  {
    Rest(Bytes(|bytes|, k), bytes + rest, []);
    UnsignedBytes(|bytes|, k);
    hide Bytes, Unsigned, Pow256, ReadString;
  }

  lemma StringIs(bytes: seq<byte>) returns (code: byte, k: nat)
    ensures var n := |bytes|;
            if n < 0x20 then EmitString(bytes) == [code] + bytes && code == 0x20 + n && ShortLength(n) == n == code % 32
            else
              && EmitString(bytes) == [code] + Bytes(n, k) + bytes
              && n % Pow256(k) == ShortLength(n) && (code, k) in {(9, 1), (10, 4)}
  {
    PowValues();
    var n := |bytes|;
    k := if n < 0x100 then 1 else 4;
    code := if n < 0x20 then 0x20 + n else if n < 0x100 then 9 else 10;
  }

  lemma ReadsString(s: Reader, bytes: seq<byte>, rest: seq<byte>, color: int, stale: Val)
    requires s.input == EmitString(bytes) + rest
    ensures Read(s, color, stale) == ReadString(s.(input := bytes + rest), ShortLength(|bytes|), color)
  {
    hide *;
    Codes();
    var code, k := StringIs(bytes);
    if |bytes| < 0x20 {
      Rest([code], bytes, rest);
      ReadCode(s, code, bytes + rest, color, stale);
    } else {
      var n := Bytes(|bytes|, k);
      Rest([code], n, bytes);
      Rest([code], n + bytes, rest);
      Rest(n, bytes, rest);
      ReadCode(s, code, n + (bytes + rest), color, stale);
      LongStringRead(s.(input := n + (bytes + rest)), k, bytes, rest, color);
    }
  }

  /** What the size of a block becomes: a short header holds it, a long one its lowest 22 bits. */
  function ShortSize(tag: int, size: nat): nat {
    if tag < 16 && size < 8 then size else size % 0x40_0000
  }

  lemma HeaderFields(tag: int, size: nat, color: int)
    requires 0 <= tag < 256 && 0 <= color < 4
    ensures var h := (size * 1024 + color * 256 + tag) % 0x1_0000_0000; h % 256 == tag && h / 1024 == size % 0x40_0000
  {
    var q, r := size / 0x40_0000, size % 0x40_0000;
    var low := color * 256 + tag;
    assert size == q * 0x40_0000 + r && 0 <= low < 1024;
    ModUnique(size * 1024 + low, 0x1_0000_0000, q, r * 1024 + low);
    ModUnique(r * 1024 + low, 256, r * 4 + color, tag);
    DivUnique(r * 1024 + low, 1024, r, low);
  }

  lemma DivUnique(v: int, m: int, q: int, r: int)
    requires m > 0 && v == q * m + r && 0 <= r < m
    ensures v / m == q
  {
    ModUnique(v, m, q, r);
    assert v == (v / m) * m + v % m;
    assert (q - v / m) * m == 0;
    Multiple(q - v / m, m);
  }

  lemma ReadsHeader(s: Reader, tag: int, size: nat, hue: int, rest: seq<byte>, color: int, stale: Val)
    requires 0 <= tag < 256 && 0 <= hue < 4 && s.input == EmitHeader(tag, size, hue) + rest
    ensures Read(s, color, stale) == ReadBlock(tag, ShortSize(tag, size), s.(input := rest), color)
  {
    PowValues();
    var h := EmitHeader(tag, size, hue);
    if tag < 16 && size < 8 {
      Rest(h, rest, []);
      assert h[0] == 0x80 + tag + 16 * size;
      assert h[0] % 16 == tag && h[0] / 16 % 8 == size;
    } else {
      var n := size * 1024 + hue * 256 + tag;
      assert h == [CODE_BLOCK32] + Bytes(n, 4);
      Rest([CODE_BLOCK32], Bytes(n, 4), rest);
      Rest(Bytes(n, 4), rest, []);
      UnsignedBytes(n, 4);
      HeaderFields(tag, size, hue);
      hide Bytes, Unsigned, ReadBlock;
    }
  }

  // ----- Reading only adds -----

  ghost predicate ObjsOk(s: Reader) {
    && (forall i :: 0 <= i < |s.objs| ==> s.objs[i] < s.ptr)
    && (forall i, j :: 0 <= i < j < |s.objs| ==> s.objs[i] < s.objs[j])
  }

  ghost predicate KeysBelow(s: Reader) {
    forall a :: a in s.heap ==> a < s.ptr
  }

  /** Objects have been added behind `s.ptr`; what was read before is as it was. */
  ghost predicate Grows(s: Reader, s': Reader) {
    && s'.word == s.word && s.objs <= s'.objs && s.ptr <= s'.ptr && (ObjsOk(s) ==> ObjsOk(s')) &&
         (KeysBelow(s) ==> KeysBelow(s'))
    && (forall i :: |s.objs| <= i < |s'.objs| ==> s.ptr <= s'.objs[i])
    && (forall a {:trigger s'.heap[a]} {:trigger a in s'.heap} ::
          a < s.ptr ==> (a in s.heap <==> a in s'.heap) && (a in s.heap ==> s'.heap[a] == s.heap[a]))
  }

  lemma GrowsTwice(s: Reader, s': Reader, s'': Reader)
    requires Grows(s, s') && Grows(s', s'')
    ensures Grows(s, s'')
  {
    forall i | |s.objs| <= i < |s''.objs|
      ensures s.ptr <= s''.objs[i]
    {
      if i < |s'.objs| {
        assert s''.objs[i] == s'.objs[i];
      }
    }
  }

  lemma {:induction false} ReadGrows(s: Reader, color: int, stale: Val)
    requires Read(s, color, stale).Done?
    ensures Grows(s, Read(s, color, stale).s)
    decreases |s.input|, 0
  {
    hide ReadBlock, ReadString, ReadInt, ReadShared, ReadDouble, Unsigned, Signed, Wrapped, Grows;
    var code, s1 := s.input[0], s.(input := s.input[1..]);
    if code >= PREFIX_SMALL_BLOCK {
      BlockGrows(code % 16, code / 16 % 8, s1, color);
    } else if code == CODE_BLOCK32 {
      var header := Unsigned(s1.input[..4]);
      BlockGrows(header % 256, header / 1024, s1.(input := s1.input[4..]), color);
    }
    InputOnly(s, s1);
    forall n: nat | n > 0
      ensures ReadInt(s1, n).Done? ==> Grows(s, ReadInt(s1, n).s)
      ensures ReadShared(s1, n).Done? ==> Grows(s, ReadShared(s1, n).s)
    {
      NumberGrows(s, s1, n);
    }
    forall len: nat, rest {:trigger ReadString(s1.(input := rest), len, color)} |
      ReadString(s1.(input := rest), len, color).Done?
      ensures Grows(s, ReadString(s1.(input := rest), len, color).s)
    {
      StringGrows(s, s1.(input := rest), len, color);
    }
    assert s1.(input := s1.input) == s1;
    DoubleGrows(s, s1, color);
    InputOnlyAll(s, s1);
  }

  lemma InputOnly(s: Reader, s1: Reader)
    requires s1 == s.(input := s1.input)
    ensures Grows(s, s1)
  {
  }

  /** Growing does not depend on the input. */
  lemma InputOnlyAll(s: Reader, s1: Reader)
    requires s1 == s.(input := s1.input)
    ensures forall rest, s' {:trigger Grows(s1.(input := rest), s')} :: Grows(s1.(input := rest), s') ==> Grows(s, s')
    ensures forall s' {:trigger Grows(s1, s')} :: Grows(s1, s') ==> Grows(s, s')
  {
  }

  lemma NumberGrows(s: Reader, s1: Reader, n: nat)
    requires s1 == s.(input := s1.input) && n > 0
    ensures ReadInt(s1, n).Done? ==> Grows(s, ReadInt(s1, n).s)
    ensures ReadShared(s1, n).Done? ==> Grows(s, ReadShared(s1, n).s)
  {
  }

  lemma StringGrows(s: Reader, s1: Reader, len: nat, color: int)
    requires s1 == s.(input := s1.input)
    ensures ReadString(s1, len, color).Done? ==> Grows(s, ReadString(s1, len, color).s)
  {
  }

  lemma DoubleGrows(s: Reader, s1: Reader, color: int)
    requires s1 == s.(input := s1.input)
    ensures ReadDouble(s1, color).Done? ==> Grows(s, ReadDouble(s1, color).s)
  {
  }

  lemma {:induction false} BlockGrows(tag: int, size: nat, s: Reader, color: int)
    requires ReadBlock(tag, size, s, color).Done?
    ensures Grows(s, ReadBlock(tag, size, s, color).s)
    ensures size > 0 ==> var r := ReadBlock(tag, size, s, color);
                         r.v == Ref(s.ptr) && s.ptr in r.s.heap && r.s.heap[s.ptr].node.Blk? &&
                           |r.s.heap[s.ptr].node.fields| == size
    decreases |s.input|, size + 2
  {
    if size > 0 {
      var s1 := Reader(s.input, s.ptr + 1 + size, s.objs + [s.ptr], s.heap, s.word);
      FieldsGrow(size, s1, color, Ref(s.ptr));
      var r := ReadFields(size, s1, color, Ref(s.ptr));
      hide Read, ReadFields, ReadBlock;
      GrownBlock(s, s1, r.s, s.ptr, Cell(color, Blk(tag, r.vs)));
      BlockIs(tag, size, s, color);
    }
  }

  lemma BlockIs(tag: int, size: nat, s: Reader, color: int)
    requires size > 0 && ReadBlock(tag, size, s, color).Done?
    ensures var r := ReadFields(size, Reader(s.input, s.ptr + 1 + size, s.objs + [s.ptr], s.heap, s.word), color,
                                Ref(s.ptr));
            r.AllDone? && ReadBlock(tag, size, s, color) ==
                          Done(Ref(s.ptr), r.s.(heap := r.s.heap[s.ptr := Cell(color, Blk(tag, r.vs))]))
  {
    hide ReadFields, Read;
  }

  lemma GrownBlock(s: Reader, s1: Reader, s2: Reader, hp: int, cell: Cell)
    requires hp == s.ptr < s1.ptr && s1.objs == s.objs + [hp] && s1.heap == s.heap && s1.word == s.word
    requires Grows(s1, s2)
    ensures Grows(s, s2.(heap := s2.heap[hp := cell]))
  {
    forall i | |s.objs| <= i < |s2.objs|
      ensures s.ptr <= s2.objs[i]
    {
      if i == |s.objs| {
        assert s2.objs[i] == s1.objs[i];
      }
    }
  }

  lemma {:induction false} FieldsGrow(size: nat, s: Reader, color: int, last: Val)
    requires ReadFields(size, s, color, last).AllDone?
    ensures Grows(s, ReadFields(size, s, color, last).s)
    decreases |s.input|, size + 1
  {
    if size > 0 {
      ReadGrows(s, color, StaleFor(size, last));
      var s1 := Read(s, color, StaleFor(size, last)).s;
      FieldsGrow(size - 1, s1, color, last);
      GrowsTwice(s, s1, ReadFields(size - 1, s1, color, last).s);
    }
  }

  // ----- The objects met -----

  ghost predicate NoDup(t: seq<int>) {
    forall i, j :: 0 <= i < j < |t| ==> t[i] != t[j]
  }

  ghost predicate RefIn(t: seq<int>, v: Val) {
    v.Ref? ==> v.a in t
  }

  ghost predicate FieldsIn(t: seq<int>, fs: seq<Val>) {
    forall k :: 0 <= k < |fs| ==> RefIn(t, fs[k])
  }

  ghost predicate NodeIn(t: seq<int>, o: Node) {
    o.Blk? ==> FieldsIn(t, o.fields)
  }

  /** From position `from` on, the table holds objects whose pointers lead to objects of the table. */
  ghost predicate Covered(m: Mem, t: seq<int>, from: int) {
    forall i {:trigger t[i]} :: 0 <= from <= i < |t| ==> t[i] in m && NodeIn(t, m[t[i]].node)
  }

  lemma LongerIn(t: seq<int>, t': seq<int>, v: Val)
    requires t <= t' && RefIn(t, v)
    ensures RefIn(t', v)
  {
    if v.Ref? {
      var k :| 0 <= k < |t| && t[k] == v.a;
      assert t'[k] == v.a;
    }
  }

  lemma LongerNode(t: seq<int>, t': seq<int>, o: Node)
    requires t <= t' && NodeIn(t, o)
    ensures NodeIn(t', o)
  {
    if o.Blk? {
      forall k | 0 <= k < |o.fields|
        ensures RefIn(t', o.fields[k])
      {
        LongerIn(t, t', o.fields[k]);
      }
    }
  }

  lemma CoveredOn(m: Mem, t: seq<int>, t': seq<int>, from: int)
    requires t <= t' && 0 <= from && Covered(m, t, from) && Covered(m, t', |t|)
    ensures Covered(m, t', from)
  {
    forall i {:trigger t'[i]} | from <= i < |t'|
      ensures t'[i] in m && NodeIn(t', m[t'[i]].node)
    {
      if i < |t| {
        assert t'[i] == t[i];
        LongerNode(t, t', m[t[i]].node);
      }
    }
  }

  /** What is known of the table after a value has been written. */
  ghost predicate Tabled(m: Mem, t: seq<int>, t': seq<int>) {
    t <= t' && (NoDup(t) ==> NoDup(t')) && Covered(m, t', |t|)
  }

  lemma NoDupAdd(t: seq<int>, a: int)
    requires NoDup(t) && a !in t
    ensures NoDup(t + [a])
  {
  }

  lemma {:induction false} EmitTable(m: Mem, v: Val, t: seq<int>)
    requires MemOk(m) && ValOk(m, v) && Emit(m, v, t).Emitted?
    ensures Tabled(m, t, Emit(m, v, t).table) && RefIn(Emit(m, v, t).table, v)
    decreases |NotYet(m, t)|, 0
  {
    if v.Ref? && v.a !in t {
      var a := v.a;
      assert CellOk(m, a);
      var t1 := t + [a];
      assert t1[|t|] == a;
      if NoDup(t) {
        NoDupAdd(t, a);
      }
      if m[a].node.Blk? {
        OneLess(m, t, a);
        EmitFieldsTable(m, m[a].node.fields, t1);
        var t' := EmitFields(m, m[a].node.fields, t1).table;
        hide Emit, EmitFields, MemOk, NoDup;
        assert Covered(m, t', |t|) by {
          assert t'[|t|] == a;
        }
        LongerIn(t1, t', v);
        EmitBlock(m, a, t);
      }
    }
  }

  lemma EmitBlock(m: Mem, a: int, t: seq<int>)
    requires MemOk(m) && a in m && a !in t && m[a].node.Blk? && Emit(m, Ref(a), t).Emitted?
    ensures 0 <= m[a].color < 4 && AllOk(m, m[a].node.fields) && 0 <= m[a].node.tag < 256 && m[a].node.fields != []
    ensures var e := EmitFields(m, m[a].node.fields, t + [a]);
            e.Emitted? && t + [a] <= e.table &&
            Emit(m, Ref(a), t) == Emitted(EmitHeader(m[a].node.tag, |m[a].node.fields|, m[a].color) + e.out, e.table)
  {
    hide EmitFields, EmitHeader;
    assert CellOk(m, a);
  }

  lemma {:induction false} EmitFieldsTable(m: Mem, fs: seq<Val>, t: seq<int>)
    requires MemOk(m) && AllOk(m, fs) && EmitFields(m, fs, t).Emitted?
    ensures Tabled(m, t, EmitFields(m, fs, t).table) && FieldsIn(EmitFields(m, fs, t).table, fs)
    decreases |NotYet(m, t)|, |fs| + 1
  {
    hide *;
    if fs == [] {
      NoFieldsTable(m, fs, t);
    } else {
      EmitFirst(m, fs, t);
      FirstOk(m, fs);
      EmitTable(m, fs[0], t);
      var t1 := Emit(m, fs[0], t).table;
      NoMore(m, t, t1);
      EmitFieldsTable(m, fs[1..], t1);
      var t' := EmitFields(m, fs[1..], t1).table;
      TabledTwice(m, t, t1, t');
      AllFieldsIn(t1, t', fs);
    }
  }

  lemma FirstOk(m: Mem, fs: seq<Val>)
    requires AllOk(m, fs) && fs != []
    ensures ValOk(m, fs[0])
  {
  }

  lemma NoFieldsTable(m: Mem, fs: seq<Val>, t: seq<int>)
    requires MemOk(m) && AllOk(m, fs) && fs == []
    ensures EmitFields(m, fs, t) == Emitted([], t) && Tabled(m, t, t) && FieldsIn(t, fs)
  {
  }

  lemma TabledTwice(m: Mem, t: seq<int>, t1: seq<int>, t': seq<int>)
    requires Tabled(m, t, t1) && Tabled(m, t1, t')
    ensures Tabled(m, t, t') && t1 <= t'
  {
    CoveredOn(m, t1, t', |t|);
    hide NoDup, Covered;
  }

  lemma AllFieldsIn(t1: seq<int>, t': seq<int>, fs: seq<Val>)
    requires fs != [] && RefIn(t1, fs[0]) && t1 <= t' && FieldsIn(t', fs[1..])
    ensures FieldsIn(t', fs)
  {
    LongerIn(t1, t', fs[0]);
    hide RefIn;
    forall k | 0 <= k < |fs|
      ensures RefIn(t', fs[k])
    {
      if k > 0 {
        assert fs[1..][k - 1] == fs[k];
      }
    }
  }

  // ----- Images -----

  /** The copy of a value, where the object at position `i` of the table is copied to `objs[i]`. */
  function Image(t: seq<int>, objs: seq<int>, v: Val): Val
    requires |t| == |objs|
  {
    if v.Ref? && v.a in t then Ref(objs[IndexOf(t, v.a)]) else v
  }

  function Images(t: seq<int>, objs: seq<int>, fs: seq<Val>): (vs: seq<Val>)
    requires |t| == |objs|
    ensures |vs| == |fs| && forall k :: 0 <= k < |fs| ==> vs[k] == Image(t, objs, fs[k])
  {
    if fs == [] then [] else [Image(t, objs, fs[0])] + Images(t, objs, fs[1..])
  }

  function NodeImage(t: seq<int>, objs: seq<int>, o: Node): Node
    requires |t| == |objs|
  {
    if o.Blk? then Blk(o.tag, Images(t, objs, o.fields)) else o
  }

  lemma IndexStays(t: seq<int>, t': seq<int>, a: int)
    requires t <= t' && a in t
    ensures a in t' && IndexOf(t', a) == IndexOf(t, a)
  {
    var i := IndexOf(t, a);
    assert t'[i] == a;
    var j := IndexOf(t', a);
    assert j <= i;
    assert t[j] == t'[j];
  }

  lemma ImageStays(t: seq<int>, objs: seq<int>, t': seq<int>, objs': seq<int>, v: Val)
    requires |t| == |objs| && |t'| == |objs'| && t <= t' && objs <= objs' && RefIn(t, v)
    ensures Image(t', objs', v) == Image(t, objs, v)
  {
    if v.Ref? {
      IndexStays(t, t', v.a);
    }
  }

  lemma NodeImageStays(t: seq<int>, objs: seq<int>, t': seq<int>, objs': seq<int>, o: Node)
    requires |t| == |objs| && |t'| == |objs'| && t <= t' && objs <= objs' && NodeIn(t, o)
    ensures NodeImage(t', objs', o) == NodeImage(t, objs, o)
  {
    if o.Blk? {
      forall k | 0 <= k < |o.fields|
        ensures Image(t', objs', o.fields[k]) == Image(t, objs, o.fields[k])
      {
        ImageStays(t, objs, t', objs', o.fields[k]);
      }
      assert Images(t', objs', o.fields) == Images(t, objs, o.fields);
    }
  }

  /** Object `i` of the table has been copied. */
  ghost predicate CopiedAt(m: Mem, t: seq<int>, s: Reader, color: int, i: int) {
    && 0 <= i < |t| == |s.objs| && t[i] in m && s.objs[i] in s.heap
    && s.heap[s.objs[i]] == Cell(color, NodeImage(t, s.objs, m[t[i]].node))
  }

  ghost predicate Copied(m: Mem, t: seq<int>, s: Reader, color: int, from: int) {
    |t| == |s.objs| && forall i {:trigger CopiedAt(m, t, s, color, i)} ::
                         0 <= from <= i < |t| ==> CopiedAt(m, t, s, color, i)
  }

  lemma CopiedOn(m: Mem, t: seq<int>, s: Reader, t': seq<int>, s': Reader, color: int, from: int)
    requires Copied(m, t, s, color, from) && Covered(m, t, from) && t <= t' && Grows(s, s') && ObjsOk(s) && 0 <= from
    requires Copied(m, t', s', color, |t|)
    ensures Copied(m, t', s', color, from)
  {
    forall i | from <= i < |t'|
      ensures CopiedAt(m, t', s', color, i)
    {
      if i < |t| {
        assert CopiedAt(m, t, s, color, i);
        assert t'[i] == t[i] && s'.objs[i] == s.objs[i];
        NodeImageStays(t, s.objs, t', s'.objs, m[t[i]].node);
      }
    }
  }

  // ----- The round trip -----

  /** The size of the object survives being written. */
  predicate SizeFits(o: Node) {
    match o
    case Str(bytes) => |bytes| < 0x1_0000_0000
    case Dbl(_) => true
    case Blk(_, fields) => |fields| < 0x40_0000
  }

  predicate Has(word: wordsize, v: Val) {
    v.Int? ==> InWord(word, v.n)
  }

  predicate HasAll(word: wordsize, fs: seq<Val>) {
    forall k :: 0 <= k < |fs| ==> Has(word, fs[k])
  }

  /** A machine with such words can read the object: its size and its integers. */
  predicate Fits(word: wordsize, o: Node) {
    SizeFits(o) && (o.Blk? ==> HasAll(word, o.fields))
  }

  ghost predicate AllFit(word: wordsize, m: Mem, t: seq<int>, from: int) {
    forall i {:trigger t[i]} :: 0 <= from <= i < |t| ==> t[i] in m && Fits(word, m[t[i]].node)
  }

  /** Words taken by an object, with its header. */
  function Words(word: wordsize, o: Node): int {
    match o
    case Str(bytes) => 1 + (|bytes| + word) / word
    case Dbl(_) => 1 + 8 / word
    case Blk(_, fields) => 1 + |fields|
  }

  function WordsFrom(word: wordsize, m: Mem, t: seq<int>, from: nat): int
    requires forall i :: from <= i < |t| ==> t[i] in m
    decreases |t| - from
  {
    if from >= |t| then 0 else Words(word, m[t[from]].node) + WordsFrom(word, m, t, from + 1)
  }

  lemma {:induction false} WordsSplit(word: wordsize, m: Mem, t: seq<int>, t': seq<int>, from: nat)
    requires t <= t' && from <= |t| && forall i :: from <= i < |t'| ==> t'[i] in m
    ensures forall i :: from <= i < |t| ==> t[i] in m
    ensures WordsFrom(word, m, t', from) == WordsFrom(word, m, t, from) + WordsFrom(word, m, t', |t|)
    decreases |t| - from
  {
    assert forall i :: from <= i < |t| ==> t[i] == t'[i];
    if from < |t| {
      WordsSplit(word, m, t, t', from + 1);
    }
  }

  /** Reading gives the copy of what was written, and takes exactly its words. */
  ghost predicate ReadsBack(m: Mem, v: Val, t: seq<int>, e: Emitted, s: Reader, rest: seq<byte>, color: int,
                            stale: Val) {
    && e.Emitted? && Read(s, color, stale).Done?
    && var s' := Read(s, color, stale).s;
       && s'.input == rest && |s'.objs| == |e.table| && Grows(s, s')
       && Read(s, color, stale).v == Image(e.table, s'.objs, v)
       && Copied(m, e.table, s', color, |t|) && Covered(m, e.table, |t|)
       && s'.ptr == s.ptr + WordsFrom(s.word, m, e.table, |t|)
  }

  ghost predicate FieldsReadBack(m: Mem, fs: seq<Val>, t: seq<int>, e: Emitted, s: Reader, rest: seq<byte>,
                                 color: int, last: Val) {
    && e.Emitted? && ReadFields(|fs|, s, color, last).AllDone?
    && var s' := ReadFields(|fs|, s, color, last).s;
       && s'.input == rest && |s'.objs| == |e.table| && Grows(s, s')
       && ReadFields(|fs|, s, color, last).vs == Images(e.table, s'.objs, fs)
       && Copied(m, e.table, s', color, |t|) && Covered(m, e.table, |t|)
       && s'.ptr == s.ptr + WordsFrom(s.word, m, e.table, |t|)
  }

  lemma {:induction false} RoundTrip(m: Mem, v: Val, t: seq<int>, s: Reader, rest: seq<byte>, color: int, stale: Val)
    requires MemOk(m) && ValOk(m, v) && Emit(m, v, t).Emitted? && NoDup(t)
    requires s.input == Emit(m, v, t).out + rest && |s.objs| == |t| && ObjsOk(s)
    requires |Emit(m, v, t).table| < 0x1_0000_0000 && AllFit(s.word, m, Emit(m, v, t).table, |t|) && Has(s.word, v)
    ensures ReadsBack(m, v, t, Emit(m, v, t), s, rest, color, stale)
    decreases |NotYet(m, t)|, 0
  {
    hide *;
    if v.Ref? && v.a !in t {
      var a := v.a;
      ObjectOk(s.word, m, a, t, Emit(m, v, t).table);
      match m[a].node {
        case Str(bytes) => StringBack(m, a, t, s, rest, color, stale);
        case Dbl(bytes) => DoubleBack(m, a, t, s, rest, color, stale);
        case Blk(tag, fields) =>
          EmitBlock(m, a, t);
          OneLess(m, t, a);
          var e := EmitFields(m, fields, t + [a]);
          BlockStart(m, a, t, s, |fields|, e, e.out + rest);
          RoundTripFields(m, fields, t + [a],
                          Reader(e.out + rest, s.ptr + 1 + |fields|, s.objs + [s.ptr], s.heap, s.word),
                          rest, color, Ref(s.ptr));
          BlockBack(m, a, t, s, e, rest, color, stale);
      }
    } else {
      SimpleBack(m, v, t, s, rest, color, stale);
    }
  }

  lemma ObjectOk(word: wordsize, m: Mem, a: int, t: seq<int>, t': seq<int>)
    requires MemOk(m) && ValOk(m, Ref(a)) && a !in t && AllFit(word, m, t', |t|) && Emit(m, Ref(a), t).Emitted?
    requires t' == Emit(m, Ref(a), t).table
    ensures a in m && CellOk(m, a) && SizeFits(m[a].node)
    ensures m[a].node.Blk? ==> AllOk(m, m[a].node.fields) && HasAll(word, m[a].node.fields)
  {
    assert CellOk(m, a);
    assert t + [a] <= t' by {
      hide EmitFields;
    }
    assert t'[|t|] == (t + [a])[|t|] == a;
  }

  /** Integers, atoms and objects met before. */
  lemma SimpleBack(m: Mem, v: Val, t: seq<int>, s: Reader, rest: seq<byte>, color: int, stale: Val)
    requires MemOk(m) && ValOk(m, v) && (v.Ref? ==> v.a in t) && |s.objs| == |t| < 0x1_0000_0000 && Has(s.word, v)
    requires s.input == Emit(m, v, t).out + rest
    ensures ReadsBack(m, v, t, Emit(m, v, t), s, rest, color, stale)
  {
    hide Read, EmitInt, EmitHeader, EmitShared, ReadBlock;
    match v
    case Int(n) =>
      ReadsInt(s, n, rest, color, stale);
      Nothing(m, v, t, s, rest, color, stale);
    case Atom(tag) =>
      ReadsHeader(s, tag, 0, 0, rest, color, stale);
      AtomRead(tag, s.(input := rest), color);
      Nothing(m, v, t, s, rest, color, stale);
    case Ref(a) =>
      ReadsShared(s, |t| - IndexOf(t, a), rest, color, stale);
      Nothing(m, v, t, s, rest, color, stale);
  }

  lemma AtomRead(tag: int, s: Reader, color: int)
    ensures ReadBlock(tag, ShortSize(tag, 0), s, color) == Done(Atom(tag), s)
  {
  }

  /** Nothing new has been read. */
  lemma Nothing(m: Mem, v: Val, t: seq<int>, s: Reader, rest: seq<byte>, color: int, stale: Val)
    requires Emit.requires(m, v, t) && Emit(m, v, t).Emitted? && Emit(m, v, t).table == t && |s.objs| == |t|
    requires Read(s, color, stale) == Done(Image(t, s.objs, v), s.(input := rest))
    ensures ReadsBack(m, v, t, Emit(m, v, t), s, rest, color, stale)
  {
    hide Read, Emit;
  }

  /** An object without fields has been read. */
  lemma LeafBack(m: Mem, a: int, t: seq<int>, s: Reader, s1: Reader, rest: seq<byte>, size: int, color: int, stale: Val)
    requires MemOk(m) && a in m && a !in t && !m[a].node.Blk? && |s.objs| == |t| && ObjsOk(s)
    requires s1 == s.(input := s1.input)
    requires Emit(m, Ref(a), t).Emitted? && Emit(m, Ref(a), t).table == t + [a]
    requires Words(s.word, m[a].node) == 1 + size >= 1 &&
               Read(s, color, stale) == Placed(s1, rest, size, color, m[a].node)
    ensures ReadsBack(m, Ref(a), t, Emit(m, Ref(a), t), s, rest, color, stale)
  {
    hide Read, Emit;
    var t', s' := t + [a], Read(s, color, stale).s;
    LastIndex(t, t', a);
    assert t'[|t|] == a && s'.objs[|t|] == s.ptr;
    assert CopiedAt(m, t', s', color, |t|);
    assert WordsFrom(s.word, m, t', |t|) == Words(s.word, m[a].node) + WordsFrom(s.word, m, t', |t| + 1);
  }

  lemma LastIndex(t: seq<int>, t': seq<int>, a: int)
    requires t + [a] <= t' && a !in t
    ensures a in t' && IndexOf(t', a) == |t| && t'[|t|] == a
  {
    assert t'[|t|] == a;
    assert forall k :: 0 <= k < |t| ==> t'[k] == t[k];
  }

  lemma StringBack(m: Mem, a: int, t: seq<int>, s: Reader, rest: seq<byte>, color: int, stale: Val)
    requires MemOk(m) && a in m && a !in t && m[a].node.Str? && SizeFits(m[a].node) && |s.objs| == |t| && ObjsOk(s)
    requires s.input == Emit(m, Ref(a), t).out + rest
    ensures ReadsBack(m, Ref(a), t, Emit(m, Ref(a), t), s, rest, color, stale)
  {
    hide Read, EmitString;
    var bytes := m[a].node.bytes;
    ReadsString(s, bytes, rest, color, stale);
    Small(|bytes|, 0x1_0000_0000);
    Rest(bytes, rest, []);
    LeafBack(m, a, t, s, s.(input := bytes + rest), rest, (|bytes| + s.word) / s.word, color, stale);
  }

  lemma DoubleBack(m: Mem, a: int, t: seq<int>, s: Reader, rest: seq<byte>, color: int, stale: Val)
    requires MemOk(m) && a in m && a !in t && m[a].node.Dbl? && |s.objs| == |t| && ObjsOk(s)
    requires s.input == Emit(m, Ref(a), t).out + rest
    ensures ReadsBack(m, Ref(a), t, Emit(m, Ref(a), t), s, rest, color, stale)
  {
    hide Read;
    assert CellOk(m, a);
    var bytes := m[a].node.bytes;
    Rest([CODE_DOUBLE], bytes, rest);
    Rest(bytes, rest, []);
    ReadCode(s, CODE_DOUBLE, bytes + rest, color, stale);
    LeafBack(m, a, t, s, s.(input := bytes + rest), rest, 8 / s.word, color, stale);
  }

  lemma BlockStart(m: Mem, a: int, t: seq<int>, s: Reader, size: nat, e: Emitted, input: seq<byte>)
    requires NoDup(t) && a !in t && |s.objs| == |t| && ObjsOk(s) && e.Emitted?
    requires AllFit(s.word, m, e.table, |t|)
    ensures NoDup(t + [a]) && AllFit(s.word, m, e.table, |t| + 1)
    ensures ObjsOk(Reader(input, s.ptr + 1 + size, s.objs + [s.ptr], s.heap, s.word))
  {
  }

  /** All fields of a block have been read. */
  lemma BlockBack(m: Mem, a: int, t: seq<int>, s: Reader, e: Emitted, rest: seq<byte>, color: int, stale: Val)
    requires MemOk(m) && a in m && a !in t && m[a].node.Blk? && SizeFits(m[a].node) && |s.objs| == |t| && ObjsOk(s)
    requires AllOk(m, m[a].node.fields) && NoDup(t)
    requires Emit(m, Ref(a), t).Emitted? && e == EmitFields(m, m[a].node.fields, t + [a])
    requires s.input == Emit(m, Ref(a), t).out + rest
    requires var fs := m[a].node.fields;
             FieldsReadBack(m, fs, t + [a], e, Reader(e.out + rest, s.ptr + 1 + |fs|, s.objs + [s.ptr], s.heap, s.word),
                            rest,
                            color, Ref(s.ptr))
    ensures ReadsBack(m, Ref(a), t, Emit(m, Ref(a), t), s, rest, color, stale)
  {
    hide *;
    EmitBlock(m, a, t);
    RefOk(m, a);
    EmitTable(m, Ref(a), t);
    TableFacts(m, t, e.table);
    BlockRead(m, a, t, s, e, rest, color, stale);
    BlockResult(m, a, t, s, e, rest, color, stale);
  }

  lemma RefOk(m: Mem, a: int)
    requires a in m
    ensures ValOk(m, Ref(a))
  {
  }

  lemma TableFacts(m: Mem, t: seq<int>, t': seq<int>)
    requires Tabled(m, t, t')
    ensures t <= t' && Covered(m, t', |t|) && (NoDup(t) ==> NoDup(t'))
  {
    hide NoDup, Covered;
  }

  /** What the value and state after reading the block are. */
  ghost predicate BlockReads(m: Mem, a: int, s: Reader, e: Emitted, rest: seq<byte>, color: int, stale: Val)
    requires a in m && m[a].node.Blk? && e.Emitted?
  {
    var fs := m[a].node.fields;
    var r := ReadFields(|fs|, Reader(e.out + rest, s.ptr + 1 + |fs|, s.objs + [s.ptr], s.heap, s.word), color,
                        Ref(s.ptr));
    r.AllDone? && Read(s, color, stale) == Done(Ref(s.ptr),
                                                r.s.(heap := r.s.heap[s.ptr := Cell(color, Blk(m[a].node.tag, r.vs))]))
  }

  lemma BlockRead(m: Mem, a: int, t: seq<int>, s: Reader, e: Emitted, rest: seq<byte>, color: int, stale: Val)
    requires a in m && m[a].node.Blk? && SizeFits(m[a].node) && e.Emitted? && m[a].node.fields != []
    requires 0 <= m[a].node.tag < 256 && 0 <= m[a].color < 4
    requires s.input == EmitHeader(m[a].node.tag, |m[a].node.fields|, m[a].color) + e.out + rest
    requires var fs := m[a].node.fields;
             FieldsReadBack(m, fs, t + [a], e, Reader(e.out + rest, s.ptr + 1 + |fs|, s.objs + [s.ptr], s.heap, s.word),
                            rest,
                            color, Ref(s.ptr))
    ensures BlockReads(m, a, s, e, rest, color, stale)
  {
    hide Read, ReadFields, EmitHeader, ReadBlock, Copied, Covered, Grows, WordsFrom, Images;
    var tag, fs := m[a].node.tag, m[a].node.fields;
    var r := ReadFields(|fs|, Reader(e.out + rest, s.ptr + 1 + |fs|, s.objs + [s.ptr], s.heap, s.word), color,
                        Ref(s.ptr));
    Rest(EmitHeader(tag, |fs|, m[a].color), e.out, rest);
    ReadsHeader(s, tag, |fs|, m[a].color, e.out + rest, color, stale);
    Small(|fs|, 0x40_0000);
    BlockDone(tag, s.(input := e.out + rest), |fs|, r, color);
  }

  lemma BlockResult(m: Mem, a: int, t: seq<int>, s: Reader, e: Emitted, rest: seq<byte>, color: int, stale: Val)
    requires a in m && a !in t && m[a].node.Blk? && |s.objs| == |t| && ObjsOk(s) && e.Emitted? && t + [a] <= e.table
    requires Covered(m, e.table, |t|)
    requires BlockReads(m, a, s, e, rest, color, stale)
    requires var fs := m[a].node.fields;
             FieldsReadBack(m, fs, t + [a], e, Reader(e.out + rest, s.ptr + 1 + |fs|, s.objs + [s.ptr], s.heap, s.word),
                            rest,
                            color, Ref(s.ptr))
    ensures forall out :: ReadsBack(m, Ref(a), t, Emitted(out, e.table), s, rest, color, stale)
  {
    var fs := m[a].node.fields;
    var s1 := Reader(e.out + rest, s.ptr + 1 + |fs|, s.objs + [s.ptr], s.heap, s.word);
    var r := ReadFields(|fs|, s1, color, Ref(s.ptr));
    hide Read, ReadFields, Copied, Covered, Grows, WordsFrom, ObjsOk;
    var cell := Cell(color, Blk(m[a].node.tag, r.vs));
    GrownBlock(s, s1.(input := s.input), r.s, s.ptr, cell) by {
      SameGrowth(s1, s.input, r.s);
    }
    LastIndex(t, e.table, a);
    BlockCopied(m, a, t, s, s1, e.table, r.s, cell, color);
    WordsNext(s.word, m, e.table, |t|);
  }

  lemma SameGrowth(s: Reader, input: seq<byte>, s': Reader)
    ensures Grows(s.(input := input), s') == Grows(s, s')
  {
  }

  lemma BlockDone(tag: int, s: Reader, size: nat, r: Results, color: int)
    requires size > 0 && r == ReadFields(size, Reader(s.input, s.ptr + 1 + size, s.objs + [s.ptr], s.heap, s.word),
                                         color,
                                         Ref(s.ptr))
    requires r.AllDone?
    ensures ReadBlock(tag, size, s, color) == Done(Ref(s.ptr),
                                                   r.s.(heap := r.s.heap[s.ptr := Cell(color, Blk(tag, r.vs))]))
  {
    hide ReadFields, Read;
  }

  lemma WordsNext(word: wordsize, m: Mem, t: seq<int>, i: nat)
    requires i < |t| && Covered(m, t, i)
    ensures forall k :: i <= k < |t| ==> t[k] in m
    ensures WordsFrom(word, m, t, i) == Words(word, m[t[i]].node) + WordsFrom(word, m, t, i + 1)
  {
  }

  lemma BlockCopied(m: Mem, a: int, t: seq<int>, s: Reader, s1: Reader, t': seq<int>, s2: Reader, cell: Cell,
                    color: int)
    requires a in m && m[a].node.Blk? && t + [a] <= t' && |s.objs| == |t| && s1.objs == s.objs + [s.ptr]
    requires s.ptr < s1.ptr
    requires Grows(s1, s2) && |s2.objs| == |t'| && Copied(m, t', s2, color, |t| + 1)
    requires cell == Cell(color, NodeImage(t', s2.objs, m[a].node))
    ensures Copied(m, t', s2.(heap := s2.heap[s.ptr := cell]), color, |t|)
  {
    var s' := s2.(heap := s2.heap[s.ptr := cell]);
    hide NodeImage;
    forall i | |t| <= i < |t'|
      ensures CopiedAt(m, t', s', color, i)
    {
      if i == |t| {
        assert t'[i] == (t + [a])[i] == a && s2.objs[i] == s1.objs[i] == s.ptr;
      } else {
        assert CopiedAt(m, t', s2, color, i);
        assert s1.ptr <= s2.objs[i];
      }
    }
  }

  lemma {:induction false} RoundTripFields(m: Mem, fs: seq<Val>, t: seq<int>, s: Reader, rest: seq<byte>, color: int,
                                           last: Val)
    requires MemOk(m) && AllOk(m, fs) && EmitFields(m, fs, t).Emitted? && NoDup(t)
    requires s.input == EmitFields(m, fs, t).out + rest && |s.objs| == |t| && ObjsOk(s)
    requires |EmitFields(m, fs, t).table| < 0x1_0000_0000 && AllFit(s.word, m, EmitFields(m, fs, t).table, |t|)
    requires HasAll(s.word, fs)
    ensures FieldsReadBack(m, fs, t, EmitFields(m, fs, t), s, rest, color, last)
    decreases |NotYet(m, t)|, |fs| + 1
  {
    hide *;
    if fs == [] {
      NoFieldsBack(m, fs, t, s, rest, color, last);
    } else {
      EmitFirst(m, fs, t);
      FirstOk(m, fs);
      HasFirst(s.word, fs);
      var e := Emit(m, fs[0], t);
      var e' := EmitFields(m, fs[1..], e.table);
      Rest(e.out, e'.out, rest);
      NoMore(m, t, e.table);
      EmitTable(m, fs[0], t);
      FitParts(s.word, m, e.table, e'.table, |t|);
      RoundTrip(m, fs[0], t, s, e'.out + rest, color, StaleFor(|fs|, last));
      ReadBackFacts(m, fs[0], t, e, s, e'.out + rest, color, StaleFor(|fs|, last));
      var s1 := Read(s, color, StaleFor(|fs|, last)).s;
      TableFacts(m, t, e.table);
      RoundTripFields(m, fs[1..], e.table, s1, rest, color, last);
      FieldsBack(m, fs, t, e, e', s, s1, rest, color, last);
    }
  }

  lemma HasFirst(word: wordsize, fs: seq<Val>)
    requires fs != []
    ensures HasAll(word, fs) <==> Has(word, fs[0]) && HasAll(word, fs[1..])
  {
    hide Has;
    if HasAll(word, fs[1..]) {
      assert forall k :: 0 < k < |fs| ==> fs[k] == fs[1..][k - 1];
    }
  }

  lemma NoFieldsBack(m: Mem, fs: seq<Val>, t: seq<int>, s: Reader, rest: seq<byte>, color: int, last: Val)
    requires MemOk(m) && AllOk(m, fs) && fs == [] && |s.objs| == |t|
    requires s.input == EmitFields(m, fs, t).out + rest
    ensures FieldsReadBack(m, fs, t, EmitFields(m, fs, t), s, rest, color, last)
  {
    hide Emit, Read;
    assert s.input == rest;
  }

  lemma EmitFirst(m: Mem, fs: seq<Val>, t: seq<int>)
    requires MemOk(m) && AllOk(m, fs) && EmitFields(m, fs, t).Emitted? && fs != []
    ensures Emit(m, fs[0], t).Emitted? && AllOk(m, fs[1..]) && EmitFields(m, fs[1..], Emit(m, fs[0], t).table).Emitted?
    ensures var e := Emit(m, fs[0], t); var e' := EmitFields(m, fs[1..], e.table);
            EmitFields(m, fs, t) == Emitted(e.out + e'.out, e'.table) && e.table <= e'.table && t <= e.table
  {
    hide Emit;
  }

  lemma FitParts(word: wordsize, m: Mem, t: seq<int>, t': seq<int>, from: nat)
    requires t <= t' && from <= |t| && AllFit(word, m, t', from)
    ensures AllFit(word, m, t, from) && AllFit(word, m, t', |t|)
  {
    forall i {:trigger t[i]} | from <= i < |t|
      ensures t[i] in m && Fits(word, m[t[i]].node)
    {
      assert t'[i] == t[i];
    }
  }

  lemma ReadBackFacts(m: Mem, v: Val, t: seq<int>, e: Emitted, s: Reader, rest: seq<byte>, color: int, stale: Val)
    requires ReadsBack(m, v, t, e, s, rest, color, stale) && ObjsOk(s)
    ensures Read(s, color, stale).Done? && ObjsOk(Read(s, color, stale).s) &&
              |Read(s, color, stale).s.objs| == |e.table|
    ensures Read(s, color, stale).s.input == rest && Read(s, color, stale).s.word == s.word
  {
    hide Read, Copied, Covered;
  }

  lemma FieldsBack(m: Mem, fs: seq<Val>, t: seq<int>, e: Emitted, e': Emitted, s: Reader, s1: Reader, rest: seq<byte>,
                   color: int, last: Val)
    requires fs != [] && e.Emitted? && e'.Emitted? && t <= e.table <= e'.table && RefIn(e.table, fs[0]) && ObjsOk(s)
    requires ObjsOk(s1)
    requires ReadsBack(m, fs[0], t, e, s, e'.out + rest, color, StaleFor(|fs|, last)) &&
               s1 == Read(s, color, StaleFor(|fs|, last)).s
    requires FieldsReadBack(m, fs[1..], e.table, e', s1, rest, color, last)
    ensures FieldsReadBack(m, fs, t, Emitted(e.out + e'.out, e'.table), s, rest, color, last)
  {
    hide Read, ReadFields, Copied, Covered, Grows, WordsFrom, Images, Image, ObjsOk, StaleFor, RefIn;
    var r := ReadFields(|fs| - 1, s1, color, last);
    NextField(|fs|, s, color, last);
    GrowsTwice(s, s1, r.s);
    GrownObjs(s, s1);
    GrownObjs(s1, r.s);
    CopiedOn(m, e.table, s1, e'.table, r.s, color, |t|);
    CoveredOn(m, e.table, e'.table, |t|);
    ImageStays(e.table, s1.objs, e'.table, r.s.objs, fs[0]);
    AllIn(m, e'.table, |t|);
    WordsSplit(s.word, m, e.table, e'.table, |t|);
    ImagesFirst(e'.table, r.s.objs, fs);
  }

  lemma GrownObjs(s: Reader, s': Reader)
    requires Grows(s, s')
    ensures s.objs <= s'.objs && s'.word == s.word
  {
  }

  lemma ImagesFirst(t: seq<int>, objs: seq<int>, fs: seq<Val>)
    requires fs != [] && |t| == |objs|
    ensures Images(t, objs, fs) == [Image(t, objs, fs[0])] + Images(t, objs, fs[1..])
  {
    hide Image;
  }

  lemma AllIn(m: Mem, t: seq<int>, from: nat)
    requires Covered(m, t, from)
    ensures forall i :: from <= i < |t| ==> t[i] in m
  {
  }

  lemma NextField(size: nat, s: Reader, color: int, last: Val)
    requires size > 0 && Read(s, color, StaleFor(size, last)).Done? &&
               ReadFields(size - 1, Read(s, color, StaleFor(size, last)).s, color, last).AllDone?
    ensures var r := ReadFields(size - 1, Read(s, color, StaleFor(size, last)).s, color, last);
            ReadFields(size, s, color, last) == AllDone([Read(s, color, StaleFor(size, last)).v] + r.vs, r.s)
  {
    hide Read;
  }
}
