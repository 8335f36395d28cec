/** Whole values in the compact format: what is read back is the same graph if and only if the
    sizes of all objects fit (src/runtime/externcp.c, src/runtime/interncp.c). */
module CompactGraphs {
  import opened Compact
  import opened CompactRoundTrip

  // ----- The same graph -----

  function Mapped(f: map<int, int>, v: Val): Val {
    if v.Ref? && v.a in f then Ref(f[v.a]) else v
  }

  ghost predicate SameNode(f: map<int, int>, o: Node, o': Node) {
    if o.Blk? then
      && o'.Blk? && o'.tag == o.tag && |o'.fields| == |o.fields|
      && forall k ::
           0 <= k < |o.fields| ==> (o.fields[k].Ref? ==> o.fields[k].a in f) && o'.fields[k] == Mapped(f, o.fields[k])
    else o' == o
  }

  /** `f` maps the objects that `v` leads to, one to one, to objects of `h` with the same
      contents; so sharing and cycles are the same. */
  ghost predicate IsCopy(m: Mem, v: Val, h: Mem, w: Val, f: map<int, int>) {
    && (v.Ref? ==> v.a in f) && w == Mapped(f, v)
    && (forall a, b :: a in f && b in f && f[a] == f[b] ==> a == b)
    && forall a {:trigger f[a]} :: a in f ==> a in m && f[a] in h && SameNode(f, m[a].node, h[f[a]].node)
  }

  ghost predicate Isomorphic(m: Mem, v: Val, h: Mem, w: Val) {
    exists f :: IsCopy(m, v, h, w, f)
  }

  function Placement(t: seq<int>, objs: seq<int>): map<int, int>
    requires |t| == |objs|
  {
    map a | a in t :: objs[IndexOf(t, a)]
  }

  /** The copies of the objects in the table make up a copy of the graph. */
  lemma CopiedIsCopy(m: Mem, v: Val, t: seq<int>, s: Reader, color: int)
    requires Copied(m, t, s, color, 0) && Covered(m, t, 0) && RefIn(t, v) && ObjsOk(s) && |t| == |s.objs|
    ensures IsCopy(m, v, s.heap, Image(t, s.objs, v), Placement(t, s.objs))
  {
    var f := Placement(t, s.objs);
    forall a | a in f
      ensures a in m && f[a] in s.heap && SameNode(f, m[a].node, s.heap[f[a]].node)
    {
      var i := IndexOf(t, a);
      assert CopiedAt(m, t, s, color, i);
      assert t[i] == a && NodeIn(t, m[t[i]].node);
    }
    forall a, b | a in f && b in f && f[a] == f[b]
      ensures a == b
    {
      var i, j := IndexOf(t, a), IndexOf(t, b);
      assert i == j;
    }
  }

  // ----- Different graphs -----

  /** Along a path of field numbers, the objects of both graphs have the same sizes, and at its
      end they differ, or an integer does. */
  ghost predicate Differs(m: Mem, v: Val, h: Mem, w: Val, p: seq<int>)
    decreases |p|
  {
    if p == [] then
      || (v.Int? && w != v)
      || (v.Ref? && v.a in m && (w.Atom? || (w.Ref? && w.a in h && Size(h[w.a].node) != Size(m[v.a].node))))
    else
      && v.Ref? && v.a in m && m[v.a].node.Blk? && w.Ref? && w.a in h && h[w.a].node.Blk?
      && 0 <= p[0] < |m[v.a].node.fields| && p[0] < |h[w.a].node.fields|
      && Differs(m, m[v.a].node.fields[p[0]], h, h[w.a].node.fields[p[0]], p[1..])
  }

  function Size(o: Node): (bool, nat) {
    match o
    case Str(bytes) => (true, |bytes|)
    case Dbl(bytes) => (true, |bytes|)
    case Blk(_, fields) => (false, |fields|)
  }

  lemma {:induction false} CopyDoesNotDiffer(m: Mem, v: Val, h: Mem, w: Val, f: map<int, int>, v': Val, w': Val,
                                             p: seq<int>)
    requires IsCopy(m, v, h, w, f) && (v'.Ref? ==> v'.a in f) && w' == Mapped(f, v')
    ensures !Differs(m, v', h, w', p)
    decreases |p|
  {
    if v'.Ref? {
      var a := v'.a;
      assert f[a] in h;
      if p != [] && m[a].node.Blk? && h[f[a]].node.Blk? && 0 <= p[0] < |m[a].node.fields| {
        CopyDoesNotDiffer(m, v, h, w, f, m[a].node.fields[p[0]], h[f[a]].node.fields[p[0]], p[1..]);
      }
    }
  }

  ghost predicate Within(h: Mem, h': Mem) {
    forall a {:trigger a in h} {:trigger h'[a]} :: a in h ==> a in h' && h'[a] == h[a]
  }

  lemma {:induction false} DiffersStill(m: Mem, v: Val, h: Mem, h': Mem, w: Val, p: seq<int>)
    requires Differs(m, v, h, w, p) && Within(h, h')
    ensures Differs(m, v, h', w, p)
    decreases |p|
  {
    if p != [] {
      assert h'[w.a] == h[w.a];
      DiffersStill(m, m[v.a].node.fields[p[0]], h, h', h[w.a].node.fields[p[0]], p[1..]);
    }
  }

  lemma GrowsWithin(s: Reader, s': Reader)
    requires Grows(s, s') && KeysBelow(s)
    ensures Within(s.heap, s'.heap)
  {
  }

  // ----- Misreading -----

  /** The value is not read back, or something else is. */
  ghost predicate Misreads(m: Mem, v: Val, s: Reader, color: int, stale: Val) {
    Read(s, color, stale).Done? ==>
      exists p {:trigger Differs(m, v, Read(s, color, stale).s.heap, Read(s, color, stale).v, p)} ::
                               Differs(m, v, Read(s, color, stale).s.heap, Read(s, color, stale).v, p)
  }

  ghost predicate FieldDiffers(m: Mem, fs: seq<Val>, h: Mem, vs: seq<Val>, k: int) {
    0 <= k < |fs| == |vs| && exists p :: Differs(m, fs[k], h, vs[k], p)
  }

  ghost predicate MisreadsFields(m: Mem, fs: seq<Val>, s: Reader, color: int, last: Val) {
    var r := ReadFields(|fs|, s, color, last);
    r.AllDone? ==> exists k {:trigger FieldDiffers(m, fs, r.s.heap, r.vs, k)} :: FieldDiffers(m, fs, r.s.heap, r.vs, k)
  }

  /** When the size of some object that is written does not fit, or the machine does not have an
      integer, the value is misread. */
  lemma {:induction false} Misread(m: Mem, v: Val, t: seq<int>, s: Reader, rest: seq<byte>, color: int, stale: Val)
    requires MemOk(m) && ValOk(m, v) && Emit(m, v, t).Emitted? && NoDup(t) && KeysBelow(s)
    requires s.input == Emit(m, v, t).out + rest && |s.objs| == |t| && ObjsOk(s)
    requires |Emit(m, v, t).table| < 0x1_0000_0000
    requires !(AllFit(s.word, m, Emit(m, v, t).table, |t|) && Has(s.word, v))
    ensures Misreads(m, v, s, color, stale)
    decreases |NotYet(m, t)|, 0
  {
    hide *;
    if v.Int? {
      Overflows(m, v.n, t, s, rest, color, stale);
      return;
    }
    NewObject(s.word, m, v, t);
    var a := v.a;
    if !SizeFits(m[a].node) {
      Shortened(m, a, t, s, rest, color, stale);
    } else {
      EmitTable(m, v, t);
      TableFacts(m, t, Emit(m, v, t).table);
      UnfitInside(s.word, m, a, t);
      EmitBlock(m, a, t);
      OneLess(m, t, a);
      var fs := m[a].node.fields;
      var e := EmitFields(m, fs, t + [a]);
      var s1 := Reader(e.out + rest, s.ptr + 1 + |fs|, s.objs + [s.ptr], s.heap, s.word);
      InBlock(t, s, a, |fs|, e.out + rest);
      MisreadFields(m, fs, t + [a], s1, rest, color, Ref(s.ptr));
      BlockMisread(m, a, t, s, e, rest, color, stale);
    }
  }

  /** An integer that the machine does not have. */
  lemma Overflows(m: Mem, n: int, t: seq<int>, s: Reader, rest: seq<byte>, color: int, stale: Val)
    requires MemOk(m) && ValOk(m, Int(n)) && s.input == Emit(m, Int(n), t).out + rest
    requires !(AllFit(s.word, m, Emit(m, Int(n), t).table, |t|) && Has(s.word, Int(n)))
    ensures Misreads(m, Int(n), s, color, stale)
  {
    hide Read, EmitInt;
    ReadsInt(s, n, rest, color, stale);
    var r := Read(s, color, stale);
    if r.Done? {
      assert Differs(m, Int(n), r.s.heap, r.v, []);
    }
  }

  /** Only a new object adds to the table. */
  lemma NewObject(word: wordsize, m: Mem, v: Val, t: seq<int>)
    requires MemOk(m) && ValOk(m, v) && Emit(m, v, t).Emitted? && !v.Int?
    requires !(AllFit(word, m, Emit(m, v, t).table, |t|) && Has(word, v))
    ensures v.Ref? && v.a in m && v.a !in t && CellOk(m, v.a)
  {
    hide EmitFields, EmitInt, EmitHeader, EmitShared, EmitString;
    if v.Ref? {
      assert CellOk(m, v.a);
    }
  }

  /** The size of the object itself fits, so it is a block, and a field, or an object met in its
      fields, does not. */
  lemma UnfitInside(word: wordsize, m: Mem, a: int, t: seq<int>)
    requires MemOk(m) && a in m && a !in t && Emit(m, Ref(a), t).Emitted? && SizeFits(m[a].node)
    requires !(AllFit(word, m, Emit(m, Ref(a), t).table, |t|) && Has(word, Ref(a)))
    requires Covered(m, Emit(m, Ref(a), t).table, |t|)
    ensures m[a].node.Blk?
    ensures !(AllFit(word, m, Emit(m, Ref(a), t).table, |t| + 1) && HasAll(word, m[a].node.fields))
  {
    var t' := Emit(m, Ref(a), t).table;
    hide EmitString, EmitHeader, EmitFields, HasAll;
    assert t + [a] <= t';
    assert t'[|t|] == (t + [a])[|t|] == a;
  }

  lemma InBlock(t: seq<int>, s: Reader, a: int, size: nat, input: seq<byte>)
    requires NoDup(t) && a !in t && |s.objs| == |t| && ObjsOk(s) && KeysBelow(s)
    ensures NoDup(t + [a])
    ensures var s1 := Reader(input, s.ptr + 1 + size, s.objs + [s.ptr], s.heap, s.word);
            ObjsOk(s1) && KeysBelow(s1) && |s1.objs| == |t + [a]|
  {
  }

  /** An object that does not fit is read with another size. */
  lemma Shortened(m: Mem, a: int, t: seq<int>, s: Reader, rest: seq<byte>, color: int, stale: Val)
    requires MemOk(m) && a in m && CellOk(m, a) && a !in t && Emit(m, Ref(a), t).Emitted? && !SizeFits(m[a].node)
    requires s.input == Emit(m, Ref(a), t).out + rest
    ensures Misreads(m, Ref(a), s, color, stale)
  {
    match m[a].node
    case Str(bytes) =>
      hide Read, EmitString;
      ReadsString(s, bytes, rest, color, stale);
      if Read(s, color, stale).Done? {
        assert Differs(m, Ref(a), Read(s, color, stale).s.heap, Read(s, color, stale).v, []);
      }
    case Blk(tag, fs) =>
      hide *;
      EmitBlock(m, a, t);
      ShortenedBlock(m, a, EmitFields(m, fs, t + [a]), s, rest, color, stale);
  }

  lemma ShortenedBlock(m: Mem, a: int, e: Emitted, s: Reader, rest: seq<byte>, color: int, stale: Val)
    requires a in m && m[a].node.Blk? && !SizeFits(m[a].node) && e.Emitted?
    requires 0 <= m[a].node.tag < 256 && 0 <= m[a].color < 4
    requires s.input == EmitHeader(m[a].node.tag, |m[a].node.fields|, m[a].color) + e.out + rest
    ensures Misreads(m, Ref(a), s, color, stale)
  {
    hide Read, EmitHeader, ReadBlock;
    var tag, fs := m[a].node.tag, m[a].node.fields;
    Rest(EmitHeader(tag, |fs|, m[a].color), e.out, rest);
    ReadsHeader(s, tag, |fs|, m[a].color, e.out + rest, color, stale);
    var s1, size := s.(input := e.out + rest), ShortSize(tag, |fs|);
    if Read(s, color, stale).Done? {
      if size == 0 {
        NoFields(tag, s1, color);
      } else {
        BlockGrows(tag, size, s1, color);
      }
      assert Differs(m, Ref(a), Read(s, color, stale).s.heap, Read(s, color, stale).v, []);
    }
  }

  lemma NoFields(tag: int, s: Reader, color: int)
    ensures ReadBlock(tag, 0, s, color) == Done(Atom(tag), s)
  {
  }

  /** A field of the block has been misread, so the block has. */
  lemma BlockMisread(m: Mem, a: int, t: seq<int>, s: Reader, e: Emitted, rest: seq<byte>, color: int, stale: Val)
    requires MemOk(m) && a in m && CellOk(m, a) && a !in t && m[a].node.Blk? && SizeFits(m[a].node) && KeysBelow(s)
    requires AllOk(m, m[a].node.fields) && Emit(m, Ref(a), t).Emitted? && e == EmitFields(m, m[a].node.fields, t + [a])
    requires s.input == Emit(m, Ref(a), t).out + rest && e.Emitted?
    requires MisreadsFields(m, m[a].node.fields,
                            Reader(e.out + rest, s.ptr + 1 + |m[a].node.fields|, s.objs + [s.ptr], s.heap, s.word),
                              color,
                              Ref(s.ptr))
    ensures Misreads(m, Ref(a), s, color, stale)
  {
    hide *;
    EmitBlock(m, a, t);
    BlockReadAs(m, a, s, e, rest, color, stale);
    BlockDiffers(m, a, s, e.out + rest, color, stale);
  }

  /** Reading the block comes down to reading its fields. */
  lemma BlockReadAs(m: Mem, a: int, s: Reader, e: Emitted, rest: seq<byte>, color: int, stale: Val)
    requires a in m && m[a].node.Blk? && SizeFits(m[a].node) && e.Emitted? && 0 <= m[a].node.tag < 256
    requires 0 <= m[a].color < 4
    requires s.input == EmitHeader(m[a].node.tag, |m[a].node.fields|, m[a].color) + e.out + rest
    ensures Read(s, color, stale) == ReadBlock(m[a].node.tag, |m[a].node.fields|, s.(input := e.out + rest), color)
  {
    hide Read, ReadBlock, EmitHeader;
    var tag, fs := m[a].node.tag, m[a].node.fields;
    Rest(EmitHeader(tag, |fs|, m[a].color), e.out, rest);
    ReadsHeader(s, tag, |fs|, m[a].color, e.out + rest, color, stale);
    Small(|fs|, 0x40_0000);
  }

  lemma BlockDiffers(m: Mem, a: int, s: Reader, input: seq<byte>, color: int, stale: Val)
    requires a in m && m[a].node.Blk? && m[a].node.fields != [] && KeysBelow(s)
    requires Read(s, color, stale) == ReadBlock(m[a].node.tag, |m[a].node.fields|, s.(input := input), color)
    requires MisreadsFields(m, m[a].node.fields,
                            Reader(input, s.ptr + 1 + |m[a].node.fields|, s.objs + [s.ptr], s.heap, s.word), color,
                              Ref(s.ptr))
    ensures Misreads(m, Ref(a), s, color, stale)
  {
    hide *;
    OnlyIfDone(m, Ref(a), s, color, stale);
    if Read(s, color, stale).Done? {
      var fs := m[a].node.fields;
      var s1 := Reader(input, s.ptr + 1 + |fs|, s.objs + [s.ptr], s.heap, s.word);
      BlockIs(m[a].node.tag, |fs|, s.(input := input), color);
      FieldsDiffer(m, a, s, s1, color, stale);
    }
  }

  lemma FieldsDiffer(m: Mem, a: int, s: Reader, s1: Reader, color: int, stale: Val)
    requires a in m && m[a].node.Blk? && KeysBelow(s) && s1.heap == s.heap && s.ptr < s1.ptr
    requires Read(s, color, stale).Done? && ReadFields(|m[a].node.fields|, s1, color, Ref(s.ptr)).AllDone?
    requires MisreadsFields(m, m[a].node.fields, s1, color, Ref(s.ptr))
    requires var r := ReadFields(|m[a].node.fields|, s1, color, Ref(s.ptr));
             Read(s, color, stale).v == Ref(s.ptr) &&
               Read(s, color, stale).s.heap == r.s.heap[s.ptr := Cell(color, Blk(m[a].node.tag, r.vs))]
    ensures Misreads(m, Ref(a), s, color, stale)
  {
    hide *;
    var fs := m[a].node.fields;
    var r := ReadFields(|fs|, s1, color, Ref(s.ptr));
    FieldsGrow(|fs|, s1, color, Ref(s.ptr));
    var k, p := MisreadAt(m, fs, s1, color, Ref(s.ptr));
    NotInHeap(s, s1, r.s);
    FilledDiffers(m, a, r.s.heap, s.ptr, Cell(color, Blk(m[a].node.tag, r.vs)), k, p);
    MisreadsBy(m, Ref(a), s, color, stale, [k] + p);
  }

  lemma FilledDiffers(m: Mem, a: int, h: Mem, b: int, c: Cell, k: int, p: seq<int>)
    requires a in m && m[a].node.Blk? && b !in h && c.node.Blk? && 0 <= k < |m[a].node.fields| == |c.node.fields|
    requires Differs(m, m[a].node.fields[k], h, c.node.fields[k], p)
    ensures Differs(m, Ref(a), h[b := c], Ref(b), [k] + p)
  {
    hide Differs;
    AddedWithin(h, b, c);
    DiffersStill(m, m[a].node.fields[k], h, h[b := c], c.node.fields[k], p);
    DiffersUp(m, a, h[b := c], b, k, p);
  }

  lemma MisreadAt(m: Mem, fs: seq<Val>, s: Reader, color: int, last: Val) returns (k: int, p: seq<int>)
    requires MisreadsFields(m, fs, s, color, last) && ReadFields(|fs|, s, color, last).AllDone?
    ensures 0 <= k < |fs| == |ReadFields(|fs|, s, color, last).vs|
    ensures Differs(m, fs[k], ReadFields(|fs|, s, color, last).s.heap, ReadFields(|fs|, s, color, last).vs[k], p)
  {
    var r := ReadFields(|fs|, s, color, last);
    hide ReadFields, Read, Differs;
    k :| FieldDiffers(m, fs, r.s.heap, r.vs, k);
    p :| Differs(m, fs[k], r.s.heap, r.vs[k], p);
  }

  lemma MisreadsBy(m: Mem, v: Val, s: Reader, color: int, stale: Val, p: seq<int>)
    requires Read(s, color, stale).Done? && Differs(m, v, Read(s, color, stale).s.heap, Read(s, color, stale).v, p)
    ensures Misreads(m, v, s, color, stale)
  {
    hide Read, Differs;
  }

  lemma OnlyIfDone(m: Mem, v: Val, s: Reader, color: int, stale: Val)
    ensures Read(s, color, stale).Stuck? ==> Misreads(m, v, s, color, stale)
  {
    hide Read, Differs;
  }

  lemma AddedWithin(h: Mem, a: int, c: Cell)
    requires a !in h
    ensures Within(h, h[a := c])
  {
  }

  lemma NotInHeap(s: Reader, s1: Reader, s2: Reader)
    requires KeysBelow(s) && s1.heap == s.heap && s.ptr < s1.ptr && Grows(s1, s2)
    ensures s.ptr !in s2.heap
  {
  }

  lemma DiffersUp(m: Mem, a: int, h: Mem, b: int, k: int, p: seq<int>)
    requires a in m && m[a].node.Blk? && b in h && h[b].node.Blk? && 0 <= k < |m[a].node.fields| == |h[b].node.fields|
    requires Differs(m, m[a].node.fields[k], h, h[b].node.fields[k], p)
    ensures Differs(m, Ref(a), h, Ref(b), [k] + p)
  {
    assert ([k] + p)[1..] == p;
  }

  lemma {:induction false} MisreadFields(m: Mem, fs: seq<Val>, t: seq<int>, s: Reader, rest: seq<byte>, color: int,
                                         last: Val)
    requires MemOk(m) && AllOk(m, fs) && EmitFields(m, fs, t).Emitted? && NoDup(t) && KeysBelow(s)
    requires s.input == EmitFields(m, fs, t).out + rest && |s.objs| == |t| && ObjsOk(s)
    requires |EmitFields(m, fs, t).table| < 0x1_0000_0000
    requires !(AllFit(s.word, m, EmitFields(m, fs, t).table, |t|) && HasAll(s.word, fs))
    ensures MisreadsFields(m, fs, s, color, last)
    decreases |NotYet(m, t)|, |fs| + 1
  {
    hide *;
    SomeField(s.word, m, fs, t);
    FirstOk(m, fs);
    EmitFirst(m, fs, t);
    var e := Emit(m, fs[0], t);
    var e' := EmitFields(m, fs[1..], e.table);
    Rest(e.out, e'.out, rest);
    NoMore(m, t, e.table);
    EmitTable(m, fs[0], t);
    TableFacts(m, t, e.table);
    PrefixSize(e.table, e'.table);
    if AllFit(s.word, m, e.table, |t|) && Has(s.word, fs[0]) {
      RoundTrip(m, fs[0], t, s, e'.out + rest, color, StaleFor(|fs|, last));
      ReadBackFacts(m, fs[0], t, e, s, e'.out + rest, color, StaleFor(|fs|, last));
      ReadKeysBelow(s, color, StaleFor(|fs|, last));
      UnfitLater(s.word, m, t, e.table, e'.table);
      HasFirst(s.word, fs);
      MisreadFields(m, fs[1..], e.table, Read(s, color, StaleFor(|fs|, last)).s, rest, color, last);
      RestMisread(m, fs, s, color, last);
    } else {
      Misread(m, fs[0], t, s, e'.out + rest, color, StaleFor(|fs|, last));
      FirstMisread(m, fs, s, color, last);
    }
  }

  lemma PrefixSize(t: seq<int>, t': seq<int>)
    requires t <= t'
    ensures |t| <= |t'|
  {
  }

  lemma SomeField(word: wordsize, m: Mem, fs: seq<Val>, t: seq<int>)
    requires MemOk(m) && AllOk(m, fs) && EmitFields(m, fs, t).Emitted?
    requires !(AllFit(word, m, EmitFields(m, fs, t).table, |t|) && HasAll(word, fs))
    ensures fs != []
  {
  }

  lemma ReadKeysBelow(s: Reader, color: int, stale: Val)
    requires Read(s, color, stale).Done? && KeysBelow(s)
    ensures KeysBelow(Read(s, color, stale).s)
  {
    ReadGrows(s, color, stale);
    hide Read;
  }

  lemma UnfitLater(word: wordsize, m: Mem, t: seq<int>, t1: seq<int>, t2: seq<int>)
    requires t <= t1 <= t2 && AllFit(word, m, t1, |t|)
    ensures AllFit(word, m, t2, |t1|) ==> AllFit(word, m, t2, |t|)
  {
    hide Fits;
    if AllFit(word, m, t2, |t1|) {
      forall i {:trigger t2[i]} | |t| <= i < |t2|
        ensures t2[i] in m && Fits(word, m[t2[i]].node)
      {
        if i < |t1| {
          assert t2[i] == t1[i];
        }
      }
    }
  }

  lemma DiffersAt(m: Mem, fs: seq<Val>, h: Mem, vs: seq<Val>, k: int, p: seq<int>)
    requires 0 <= k < |fs| == |vs| && Differs(m, fs[k], h, vs[k], p)
    ensures FieldDiffers(m, fs, h, vs, k)
  {
    hide Differs;
  }

  lemma RestMisread(m: Mem, fs: seq<Val>, s: Reader, color: int, last: Val)
    requires fs != [] && Read(s, color, StaleFor(|fs|, last)).Done? &&
               MisreadsFields(m, fs[1..], Read(s, color, StaleFor(|fs|, last)).s, color, last)
    ensures MisreadsFields(m, fs, s, color, last)
  {
    hide Read, ReadFields, Differs;
    var s1 := Read(s, color, StaleFor(|fs|, last)).s;
    var r := ReadFields(|fs| - 1, s1, color, last);
    if ReadFields(|fs|, s, color, last).AllDone? {
      FieldsStart(|fs|, s, color, last);
      NextField(|fs|, s, color, last);
      var k :| FieldDiffers(m, fs[1..], r.s.heap, r.vs, k);
      var p :| Differs(m, fs[1..][k], r.s.heap, r.vs[k], p);
      DiffersAt(m, fs, r.s.heap, [Read(s, color, StaleFor(|fs|, last)).v] + r.vs, k + 1, p);
    }
  }

  lemma FieldsStart(size: nat, s: Reader, color: int, last: Val)
    requires size > 0 && ReadFields(size, s, color, last).AllDone?
    ensures Read(s, color, StaleFor(size, last)).Done?
    ensures ReadFields(size - 1, Read(s, color, StaleFor(size, last)).s, color, last).AllDone?
  {
    hide Read;
  }

  lemma FirstMisread(m: Mem, fs: seq<Val>, s: Reader, color: int, last: Val)
    requires fs != [] && Misreads(m, fs[0], s, color, StaleFor(|fs|, last)) && KeysBelow(s)
    ensures MisreadsFields(m, fs, s, color, last)
  {
    hide Read, ReadFields, Differs, Grows;
    if ReadFields(|fs|, s, color, last).AllDone? {
      FieldsStart(|fs|, s, color, last);
      var s1 := Read(s, color, StaleFor(|fs|, last)).s;
      var r := ReadFields(|fs| - 1, s1, color, last);
      NextField(|fs|, s, color, last);
      FieldsGrow(|fs| - 1, s1, color, last);
      ReadKeysBelow(s, color, StaleFor(|fs|, last));
      GrowsWithin(s1, r.s);
      var p :| Differs(m, fs[0], s1.heap, Read(s, color, StaleFor(|fs|, last)).v, p);
      DiffersStill(m, fs[0], s1.heap, r.s.heap, Read(s, color, StaleFor(|fs|, last)).v, p);
      DiffersAt(m, fs, r.s.heap, [Read(s, color, StaleFor(|fs|, last)).v] + r.vs, 0, p);
    }
  }

  // ----- Whole values -----

  const MAGIC := 0x8495A6BD

  datatype Written = AbstractValue | TooBig | Written(out: seq<byte>)

  function HeaderWords(objects: int, words32: int, words64: int): seq<byte> {
    Bytes(MAGIC, 4) + Bytes(objects, 4) + Bytes(words32, 4) + Bytes(words64, 4)
  }

  // ----- What cannot be written -----

  /** Following the fields with the given numbers, `v` leads to the object at `a`. */
  ghost predicate LeadsTo(m: Mem, v: Val, p: seq<int>, a: int)
    decreases |p|
  {
    && v.Ref? && v.a in m
    && if p == [] then v.a == a
       else
         && m[v.a].node.Blk? && 0 <= p[0] < |m[v.a].node.fields|
         && LeadsTo(m, m[v.a].node.fields[p[0]], p[1..], a)
  }

  /** A closure, an abstract or a final value. */
  ghost predicate RefusedAt(m: Mem, a: int) {
    a in m && m[a].node.Blk? && (m[a].node.tag == 249 || m[a].node.tag == 252 || m[a].node.tag == 255)
  }

  ghost predicate LeadsToRefused(m: Mem, v: Val) {
    exists p, a :: LeadsTo(m, v, p, a) && RefusedAt(m, a)
  }

  lemma FieldLeads(m: Mem, a: int, k: int)
    requires a in m && m[a].node.Blk? && 0 <= k < |m[a].node.fields| && LeadsToRefused(m, m[a].node.fields[k])
    ensures LeadsToRefused(m, Ref(a))
  {
    var p, b :| LeadsTo(m, m[a].node.fields[k], p, b) && RefusedAt(m, b);
    assert ([k] + p)[1..] == p;
    assert LeadsTo(m, Ref(a), [k] + p, b);
  }

  lemma {:induction false} RejectedLeads(m: Mem, v: Val, t: seq<int>)
    requires MemOk(m) && ValOk(m, v) && Emit(m, v, t).Rejected?
    ensures LeadsToRefused(m, v)
    decreases |NotYet(m, t)|, 0
  {
    var a := v.a;
    assert CellOk(m, a);
    if RefusedAt(m, a) {
      assert LeadsTo(m, v, [], a);
    } else {
      OneLess(m, t, a);
      var k := RejectedField(m, m[a].node.fields, t + [a]);
      FieldLeads(m, a, k);
    }
  }

  lemma {:induction false} RejectedField(m: Mem, fs: seq<Val>, t: seq<int>) returns (k: int)
    requires MemOk(m) && AllOk(m, fs) && EmitFields(m, fs, t).Rejected?
    ensures 0 <= k < |fs| && LeadsToRefused(m, fs[k])
    decreases |NotYet(m, t)|, |fs| + 1
  {
    hide *;
    RejectedFirst(m, fs, t);
    if Emit(m, fs[0], t).Rejected? {
      RejectedLeads(m, fs[0], t);
      k := 0;
    } else {
      NoMore(m, t, Emit(m, fs[0], t).table);
      k := RejectedField(m, fs[1..], Emit(m, fs[0], t).table);
      k := k + 1;
    }
  }

  lemma RejectedFirst(m: Mem, fs: seq<Val>, t: seq<int>)
    requires MemOk(m) && AllOk(m, fs) && EmitFields(m, fs, t).Rejected?
    ensures fs != [] && ValOk(m, fs[0]) && AllOk(m, fs[1..])
    ensures var e := Emit(m, fs[0], t); e.Emitted? ==> t <= e.table && EmitFields(m, fs[1..], e.table).Rejected?
  {
    hide Emit;
  }

  /** No object of the table from position `from` on is refused. */
  ghost predicate NoneRefused(m: Mem, t: seq<int>, from: int) {
    forall i {:trigger t[i]} :: 0 <= from <= i < |t| ==> !RefusedAt(m, t[i])
  }

  lemma NoneRefusedOn(m: Mem, t: seq<int>, t': seq<int>, from: int)
    requires t <= t' && 0 <= from && NoneRefused(m, t, from) && NoneRefused(m, t', |t|)
    ensures NoneRefused(m, t', from)
  {
    hide RefusedAt;
    forall i {:trigger t'[i]} | from <= i < |t'|
      ensures !RefusedAt(m, t'[i])
    {
      if i < |t| {
        assert t'[i] == t[i];
      }
    }
  }

  lemma {:induction false} EmittedNoneRefused(m: Mem, v: Val, t: seq<int>)
    requires MemOk(m) && ValOk(m, v) && Emit(m, v, t).Emitted?
    ensures NoneRefused(m, Emit(m, v, t).table, |t|)
    decreases |NotYet(m, t)|, 0
  {
    if v.Ref? && v.a !in t {
      var a := v.a;
      assert CellOk(m, a);
      var t1 := t + [a];
      assert t1[|t|] == a && !RefusedAt(m, a);
      if m[a].node.Blk? {
        OneLess(m, t, a);
        FieldsNoneRefused(m, m[a].node.fields, t1);
        EmitBlock(m, a, t);
        hide Emit, EmitFields, MemOk, RefusedAt;
        NoneRefusedOn(m, t1, EmitFields(m, m[a].node.fields, t1).table, |t|);
      }
    }
  }

  lemma {:induction false} FieldsNoneRefused(m: Mem, fs: seq<Val>, t: seq<int>)
    requires MemOk(m) && AllOk(m, fs) && EmitFields(m, fs, t).Emitted?
    ensures NoneRefused(m, EmitFields(m, fs, t).table, |t|)
    decreases |NotYet(m, t)|, |fs| + 1
  {
    if fs != [] {
      EmitFirst(m, fs, t);
      EmittedNoneRefused(m, fs[0], t);
      var t1 := Emit(m, fs[0], t).table;
      NoMore(m, t, t1);
      FieldsNoneRefused(m, fs[1..], t1);
      hide *;
      NoneRefusedOn(m, t1, EmitFields(m, fs[1..], t1).table, |t|);
    }
  }

  lemma {:induction false} LeadsIntoTable(m: Mem, t: seq<int>, v: Val, p: seq<int>, a: int)
    requires Covered(m, t, 0) && RefIn(t, v) && LeadsTo(m, v, p, a)
    ensures a in t
    decreases |p|
  {
    if p != [] {
      var i :| 0 <= i < |t| && t[i] == v.a;
      LeadsIntoTable(m, t, m[v.a].node.fields[p[0]], p[1..], a);
    }
  }

  lemma InTableNotRefused(m: Mem, t: seq<int>, a: int)
    requires NoneRefused(m, t, 0) && a in t
    ensures !RefusedAt(m, a)
  {
    hide RefusedAt;
    var i :| 0 <= i < |t| && t[i] == a;
  }

  /** Nothing is written if and only if a closure, an abstract or a final value can be reached. */
  lemma RefusedExactly(m: Mem, v: Val)
    requires MemOk(m) && ValOk(m, v)
    ensures Emit(m, v, []).Rejected? <==> LeadsToRefused(m, v)
  {
    hide Emit, RefusedAt, MemOk;
    if Emit(m, v, []).Rejected? {
      RejectedLeads(m, v, []);
    } else {
      TableIn(m, v);
      EmittedNoneRefused(m, v, []);
      var t := Emit(m, v, []).table;
      forall p, a | LeadsTo(m, v, p, a)
        ensures !RefusedAt(m, a)
      {
        LeadsIntoTable(m, t, v, p, a);
        InTableNotRefused(m, t, a);
      }
    }
  }

  /** What `extern_compact_val` writes, unless it raises an exception. */
  ghost function Extern(m: Mem, v: Val): Written
    requires MemOk(m) && ValOk(m, v)
  {
    var e := Emit(m, v, []);
    if e.Rejected? then AbstractValue
    else
      TableIn(m, v);
      var words32, words64 := WordsFrom(4, m, e.table, 0), WordsFrom(8, m, e.table, 0);
      if words32 >= 0x1_0000_0000 || words64 >= 0x1_0000_0000 then TooBig
      else Written(HeaderWords(|e.table|, words32, words64) + e.out)
  }

  lemma TableIn(m: Mem, v: Val)
    requires MemOk(m) && ValOk(m, v) && Emit(m, v, []).Emitted?
    ensures var t := Emit(m, v, []).table;
            NoDup(t) && Covered(m, t, 0) && RefIn(t, v) && forall i :: 0 <= i < |t| ==> t[i] in m
  {
    hide Emit;
    EmitTable(m, v, []);
  }

  /** The numbers of objects and of words, on both kinds of machines, that the header announces. */
  function Announced(input: seq<byte>): (int, int, int)
    requires |input| >= 16
  {
    (Unsigned(input[4..8]), Unsigned(input[8..12]), Unsigned(input[12..16]))
  }

  function AnnouncedWords(input: seq<byte>, word: wordsize): int
    requires |input| >= 16
  {
    if word == 8 then Announced(input).2 else Announced(input).1
  }

  /** The most fields that a block can have. */
  function MaxWosize(word: wordsize): int {
    if word == 8 then 0x3F_FFFF_FFFF_FFFF else 0x3F_FFFF
  }

  /** The block that is set aside is not too big. */
  predicate RoomFor(input: seq<byte>, word: wordsize)
    requires |input| >= 16
  {
    AnnouncedWords(input, word) - 1 <= MaxWosize(word)
  }

  /** What `intern_compact_val` makes of any bytes; its objects go from `ptr` on. */
  ghost function Intern(input: seq<byte>, ptr: int, color: int, word: wordsize): Result {
    if |input| < 16 || Unsigned(input[..4]) != MAGIC || !RoomFor(input, word) then Stuck
    else Read(Reader(input[16..], ptr, [], map[], word), color, Atom(0))
  }

  lemma Slices(a: seq<byte>, b: seq<byte>, c: seq<byte>, d: seq<byte>, out: seq<byte>)
    requires |a| == |b| == |c| == |d| == 4
    ensures var input := a + b + c + d + out;
            |input| >= 16 && input[..4] == a && input[4..8] == b && input[8..12] == c && input[12..16] == d &&
              input[16..] == out
  {
  }

  lemma HeaderNumber(n: int)
    requires 0 <= n < 0x1_0000_0000
    ensures Unsigned(Bytes(n, 4)) == n && |Bytes(n, 4)| == 4
  {
    PowValues();
    UnsignedBytes(n, 4);
    hide Bytes, Unsigned, Pow256;
  }

  lemma HeaderRead(objects: nat, words32: nat, words64: nat, out: seq<byte>)
    requires objects < 0x1_0000_0000 && words32 < 0x1_0000_0000 && words64 < 0x1_0000_0000
    ensures var input := HeaderWords(objects, words32, words64) + out;
            |input| >= 16 && Unsigned(input[..4]) == MAGIC && input[16..] == out &&
              Announced(input) == (objects, words32, words64)
  {
    hide Bytes, Unsigned;
    HeaderNumber(MAGIC);
    HeaderNumber(objects);
    HeaderNumber(words32);
    HeaderNumber(words64);
    Slices(Bytes(MAGIC, 4), Bytes(objects, 4), Bytes(words32, 4), Bytes(words64, 4), out);
  }

  /** Each object takes two words at least. */
  lemma {:induction false} ObjectsBelowWords(m: Mem, t: seq<int>, from: nat)
    requires from <= |t| && forall i :: from <= i < |t| ==> t[i] in m
    requires forall i :: from <= i < |t| && m[t[i]].node.Blk? ==> m[t[i]].node.fields != []
    ensures 2 * (|t| - from) <= WordsFrom(8, m, t, from) && 0 <= WordsFrom(4, m, t, from)
    decreases |t| - from
  {
    if from < |t| {
      ObjectsBelowWords(m, t, from + 1);
    }
  }

  lemma BlocksHaveFields(m: Mem, t: seq<int>)
    requires MemOk(m) && forall i :: 0 <= i < |t| ==> t[i] in m
    ensures forall i :: 0 <= i < |t| && m[t[i]].node.Blk? ==> m[t[i]].node.fields != []
  {
    forall i | 0 <= i < |t| && m[t[i]].node.Blk?
      ensures m[t[i]].node.fields != []
    {
      assert CellOk(m, t[i]);
    }
  }

  /** The condition under which everything is written faithfully for machines with such words: a
      block has less than 2^22 words, a string less than 2^32 bytes, and the machine has all the
      integers. */
  ghost predicate EverythingFits(word: wordsize, m: Mem, v: Val)
    requires MemOk(m) && ValOk(m, v)
  {
    Emit(m, v, []).Emitted? && AllFit(word, m, Emit(m, v, []).table, 0) && Has(word, v)
  }

  /** On either kind of machine, reading what has been written gives the same graph if and only if
      everything fits and the reader does not find it too big; then it makes as many objects and
      uses as many words as the header announces for that machine. The size check of the writer
      alone does not make sure of it. */
  lemma ReadBack(m: Mem, v: Val, ptr: int, color: int, word: wordsize)
    requires MemOk(m) && ValOk(m, v) && Extern(m, v).Written?
    ensures |Extern(m, v).out| >= 16
    ensures var r := Intern(Extern(m, v).out, ptr, color, word);
            RoomFor(Extern(m, v).out, word) && EverythingFits(word, m, v) <==>
              r.Done? && Isomorphic(m, v, r.s.heap, r.v)
    ensures var r := Intern(Extern(m, v).out, ptr, color, word);
            RoomFor(Extern(m, v).out, word) && EverythingFits(word, m, v) ==>
              r.s.input == [] && Announced(Extern(m, v).out).0 == |r.s.objs| &&
              AnnouncedWords(Extern(m, v).out, word) == r.s.ptr - ptr
    ensures word == 8 ==> RoomFor(Extern(m, v).out, word)
  {
    hide Emit, Read, Bytes, Unsigned, HeaderWords, Announced, IsCopy, MemOk, WordsFrom, Covered, NoDup, Has, AllFit;
    var e := Emit(m, v, []);
    TableIn(m, v);
    BlocksHaveFields(m, e.table);
    ObjectsBelowWords(m, e.table, 0);
    HeaderRead(|e.table|, WordsFrom(4, m, e.table, 0), WordsFrom(8, m, e.table, 0), e.out);
    if RoomFor(Extern(m, v).out, word) {
      var s := Reader(e.out, ptr, [], map[], word);
      assert e.out == e.out + [];
      EmptyTable();
      if EverythingFits(word, m, v) {
        RoundTrip(m, v, [], s, [], color, Atom(0));
        CopiedIsCopy(m, v, e.table, Read(s, color, Atom(0)).s, color) by {
          ReadBackFacts(m, v, [], e, s, [], color, Atom(0));
        }
        assert IsCopy(m, v, Read(s, color, Atom(0)).s.heap, Read(s, color, Atom(0)).v,
                      Placement(e.table, Read(s, color, Atom(0)).s.objs));
      } else {
        Misread(m, v, [], s, [], color, Atom(0));
        var r := Read(s, color, Atom(0));
        if f: map<int, int> :| r.Done? && IsCopy(m, v, r.s.heap, r.v, f) {
          NotACopy(m, v, s, color, Atom(0), f);
        }
      }
    }
  }

  /** On a machine with words of four bytes, what is not too big has no sizes that do not fit, so
      only integers are lost. */
  lemma OnlyIntegersLost(m: Mem, v: Val)
    requires MemOk(m) && ValOk(m, v) && Extern(m, v).Written?
    ensures var t := Emit(m, v, []).table;
            |Extern(m, v).out| >= 16 && (RoomFor(Extern(m, v).out, 4) ==>
              (EverythingFits(4, m, v) <==>
                Has(4, v) && forall i {:trigger t[i]} :: 0 <= i < |t| && t[i] in m && m[t[i]].node.Blk? ==>
                               HasAll(4, m[t[i]].node.fields)))
  {
    hide Emit, Bytes, Unsigned, HeaderWords, Announced, MemOk, Covered, NoDup, Has, HasAll, WordsFrom;
    var t := Emit(m, v, []).table;
    TableIn(m, v);
    BlocksHaveFields(m, t);
    ObjectsBelowWords(m, t, 0);
    HeaderRead(|t|, WordsFrom(4, m, t, 0), WordsFrom(8, m, t, 0), Emit(m, v, []).out);
    forall i | 0 <= i < |t|
      ensures Words(4, m[t[i]].node) <= WordsFrom(4, m, t, 0)
    {
      PartOfWords(m, t, 0, i);
    }
  }

  lemma {:induction false} PartOfWords(m: Mem, t: seq<int>, from: nat, i: nat)
    requires from <= i < |t| && forall i :: from <= i < |t| ==> t[i] in m
    ensures Words(4, m[t[i]].node) <= WordsFrom(4, m, t, from)
    decreases |t| - from
  {
    SomeWords(m, t, from);
    if from < i {
      PartOfWords(m, t, from + 1, i);
    } else {
      SomeWords(m, t, from + 1);
    }
  }

  lemma {:induction false} SomeWords(m: Mem, t: seq<int>, from: nat)
    requires forall i :: from <= i < |t| ==> t[i] in m
    ensures 0 <= WordsFrom(4, m, t, from)
    decreases |t| - from
  {
    if from < |t| {
      SomeWords(m, t, from + 1);
    }
  }

  lemma EmptyTable()
    ensures NoDup([])
  {
  }

  lemma NotACopy(m: Mem, v: Val, s: Reader, color: int, stale: Val, f: map<int, int>)
    requires Misreads(m, v, s, color, stale) && Read(s, color, stale).Done?
    ensures !IsCopy(m, v, Read(s, color, stale).s.heap, Read(s, color, stale).v, f)
  {
    hide Read, Differs;
    var h, w := Read(s, color, stale).s.heap, Read(s, color, stale).v;
    var p :| Differs(m, v, h, w, p);
    if IsCopy(m, v, h, w, f) {
      CopyRoot(m, v, h, w, f);
      CopyDoesNotDiffer(m, v, h, w, f, v, w, p);
    }
  }

  lemma CopyRoot(m: Mem, v: Val, h: Mem, w: Val, f: map<int, int>)
    requires IsCopy(m, v, h, w, f)
    ensures (v.Ref? ==> v.a in f) && w == Mapped(f, v)
  {
  }

  /** The bytes for a block with tag 1 that holds 1000 and itself: numbers have their most significant
      bytes first, and the header has the counts of objects and of words for both kinds of machines. */
  lemma SampleBytes()
    ensures var m := map[8 := Cell(0, Blk(1, [Int(1000), Ref(8)]))];
            MemOk(m) && Extern(m, Ref(8)) == Written([0x84, 0x95, 0xA6, 0xBD, 0, 0, 0, 1, 0, 0, 0, 3, 0, 0, 0, 3,
                                                      0xA1, 0x01, 3, 232, 0x04, 1])
  {
    var m := map[8 := Cell(0, Blk(1, [Int(1000), Ref(8)]))];
    assert MemOk(m) by {
      assert CellOk(m, 8);
    }
    hide Emit, HeaderWords, MemOk, WordsFrom, Bytes;
    SampleBlock(m, [Int(1000), Ref(8)]);
    SampleWords(m, [8]);
    SampleHeader();
  }

  lemma SampleWords(m: Mem, t: seq<int>)
    requires t == [8] && 8 in m && m[8].node.Blk? && |m[8].node.fields| == 2
    ensures WordsFrom(4, m, t, 0) == WordsFrom(8, m, t, 0) == 3
  {
    assert t[0] == 8;
    assert WordsFrom(4, m, t, 1) == WordsFrom(8, m, t, 1) == 0;
  }

  lemma SampleBlock(m: Mem, fs: seq<Val>)
    requires MemOk(m) && 8 in m && m[8] == Cell(0, Blk(1, fs)) && fs == [Int(1000), Ref(8)]
    ensures Emit(m, Ref(8), []) == Emitted([0xA1, 0x01, 3, 232, 0x04, 1], [8])
  {
    assert CellOk(m, 8);
    assert [] + [8] == [8];
    SampleFields(m, fs);
    hide EmitFields;
    assert [0xA1] + [0x01, 3, 232, 0x04, 1] == [0xA1, 0x01, 3, 232, 0x04, 1];
  }

  lemma SampleFields(m: Mem, fs: seq<Val>)
    requires MemOk(m) && fs == [Int(1000), Ref(8)] && AllOk(m, fs)
    ensures EmitFields(m, fs, [8]) == Emitted([0x01, 3, 232, 0x04, 1], [8])
  {
    SampleNumbers();
    hide EmitInt, EmitShared, Bytes;
    var t := [8];
    assert ValOk(m, fs[0]) && ValOk(m, fs[1]);
    assert fs[1..] == [Ref(8)] && fs[1..][1..] == [];
    assert EmitFields(m, [], t) == Emitted([], t);
    assert Emit(m, Ref(8), t) == Emitted([0x04, 1], t);
    assert EmitFields(m, [Ref(8)], t) == Emitted([0x04, 1], t);
    assert Emit(m, Int(1000), t) == Emitted([0x01, 3, 232], t);
    assert [0x01, 3, 232] + [0x04, 1] == [0x01, 3, 232, 0x04, 1];
  }

  lemma SampleNumbers()
    ensures EmitInt(1000) == [0x01, 3, 232] && EmitShared(1) == [0x04, 1]
  {
    assert Bytes(3, 1) == [3] && Bytes(1, 1) == [1];
    assert Bytes(1000, 2) == [3, 232];
  }

  lemma SampleHeader()
    ensures HeaderWords(1, 3, 3) == [0x84, 0x95, 0xA6, 0xBD, 0, 0, 0, 1, 0, 0, 0, 3, 0, 0, 0, 3]
  {
    FourBytes(MAGIC);
    FourBytes(1);
    FourBytes(3);
    hide Bytes;
  }

  lemma FourBytes(n: int)
    ensures Bytes(n, 4) == [n / 256 / 256 / 256 % 256, n / 256 / 256 % 256, n / 256 % 256, n % 256]
  {
    assert Bytes(n / 256 / 256 / 256, 1) == [n / 256 / 256 / 256 % 256];
    assert Bytes(n / 256 / 256, 2) == [n / 256 / 256 / 256 % 256, n / 256 / 256 % 256];
    assert Bytes(n / 256, 3) == [n / 256 / 256 / 256 % 256, n / 256 / 256 % 256, n / 256 % 256];
  }

  /** A block of 2^22 + 1 integers passes the size check of the writer, and is read back with
      one field. */
  lemma TooManyFields()
    ensures var m := map[8 := Cell(0, Blk(0, seq(0x40_0001, _ => Int(0))))];
            MemOk(m) && Extern(m, Ref(8)).Written? && !EverythingFits(8, m, Ref(8))
  {
    var fs := seq(0x40_0001, _ => Int(0));
    var m := map[8 := Cell(0, Blk(0, fs))];
    assert MemOk(m) by {
      assert CellOk(m, 8);
    }
    OnlyIntegers(m, fs, [8]);
    assert Emit(m, Ref(8), []).table == [8] by {
      hide EmitFields, EmitHeader;
      EmitBlockTable(m, fs);
    }
    hide Emit;
    var t := Emit(m, Ref(8), []).table;
    assert t[0] == 8 && !Fits(8, m[t[0]].node);
    assert WordsFrom(8, m, t, 0) == Words(8, m[8].node) + WordsFrom(8, m, t, 1);
    assert WordsFrom(4, m, t, 0) == Words(4, m[8].node) + WordsFrom(4, m, t, 1);
  }

  lemma EmitBlockTable(m: Mem, fs: seq<Val>)
    requires MemOk(m) && m == map[8 := Cell(0, Blk(0, fs))] && AllOk(m, fs) && EmitFields(m, fs, [8]).Emitted?
    requires EmitFields(m, fs, [8]).table == [8]
    ensures Emit(m, Ref(8), []).Emitted? && Emit(m, Ref(8), []).table == [8]
  {
    hide EmitFields;
    assert [] + [8] == [8];
  }

  lemma {:induction false} OnlyIntegers(m: Mem, fs: seq<Val>, t: seq<int>)
    requires MemOk(m) && AllOk(m, fs) && forall k :: 0 <= k < |fs| ==> fs[k].Int?
    ensures EmitFields(m, fs, t).Emitted? && EmitFields(m, fs, t).table == t
    decreases |fs|
  {
    if fs != [] {
      OnlyIntegers(m, fs[1..], t);
    }
  }
}
