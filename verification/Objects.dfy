/** New objects, young (Alloc_small) or shared (alloc_shr and initialize), and changes of the
    roots (src/runtime/memory.h, src/runtime/memory.c). */
module Objects {
  import opened Heaps
  import opened Tricolor
  import opened Marking
  import opened Collectors
  import opened Allocation
  import opened Minor
  import opened Barrier

  const MAX_YOUNG_WOSIZE := 256

  // ----- Roots -----

  /** A root gets a value that is known. */
  method SetRoot(c: Collector, k: int, v: Value, ghost m: Value)
    requires c.Valid() && 0 <= k < |c.roots| && Known(c.w.loc, m) && v == Conc(c.w.loc, m)
    modifies c`roots, c`mroots
    ensures c.Valid() && |old(c.mroots)| == |old(c.roots)| && c.roots == old(c.roots)[k := v]
    ensures c.mroots == old(c.mroots)[k := m]
  {
    hide PhaseOk, Tiled, YoungOk, WorldOk, Kept, HeapHolds, RefOk;
    c.roots := c.roots[k := v];
    c.mroots := c.mroots[k := m];
  }

  method PushRoot(c: Collector)
    requires c.Valid()
    modifies c`roots, c`mroots
    ensures c.Valid() && c.mroots == old(c.mroots) + [Imm(0)]
  {
    hide PhaseOk, Tiled, YoungOk, WorldOk, Kept, HeapHolds, RefOk;
    c.roots := c.roots + [Imm(0)];
    c.mroots := c.mroots + [Imm(0)];
  }

  method PopRoot(c: Collector)
    requires c.Valid() && |c.roots| > 0
    modifies c`roots, c`mroots
    ensures c.Valid() && |old(c.mroots)| == |old(c.roots)| && c.mroots == old(c.mroots)[..|old(c.mroots)| - 1]
  {
    hide PhaseOk, Tiled, YoungOk, WorldOk, Kept, HeapHolds, RefOk;
    c.roots := c.roots[..|c.roots| - 1];
    c.mroots := c.mroots[..|c.mroots| - 1];
  }

  // ----- Young objects -----

  /** The values as they are stored. */
  ghost predicate Stores(loc: map<int, int>, vs: seq<Value>, ms: seq<Value>) {
    |vs| == |ms| && forall k :: 0 <= k < |vs| ==> Known(loc, ms[k]) && vs[k] == Conc(loc, ms[k])
  }

  lemma AddedRoots(roots: seq<Value>, mroots: seq<Value>, w: World, i: int, o: Obj, a: int)
    requires RootsOk(roots, mroots, w.loc) && i !in w.loc
    ensures RootsOk(roots, mroots, Add(w, i, o, a).loc)
  {
  }

  /** What was stored stays so when an object is added at another address. */
  lemma AddedElsewhere(h: Heap, w: World, i: int, o: Obj, a: int)
    requires WorldOk(w) && HeapHolds(h, w, {}) && i !in w.mem && a !in w.at && a !in h
    ensures HeapHolds(h, Add(w, i, o, a), {})
  {
    var w' := Add(w, i, o, a);
    forall b | b in h && b in w'.at
      ensures HoldsAt(h, w', {}, b)
    {
      assert HoldsAt(h, w, {}, b) && Closed(w, w.at[b]);
    }
  }

  /** A block with the object's values holds it. */
  lemma AddedHere(h: Heap, w: World, i: int, o: Obj, a: int, vs: seq<Value>, color: Color)
    requires WorldOk(w) && HeapHolds(h, w, {}) && i !in w.mem && a !in w.at && Stores(w.loc, vs, o.fields)
    requires !color.Blue?
    ensures HeapHolds(h[a := Block(o.tag, color, vs)], Add(w, i, o, a), {})
  {
    var h', w' := h[a := Block(o.tag, color, vs)], Add(w, i, o, a);
    forall b | b in h' && b in w'.at
      ensures HoldsAt(h', w', {}, b)
    {
      if b != a {
        assert HoldsAt(h, w, {}, b) && Closed(w, w.at[b]);
      } else {
        assert i !in w.loc;
      }
    }
  }

  lemma YoungAdded(h: Heap, chunks: seq<Chunk>, young: Heap, lo: int, ptr: int, hi: int, w: World,
                   roots: seq<Value>, mroots: seq<Value>, globals: int, globalData: int, refTable: seq<Slot>,
                   i: int, o: Obj, vs: seq<Value>)
    requires MutOk(h, chunks, young, lo, ptr, hi, w, roots, mroots, globals, globalData, refTable)
    requires i !in w.mem && ObjOk(o) && Stores(w.loc, vs, o.fields) && ptr + 1 + |vs| <= hi
    ensures ptr !in h && ptr !in w.at && i !in w.loc
    ensures MutOk(h, chunks, young[ptr := Block(o.tag, Black, vs)], lo, ptr + 1 + |vs|, hi, Add(w, i, o, ptr),
                  roots, mroots, globals, globalData, refTable)
  {
    var y', w' := young[ptr := Block(o.tag, Black, vs)], Add(w, i, o, ptr);
    NotThere(h, chunks, young, lo, ptr, hi, w);
    hide Tiled, HeapHolds, RefOk;
    AddWorld(w, i, o, ptr);
    AddedElsewhere(h, w, i, o, ptr);
    AddedHere(young, w, i, o, ptr, vs, Black);
    AddedRoots(roots, mroots, w, i, o, ptr);
    AddedRefs(h, w, refTable, lo, hi, i, o, ptr);
    forall a | a in w'.at
      ensures Live(h, a) || (a in y' && a !in h)
    {
      assert a != ptr ==> a in w.at;
    }
  }

  lemma NotThere(h: Heap, chunks: seq<Chunk>, young: Heap, lo: int, ptr: int, hi: int, w: World)
    requires Tiled(h, chunks) && YoungOk(young, lo, ptr, hi, chunks) && Kept(h, young, w) && ptr < hi
    ensures ptr !in h && ptr !in w.at && ptr !in young
  {
    YoungApart(h, chunks, young, lo, ptr, hi);
    assert ptr !in young;
  }

  lemma AddedRefs(h: Heap, w: World, refTable: seq<Slot>, lo: int, hi: int, i: int, o: Obj, a: int)
    requires RefOk(h, w, refTable, lo, hi, {}) && a !in h
    ensures RefOk(h, Add(w, i, o, a), refTable, lo, hi, {})
  {
  }

  /** A new young object does not matter to the collector. */
  lemma PhaseYoungAdded(phase: Phase, h: Heap, chunks: seq<Chunk>, w: World, s: Snapshot,
                        gray: seq<int>, size: int, pure: bool, hp: Position, chunk: int, limit: int, sweepHp: int,
                        i: int, o: Obj, a: int)
    requires PhaseOk(phase, h, chunks, w, s, gray, size, pure, hp, chunk, limit, sweepHp)
    requires WorldOk(w) && i !in w.mem && a !in w.at && a !in h
    ensures PhaseOk(phase, h, chunks, Add(w, i, o, a), s, gray, size, pure, hp, chunk, limit, sweepHp)
  {
    hide GrayInv, MarkInv, InPlace;
    var w' := Add(w, i, o, a);
    assert forall b :: b in h ==> (b in w'.at <==> b in w.at) && (b in w.at ==> w'.at[b] == w.at[b]);
    if phase == MarkPhase {
      AddMark(h, w, s, i, o, a);
      forall b | NotWhite(h, b)
        ensures b in w'.at
      {
      }
    }
  }

  /** Places a block at the young pointer; there must be room. */
  method BumpYoung(c: Collector, tag: int, vs: seq<Value>, ghost i: int, ghost ms: seq<Value>) returns (a: int)
    requires c.Valid() && i !in c.w.mem && ObjOk(Obj(tag, ms)) && Stores(c.w.loc, vs, ms)
    requires c.youngPtr + 1 + |vs| <= c.youngEnd
    modifies c`young, c`youngPtr, c`w
    ensures c.Valid() && c.w == Add(old(c.w), i, Obj(tag, ms), a) && old(c.youngPtr) == a && c.youngPtr == a + 1 + |vs|
  {
    hide *;
    c.ValidParts();
    c.Facts();
    c.MutFields();
    PhaseIs(c);
    a := c.youngPtr;
    YoungAdded(c.heap, c.chunks, c.young, c.youngStart, c.youngPtr, c.youngEnd, c.w, c.roots, c.mroots, c.globals,
               c.globalData, c.refTable, i, Obj(tag, ms), vs);
    PhaseYoungAdded(c.phase, c.heap, c.chunks, c.w, c.snap, c.gray, c.graySize, c.pure, c.markHp, c.chunk, c.limit,
                    c.sweepHp, i, Obj(tag, ms), a);
    c.young := c.young[a := Block(tag, Black, vs)];
    c.youngPtr := c.youngPtr + 1 + |vs|;
    c.w := Add(c.w, i, Obj(tag, ms), a);
    ValidFrom(c);
  }

  /** The values of some roots. */
  function Pick(roots: seq<Value>, srcs: seq<int>): (vs: seq<Value>)
    requires forall k :: 0 <= k < |srcs| ==> 0 <= srcs[k] < |roots|
  {
    seq(|srcs|, k requires 0 <= k < |srcs| => roots[srcs[k]])
  }

  lemma PickStores(c: Collector, srcs: seq<int>)
    requires c.Valid() && forall k :: 0 <= k < |srcs| ==> 0 <= srcs[k] < |c.roots|
    ensures |c.mroots| == |c.roots| && Stores(c.w.loc, Pick(c.roots, srcs), Pick(c.mroots, srcs))
    ensures |Pick(c.roots, srcs)| == |srcs|
  {
    hide PhaseOk, Tiled, YoungOk, WorldOk, Kept, HeapHolds, RefOk;
  }

  /** A new object in the young generation, which is emptied first when it is full; the roots
      are read after that.  Its address goes to the root `dst`. */
  method AllocSmall(c: Collector, dst: int, tag: int, srcs: seq<int>, work: int, increment: int, statHeapSize: int,
                    ghost i: int)
    returns (ok: bool)
    requires c.Valid() && i !in c.w.mem && 1 <= |srcs| <= MAX_YOUNG_WOSIZE < c.youngEnd - c.youngStart
    requires 0 <= dst < |c.roots|
    requires forall k :: 0 <= k < |srcs| ==> 0 <= srcs[k] < |c.roots|
    requires |c.mroots| == |c.roots| && ObjOk(Obj(tag, Pick(c.mroots, srcs)))
    modifies c`heap, c`chunks, c`young, c`youngPtr, c`refTable, c`roots, c`mroots, c`w, c`gray, c`graySize, c`pure,
             c`phase, c`markHp, c`snap, c`chunk, c`limit, c`sweepHp
    ensures ok ==> c.Valid() && c.w.mem == old(c.w).mem[i := Obj(tag, Pick(old(c.mroots), srcs))]
    ensures ok ==> c.mroots == old(c.mroots)[dst := Ptr(i)]
    ensures !ok ==> NoRoom(c.heap, old(c.w).mem)
  {
    hide *;
    SameLengths(c);
    ghost var ms := Pick(c.mroots, srcs);
    ghost var w := c.w;
    ok := true;
    if c.youngPtr + 1 + |srcs| > c.youngEnd {
      ghost var between, kept;
      ok, between, kept := MinorCollection(c, work, increment, statHeapSize);
      if !ok {
        return;
      }
      PromotedMemory(old(c.heap), w, c.mroots, c.heap, c.w);
      SameLengths(c);
    }
    PickStores(c, srcs);
    ghost var v := c.w;
    var a := BumpYoung(c, tag, Pick(c.roots, srcs), i, ms);
    AddedIs(v, i, Obj(tag, ms), a);
    SetRoot(c, dst, Ptr(a), Ptr(i));
  }

  lemma SameLengths(c: Collector)
    requires c.Valid()
    ensures |c.roots| == |c.mroots|
  {
    hide PhaseOk, Tiled, YoungOk, WorldOk, Kept, HeapHolds, RefOk;
  }

  lemma PromotedMemory(h: Heap, w: World, mroots: seq<Value>, h': Heap, w': World)
    requires Promoted(h, w, mroots, h', w')
    ensures w'.mem == w.mem
  {
  }

  lemma AddedIs(w: World, i: int, o: Obj, a: int)
    ensures var w' := Add(w, i, o, a);
            w'.mem == w.mem[i := o] && Known(w'.loc, Ptr(i)) && Conc(w'.loc, Ptr(i)) == Ptr(a)
  {
  }

  // ----- Shared objects -----

  /** The fields of a block that hold young values, among its first `n`. */
  function YoungEntries(a: int, vs: seq<Value>, n: nat, lo: int, hi: int): (t: seq<Slot>)
    requires n <= |vs|
  {
    if n == 0 then []
    else YoungEntries(a, vs, n - 1, lo, hi) + if vs[n - 1].Ptr? && lo <= vs[n - 1].a < hi then [(a, n - 1)] else []
  }

  lemma {:induction false} YoungEntriesAre(a: int, vs: seq<Value>, n: nat, lo: int, hi: int)
    requires n <= |vs|
    ensures forall s :: s in YoungEntries(a, vs, n, lo, hi) <==> s.0 == a && 0 <= s.1 < n && IsYoung(vs[s.1], lo, hi)
  {
    if n > 0 {
      YoungEntriesAre(a, vs, n - 1, lo, hi);
    }
  }

  /** Stores the first value in a field of a shared block. */
  method Initialize(c: Collector, a: int, k: int, v: Value)
    requires a in c.heap && 0 <= k < |c.heap[a].fields|
    modifies c`heap, c`refTable
    ensures c.heap == Stored(old(c.heap), a, k, v)
    ensures c.refTable == old(c.refTable) + if IsYoung(v, c.youngStart, c.youngEnd) then [(a, k)] else []
  {
    c.heap := Stored(c.heap, a, k, v);
    if v.Ptr? && c.youngStart <= v.a < c.youngEnd {
      c.refTable := c.refTable + [(a, k)];
    }
  }

  /** Initializes all fields of a new block. */
  method InitializeAll(c: Collector, a: int, vs: seq<Value>)
    requires a in c.heap && |c.heap[a].fields| == |vs|
    modifies c`heap, c`refTable
    ensures c.heap == old(c.heap)[a := old(c.heap)[a].(fields := vs)]
    ensures c.refTable == old(c.refTable) + YoungEntries(a, vs, |vs|, c.youngStart, c.youngEnd)
  {
    var k := 0;
    while k < |vs|
      invariant 0 <= k <= |vs| && a in c.heap && |c.heap[a].fields| == |vs| && c.heap[a].fields[..k] == vs[..k]
      invariant c.heap == old(c.heap)[a := old(c.heap)[a].(fields := c.heap[a].fields)]
      invariant c.refTable == old(c.refTable) + YoungEntries(a, vs, k, c.youngStart, c.youngEnd)
    {
      Initialize(c, a, k, vs[k]);
      k := k + 1;
    }
    assert c.heap[a].fields[..k] == c.heap[a].fields && vs[..k] == vs;
  }

  lemma SharedRefs(h: Heap, h': Heap, w: World, refTable: seq<Slot>, lo: int, hi: int, i: int, o: Obj, a: int,
                   vs: seq<Value>)
    requires RefOk(h, w, refTable, lo, hi, {}) && a !in w.at && SameKept(h, h', w) && a in h' && h'[a].fields == vs
    ensures RefOk(h', Add(w, i, o, a), refTable + YoungEntries(a, vs, |vs|, lo, hi), lo, hi, {})
  {
    var w', t := Add(w, i, o, a), refTable + YoungEntries(a, vs, |vs|, lo, hi);
    YoungEntriesAre(a, vs, |vs|, lo, hi);
    forall b, k {:trigger h'[b].fields[k]} | b in h' && b in w'.at && 0 <= k < |h'[b].fields| &&
           IsYoung(h'[b].fields[k], lo, hi)
      ensures (b, k) in t
    {
      if b != a {
        assert b in w.at && h'[b] == h[b] && h[b].fields[k] == h'[b].fields[k];
      }
    }
    forall s | s in t
      ensures s.0 in h' && s.0 in w'.at && 0 <= s.1 < |h'[s.0].fields|
    {
      if s in refTable {
        var b := s.0;
        assert b in w.at && h'[b] == h[b];
      }
    }
  }

  /** What the mutator relies on with a new shared object. */
  lemma SharedAdded(h: Heap, h1: Heap, chunks: seq<Chunk>, chunks': seq<Chunk>, young: Heap, lo: int, ptr: int, hi: int,
                    w: World, roots: seq<Value>, mroots: seq<Value>, globals: int, globalData: int, refTable: seq<Slot>,
                    i: int, o: Obj, vs: seq<Value>, a: int, color: Color)
    requires MutOk(h, chunks, young, lo, ptr, hi, w, roots, mroots, globals, globalData, refTable)
    requires i !in w.mem && ObjOk(o) && Stores(w.loc, vs, o.fields) && !color.Blue?
    requires Allocated(h, h1, a, |vs|, o.tag, color) && Tiled(h1, chunks') && YoungOk(young, lo, ptr, hi, chunks')
    requires chunks' != []
    ensures a !in w.at && a in h1
    ensures MutOk(h1[a := h1[a].(fields := vs)], chunks', young, lo, ptr, hi, Add(w, i, o, a), roots, mroots, globals,
                  globalData, refTable + YoungEntries(a, vs, |vs|, lo, hi))
  {
    hide Tiled, HeapHolds, RefOk, YoungEntries, Stores, Kept, WorldOk, RootsOk, YoungOk, ObjOk, Allocated, Add,
         SameKept;
    YoungApart(h1, chunks', young, lo, ptr, hi);
    AllocatedSameKept(h, h1, young, w, a, |vs|, o.tag, color);
    NewBlock(h, h1, a, |vs|, o.tag, color);
    SharedBlock(h, h1, young, w, a, vs, o, color);
    var h' := h1[a := Block(o.tag, color, vs)];
    SameSize(h1, chunks', a, Block(o.tag, color, vs));
    WorldAt(w, globals);
    SameKeptHolds(h, h1, w, {});
    StoresAll(w, vs, o);
    AddWorld(w, i, o, a);
    AddedHere(h1, w, i, o, a, vs, color);
    AddedElsewhere(young, w, i, o, a);
    AddedRoots(roots, mroots, w, i, o, a);
    AddedGlobals(w, i, o, a, globals);
    SharedRefs(h, h', w, refTable, lo, hi, i, o, a, vs);
    AddedKept(h', young, w, i, o, a);
  }

  lemma StoresAll(w: World, vs: seq<Value>, o: Obj)
    requires Stores(w.loc, vs, o.fields)
    ensures |vs| == |o.fields| && forall k :: 0 <= k < |o.fields| ==> Known(w.loc, o.fields[k])
  {
  }

  lemma AddedGlobals(w: World, i: int, o: Obj, a: int, j: int)
    requires j in w.loc && i !in w.loc
    ensures j in Add(w, i, o, a).loc && Add(w, i, o, a).loc[j] == w.loc[j]
  {
  }

  lemma AddedKept(h: Heap, young: Heap, w: World, i: int, o: Obj, a: int)
    requires Kept(h, young, w) && Live(h, a)
    ensures Kept(h, young, Add(w, i, o, a))
  {
  }

  lemma SharedBlock(h: Heap, h1: Heap, young: Heap, w: World, a: int, vs: seq<Value>, o: Obj, color: Color)
    requires Allocated(h, h1, a, |vs|, o.tag, color) && SameKept(h, h1, w) && a !in w.at && Kept(h1, young, w)
    requires !color.Blue?
    requires forall x :: x in young ==> x !in h1
    ensures a in h1 && a !in young && h1[a].(fields := vs) == Block(o.tag, color, vs)
    ensures var h' := h1[a := Block(o.tag, color, vs)]; SameKept(h, h', w) && Kept(h', young, w) && Live(h', a)
    ensures forall x :: x in w.at && x in h ==> x in h1
  {
    var h' := h1[a := Block(o.tag, color, vs)];
    forall x | x in w.at
      ensures Live(h', x) || (x in young && x !in h')
    {
      assert x != a;
    }
  }

  /** A new shared object, whose address goes to the root `dst`. */
  method AllocLarge(c: Collector, dst: int, tag: int, srcs: seq<int>, increment: int, ghost i: int) returns (ok: bool)
    requires c.Valid() && i !in c.w.mem && 1 <= |srcs| && 0 <= dst < |c.roots|
    requires forall k :: 0 <= k < |srcs| ==> 0 <= srcs[k] < |c.roots|
    requires |c.mroots| == |c.roots| && ObjOk(Obj(tag, Pick(c.mroots, srcs)))
    modifies c`heap, c`chunks, c`refTable, c`roots, c`mroots, c`w
    ensures ok ==> c.Valid() && c.w.mem == old(c.w).mem[i := Obj(tag, Pick(old(c.mroots), srcs))]
    ensures ok ==> c.mroots == old(c.mroots)[dst := Ptr(i)]
    ensures !ok ==> c.Valid() && c.w == old(c.w) && c.mroots == old(c.mroots) && NoFree(c.heap, |srcs|)
  {
    hide *;
    ghost var o := Obj(tag, Pick(c.mroots, srcs));
    ghost var w, h, chunks, t := c.w, c.heap, c.chunks, c.refTable;
    PickStores(c, srcs);
    var vs := Pick(c.roots, srcs);
    c.ValidParts();
    c.Facts();
    c.MutFields();
    PhaseIs(c);
    YoungPlace(c);
    var a;
    a, ok := AllocShr(c, |srcs|, tag, increment);
    if !ok {
      return;
    }
    ghost var h1, color := c.heap, NewColor(c.phase, c.sweepHp, a);
    NewColorIs(c.phase, c.sweepHp, a);
    NewBlock(h, h1, a, |srcs|, tag, color);
    TopChunk(h1, c.chunks, a);
    InitializeAll(c, a, vs);
    SharedAdded(h, h1, chunks, c.chunks, c.young, c.youngStart, c.youngPtr, c.youngEnd, w, c.roots, c.mroots, c.globals,
                c.globalData, t, i, o, vs, a, color);
    YoungApart(h1, c.chunks, c.young, c.youngStart, c.youngPtr, c.youngEnd);
    StoresAll(w, vs, o);
    PhaseAdded(c.phase, h, h1, chunks, c.chunks, c.young, w, c.snap, c.gray, c.graySize, c.pure, c.markHp, c.chunk,
               c.limit, c.sweepHp, i, o, a);
    AddedIs(w, i, o, a);
    FilledRewritten(h1, a, vs);
    MutWorld(c.heap, c.chunks, c.young, c.youngStart, c.youngPtr, c.youngEnd, Add(w, i, o, a), c.roots, c.mroots,
             c.globals, c.globalData, c.refTable);
    PhaseRewritten(c.phase, h1, c.heap, c.chunks, Add(w, i, o, a), c.snap, c.gray, c.graySize, c.pure, c.markHp,
                   c.chunk, c.limit, c.sweepHp);
    c.w := Add(w, i, o, a);
    ValidFrom(c);
    SetRoot(c, dst, Ptr(a), Ptr(i));
  }

  lemma YoungPlace(c: Collector)
    requires c.Valid()
    ensures YoungOk(c.young, c.youngStart, c.youngPtr, c.youngEnd, c.chunks) && Tiled(c.heap, c.chunks)
  {
    hide PhaseOk, Tiled, YoungOk, WorldOk, Kept, HeapHolds, RefOk;
  }

  lemma MutWorld(h: Heap, chunks: seq<Chunk>, young: Heap, lo: int, ptr: int, hi: int, w: World,
                 roots: seq<Value>, mroots: seq<Value>, globals: int, globalData: int, refTable: seq<Slot>)
    requires MutOk(h, chunks, young, lo, ptr, hi, w, roots, mroots, globals, globalData, refTable)
    ensures WorldOk(w)
  {
  }

  lemma FilledRewritten(h: Heap, a: int, vs: seq<Value>)
    requires a in h && |vs| == |h[a].fields|
    ensures Rewritten(h, h[a := h[a].(fields := vs)])
  {
  }
}
