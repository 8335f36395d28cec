/** Stores and new objects: the write barrier (src/runtime/memory.h, src/runtime/memory.c) keeps
    what the mutator and the collector rely on. */
module Barrier {
  import opened Heaps
  import opened Tricolor
  import opened Sweeping
  import opened Marking
  import opened Collectors
  import opened Allocation
  import opened Minor

  // ----- Changing a field of an object -----

  /** Field `k` of object `i` holds another value. */
  function Put(w: World, i: int, k: int, m: Value): (w': World)
    requires i in w.mem && 0 <= k < |w.mem[i].fields|
  {
    World(w.mem[i := Obj(w.mem[i].tag, w.mem[i].fields[k := m])], w.loc, w.at)
  }

  lemma PutWorld(w: World, i: int, k: int, m: Value)
    requires WorldOk(w) && i in w.loc && i in w.mem && 0 <= k < |w.mem[i].fields| && w.mem[i].tag < NO_SCAN_TAG
    requires Known(w.loc, m)
    ensures WorldOk(Put(w, i, k, m))
  {
    var w' := Put(w, i, k, m);
    forall j | j in w'.loc && j in w'.mem
      ensures Closed(w', j)
    {
      assert Closed(w, j);
    }
  }

  /** The heap or the young generation that holds the block follows; the other is not affected. */
  lemma PutHolds(h: Heap, w: World, i: int, k: int, m: Value, v: Value)
    requires WorldOk(w) && HeapHolds(h, w, {}) && i in w.loc && i in w.mem && 0 <= k < |w.mem[i].fields|
    requires v == Conc(w.loc, m)
    ensures w.loc[i] !in h ==> HeapHolds(h, Put(w, i, k, m), {})
    ensures w.loc[i] in h ==> k < |h[w.loc[i]].fields| && HeapHolds(Stored(h, w.loc[i], k, v), Put(w, i, k, m), {})
  {
    var w', a := Put(w, i, k, m), w.loc[i];
    assert a in w.at && w.at[a] == i;
    if a in h {
      assert HoldsAt(h, w, {}, a);
    }
    var h' := if a in h then Stored(h, a, k, v) else h;
    forall b | b in h' && b in w'.at
      ensures HoldsAt(h', w', {}, b)
    {
      assert HoldsAt(h, w, {}, b);
    }
  }

  lemma StoredKept(h: Heap, young: Heap, w: World, i: int, k: int, m: Value, v: Value)
    requires Kept(h, young, w) && i in w.loc && i in w.mem && 0 <= k < |w.mem[i].fields|
    ensures w.loc[i] in h && k < |h[w.loc[i]].fields| ==> Kept(Stored(h, w.loc[i], k, v), young, Put(w, i, k, m))
    ensures w.loc[i] in young && k < |young[w.loc[i]].fields| ==>
              Kept(h, Stored(young, w.loc[i], k, v), Put(w, i, k, m))
  {
    var w' := Put(w, i, k, m);
    forall a | a in w'.at
      ensures Live(h, a) || (a in young && a !in h)
    {
      assert a in w.at;
    }
  }

  /** The new table after a store to field `k` of the block at `a`. */
  function Recorded(refTable: seq<Slot>, a: int, k: int, young: bool): (t: seq<Slot>) {
    if young then refTable + [(a, k)] else refTable
  }

  /** After a store a young value is in the table: it is entered, unless the field held a
      young value before and is there already. */
  lemma StoredRefs(h: Heap, w: World, refTable: seq<Slot>, lo: int, hi: int, i: int, k: int, m: Value, v: Value)
    requires RefOk(h, w, refTable, lo, hi, {}) && i in w.loc && w.loc[i] in h && w.loc[i] in w.at
    requires i in w.mem && 0 <= k < |w.mem[i].fields| == |h[w.loc[i]].fields|
    ensures var a := w.loc[i];
            RefOk(Stored(h, a, k, v), Put(w, i, k, m),
                  Recorded(refTable, a, k, IsYoung(v, lo, hi) && !IsYoung(h[a].fields[k], lo, hi)), lo, hi, {})
  {
    var a := w.loc[i];
    var h', t := Stored(h, a, k, v), Recorded(refTable, a, k, IsYoung(v, lo, hi) && !IsYoung(h[a].fields[k], lo, hi));
    forall b, l {:trigger h'[b].fields[l]} | b in h' && b in w.at && 0 <= l < |h'[b].fields| &&
           IsYoung(h'[b].fields[l], lo, hi)
      ensures (b, l) in t
    {
      if (b, l) != (a, k) {
        assert h'[b].fields[l] == h[b].fields[l];
      } else if IsYoung(h[a].fields[k], lo, hi) {
        assert (a, k) in refTable;
      }
    }
  }

  lemma OtherRefs(h: Heap, w: World, refTable: seq<Slot>, lo: int, hi: int, i: int, k: int, m: Value)
    requires RefOk(h, w, refTable, lo, hi, {}) && i in w.mem && 0 <= k < |w.mem[i].fields|
    ensures RefOk(h, Put(w, i, k, m), refTable, lo, hi, {})
  {
  }

  /** What the mutator relies on after a store to a block of the heap. */
  lemma MutStored(h: Heap, chunks: seq<Chunk>, young: Heap, lo: int, ptr: int, hi: int, w: World,
                  roots: seq<Value>, mroots: seq<Value>, globals: int, globalData: int, refTable: seq<Slot>,
                  i: int, k: int, m: Value, v: Value)
    requires MutOk(h, chunks, young, lo, ptr, hi, w, roots, mroots, globals, globalData, refTable)
    requires i in w.loc && i in w.mem && 0 <= k < |w.mem[i].fields| && w.mem[i].tag < NO_SCAN_TAG && w.loc[i] in h
    requires Known(w.loc, m) && v == Conc(w.loc, m)
    ensures k < |h[w.loc[i]].fields|
    ensures MutOk(Stored(h, w.loc[i], k, v), chunks, young, lo, ptr, hi, Put(w, i, k, m), roots, mroots, globals,
                  globalData, Recorded(refTable, w.loc[i], k, IsYoung(v, lo, hi) &&
                                       !IsYoung(h[w.loc[i]].fields[k], lo, hi)))
  {
    hide Tiled, HeapHolds, WorldOk, RefOk, Kept, RootsOk, YoungOk, Recorded;
    var a := w.loc[i];
    YoungApart(h, chunks, young, lo, ptr, hi);
    PutWorld(w, i, k, m);
    PutHolds(h, w, i, k, m, v);
    PutHolds(young, w, i, k, m, v);
    StoredKept(h, young, w, i, k, m, v);
    WorldAt(w, i);
    SizeAt(h, w, i);
    SameSize(h, chunks, a, h[a].(fields := h[a].fields[k := v]));
    StoredRefs(h, w, refTable, lo, hi, i, k, m, v);
    assert Put(w, i, k, m).loc == w.loc;
  }

  lemma SizeAt(h: Heap, w: World, i: int)
    requires WorldOk(w) && HeapHolds(h, w, {}) && i in w.loc && w.loc[i] in h
    ensures i in w.mem && |w.mem[i].fields| == |h[w.loc[i]].fields| && w.mem[i].tag == h[w.loc[i]].tag
    ensures w.loc[i] in w.at && w.at[w.loc[i]] == i
    ensures forall k :: 0 <= k < |w.mem[i].fields| ==>
              h[w.loc[i]].fields[k] == Conc(w.loc, w.mem[i].fields[k]) && Known(w.loc, w.mem[i].fields[k])
  {
    assert HoldsAt(h, w, {}, w.loc[i]) && Closed(w, i);
  }

  /** What the mutator relies on after a store to a young block. */
  lemma MutStoredYoung(h: Heap, chunks: seq<Chunk>, young: Heap, lo: int, ptr: int, hi: int, w: World,
                       roots: seq<Value>, mroots: seq<Value>, globals: int, globalData: int, refTable: seq<Slot>,
                       i: int, k: int, m: Value, v: Value)
    requires MutOk(h, chunks, young, lo, ptr, hi, w, roots, mroots, globals, globalData, refTable)
    requires i in w.loc && i in w.mem && 0 <= k < |w.mem[i].fields| && w.mem[i].tag < NO_SCAN_TAG && w.loc[i] !in h
    requires Known(w.loc, m) && v == Conc(w.loc, m)
    ensures w.loc[i] in young && k < |young[w.loc[i]].fields|
    ensures MutOk(h, chunks, Stored(young, w.loc[i], k, v), lo, ptr, hi, Put(w, i, k, m), roots, mroots, globals,
                  globalData, refTable)
  {
    hide Tiled, HeapHolds, WorldOk, RefOk, RootsOk;
    var a := w.loc[i];
    WorldAt(w, i);
    assert a in young;
    SizeAt(young, w, i);
    PutWorld(w, i, k, m);
    PutHolds(h, w, i, k, m, v);
    PutHolds(young, w, i, k, m, v);
    StoredKept(h, young, w, i, k, m, v);
    OtherRefs(h, w, refTable, lo, hi, i, k, m);
    assert Put(w, i, k, m).loc == w.loc;
  }

  // ----- The snapshot is kept -----

  /** A store keeps the marking invariant if the value that the field had at the start of
      the cycle, should it still have it, is dark. */
  lemma PutMark(h: Heap, w: World, s: Snapshot, i: int, k: int, m: Value)
    requires MarkInv(h, w, s, -1, 0) && i in w.mem && 0 <= k < |w.mem[i].fields|
    requires Dark(h, w, w.mem[i].fields[k]) || i !in s.mem || k >= |s.mem[i].fields| ||
               w.mem[i].fields[k] != s.mem[i].fields[k]
    ensures MarkInv(h, Put(w, i, k, m), s, -1, 0)
  {
    var w' := Put(w, i, k, m);
    assert forall v :: Dark(h, w, v) <==> Dark(h, w', v);
    hide Dark;
    forall j | j in s.mem
      ensures MarkOk(h, w', s, -1, 0, j)
    {
      assert MarkOk(h, w, s, -1, 0, j);
    }
  }

  /** Once darkened, the old value is dark or has come after the snapshot. */
  lemma OldValueDark(h: Heap, young: Heap, w: World, s: Snapshot, i: int, k: int)
    requires WorldOk(w) && Kept(h, young, w) && MarkInv(h, w, s, -1, 0) && i in w.loc && i in w.mem
    requires 0 <= k < |w.mem[i].fields|
    ensures var m := w.mem[i].fields[k];
            Dark(Darkened(h, Conc(w.loc, m)), w, m) || i !in s.mem || k >= |s.mem[i].fields| || m != s.mem[i].fields[k]
  {
    var m := w.mem[i].fields[k];
    if i in s.mem && k < |s.mem[i].fields| && m == s.mem[i].fields[k] && m.Ptr? {
      assert MarkOk(h, w, s, -1, 0, m.a);
      var a := w.loc[m.a];
      assert a in w.at && Live(h, a);
      DarkenedIs(h, Ptr(a));
    }
  }

  /** The barrier: the overwritten value is darkened while marking. */
  lemma PhaseStored(phase: Phase, h: Heap, h': Heap, chunks: seq<Chunk>, young: Heap, w: World, s: Snapshot,
                    gray: seq<int>, size: int, pure: bool, gray': seq<int>, size': int, pure': bool,
                    hp: Position, chunk: int, limit: int, sweepHp: int, i: int, k: int, m: Value, v: Value)
    requires PhaseOk(phase, h, chunks, w, s, gray, size, pure, hp, chunk, limit, sweepHp)
    requires WorldOk(w) && Kept(h, young, w) && HeapHolds(h, w, {})
    requires i in w.loc && i in w.mem && 0 <= k < |w.mem[i].fields| && w.loc[i] in h && k < |h[w.loc[i]].fields|
    requires GrayInv(h', gray', size', pure', hp)
    requires h' == if phase == MarkPhase then Darkened(Stored(h, w.loc[i], k, v), h[w.loc[i]].fields[k])
                   else Stored(h, w.loc[i], k, v)
    requires phase != MarkPhase ==> gray' == gray && pure' == pure
    ensures PhaseOk(phase, h', chunks, Put(w, i, k, m), s, gray', size', pure', hp, chunk, limit, sweepHp)
  {
    hide GrayInv, MarkInv, ShadesOk, SweepInv, Swept, InPlace, HeapHolds, WorldOk, Kept, Darkened;
    var h1, old' := Stored(h, w.loc[i], k, v), h[w.loc[i]].fields[k];
    SizeAt(h, w, i);
    PhaseRewritten(phase, h, h1, chunks, w, s, gray, size, pure, hp, chunk, limit, sweepHp);
    SamePlaces(h', w, s, i, k, m, sweepHp);
    if phase == MarkPhase {
      DarkenedIs(h1, old');
      DarkerMark(h1, h', w, s, -1, 0);
      OldInWorld(w, i, k);
      DarkenedShades(h1, h', w, s, old');
      StoredIsKept(h, young, w, w.loc[i], k, v);
      OldValueDark(h1, young, w, s, i, k);
      PutMark(h', w, s, i, k, m);
      StillInPlace(h1, h', chunks, chunk, limit, hp);
    }
  }

  lemma StoredIsKept(h: Heap, young: Heap, w: World, a: int, k: int, v: Value)
    requires Kept(h, young, w) && a in h && 0 <= k < |h[a].fields|
    ensures Kept(Stored(h, a, k, v), young, w)
  {
  }

  lemma OldInWorld(w: World, i: int, k: int)
    requires WorldOk(w) && i in w.loc && i in w.mem && 0 <= k < |w.mem[i].fields|
    ensures var v := Conc(w.loc, w.mem[i].fields[k]); v.Ptr? ==> v.a in w.at
  {
    assert Closed(w, i);
    var m := w.mem[i].fields[k];
    if m.Ptr? {
      assert m.a in w.loc;
    }
  }

  lemma SamePlaces(h: Heap, w: World, s: Snapshot, i: int, k: int, m: Value, sweepHp: int)
    requires i in w.mem && 0 <= k < |w.mem[i].fields|
    ensures ShadesOk(h, w, s) ==> ShadesOk(h, Put(w, i, k, m), s)
    ensures SweepInv(h, w, sweepHp) ==> SweepInv(h, Put(w, i, k, m), sweepHp)
    ensures Swept(h, w, sweepHp) ==> Swept(h, Put(w, i, k, m), sweepHp)
  {
  }

  /** A store to a young block does not matter to the collector. */
  lemma PhaseStoredYoung(phase: Phase, h: Heap, chunks: seq<Chunk>, w: World, s: Snapshot,
                         gray: seq<int>, size: int, pure: bool, hp: Position, chunk: int, limit: int, sweepHp: int,
                         i: int, k: int, m: Value)
    requires PhaseOk(phase, h, chunks, w, s, gray, size, pure, hp, chunk, limit, sweepHp)
    requires i in w.loc && i in w.mem && 0 <= k < |w.mem[i].fields| && w.loc[i] !in h
    ensures PhaseOk(phase, h, chunks, Put(w, i, k, m), s, gray, size, pure, hp, chunk, limit, sweepHp)
  {
    hide GrayInv, ShadesOk, SweepInv, Swept, InPlace;
    SamePlaces(h, w, s, i, k, m, sweepHp);
    if phase == MarkPhase {
      assert i in s.mem ==> MarkOk(h, w, s, -1, 0, i);
      PutMark(h, w, s, i, k, m);
    }
  }

  /** The field of a shared or young block gets another value. */
  method Modify(c: Collector, a: int, k: int, v: Value, statHeapSize: int, ghost i: int, ghost m: Value)
    requires c.Valid() && i in c.w.loc && c.w.loc[i] == a && i in c.w.mem && 0 <= k < |c.w.mem[i].fields|
    requires c.w.mem[i].tag < NO_SCAN_TAG && Known(c.w.loc, m) && v == Conc(c.w.loc, m)
    modifies c`heap, c`young, c`gray, c`graySize, c`pure, c`refTable, c`w
    ensures c.Valid() && c.w == Put(old(c.w), i, k, m)
  {
    hide *;
    c.ValidParts();
    c.Facts();
    c.MutFields();
    if a in c.heap {
      SharedModified(c, a, k, v, statHeapSize, i, m);
    } else {
      MutStoredYoung(c.heap, c.chunks, c.young, c.youngStart, c.youngPtr, c.youngEnd, c.w, c.roots, c.mroots, c.globals,
                     c.globalData, c.refTable, i, k, m, v);
      PhaseIs(c);
      PhaseStoredYoung(c.phase, c.heap, c.chunks, c.w, c.snap, c.gray, c.graySize, c.pure, c.markHp, c.chunk, c.limit,
                       c.sweepHp, i, k, m);
      c.young := Stored(c.young, a, k, v);
      c.w := Put(c.w, i, k, m);
      ValidFrom(c);
    }
  }

  lemma PhaseIs(c: Collector)
    requires c.Valid()
    ensures PhaseOk(c.phase, c.heap, c.chunks, c.w, c.snap, c.gray, c.graySize, c.pure, c.markHp, c.chunk, c.limit,
                    c.sweepHp)
  {
    hide MutOk, PhaseOk;
  }

  method SharedModified(c: Collector, a: int, k: int, v: Value, statHeapSize: int, ghost i: int, ghost m: Value)
    requires c.Valid() && i in c.w.loc && c.w.loc[i] == a && i in c.w.mem && 0 <= k < |c.w.mem[i].fields| && a in c.heap
    requires c.w.mem[i].tag < NO_SCAN_TAG && Known(c.w.loc, m) && v == Conc(c.w.loc, m)
    modifies c`heap, c`gray, c`graySize, c`pure, c`refTable, c`w
    ensures c.Valid() && c.w == Put(old(c.w), i, k, m)
  {
    hide *;
    c.ValidParts();
    c.Facts();
    c.MutFields();
    PhaseIs(c);
    MutStored(c.heap, c.chunks, c.young, c.youngStart, c.youngPtr, c.youngEnd, c.w, c.roots, c.mroots, c.globals,
              c.globalData, c.refTable, i, k, m, v);
    ghost var h, g, size, pure := c.heap, c.gray, c.graySize, c.pure;
    var was := c.heap[a].fields[k];
    c.heap := Stored(c.heap, a, k, v);
    ghost var h1 := c.heap;
    StoredGray(h, a, k, v, g, size, pure, c.markHp);
    if c.phase == MarkPhase {
      c.Darken(was, statHeapSize);
    }
    YoungTest(v, c.youngStart, c.youngEnd);
    YoungTest(was, c.youngStart, c.youngEnd);
    RecordedIs(c.refTable, a, k);
    if v.Ptr? && c.youngStart <= v.a < c.youngEnd && !(was.Ptr? && c.youngStart <= was.a < c.youngEnd) {
      c.refTable := c.refTable + [(a, k)];
    }
    PhaseStored(c.phase, h, c.heap, c.chunks, c.young, c.w, c.snap, g, size, pure, c.gray, c.graySize, c.pure, c.markHp,
                c.chunk, c.limit, c.sweepHp, i, k, m, v);
    c.w := Put(c.w, i, k, m);
    MaybeDarkened(h1, c.heap, c.chunks, c.young, c.youngStart, c.youngPtr, c.youngEnd, c.w, c.roots, c.mroots,
                  c.globals, c.globalData, c.refTable, was);
    ValidFrom(c);
  }

  lemma RecordedIs(t: seq<Slot>, a: int, k: int)
    ensures Recorded(t, a, k, true) == t + [(a, k)] && Recorded(t, a, k, false) == t
  {
  }

  lemma StoredGray(h: Heap, a: int, k: int, v: Value, gray: seq<int>, size: int, pure: bool, hp: Position)
    requires a in h && 0 <= k < |h[a].fields| && GrayInv(h, gray, size, pure, hp)
    ensures GrayInv(Stored(h, a, k, v), gray, size, pure, hp)
  {
    RewrittenGray(h, Stored(h, a, k, v), gray, size, pure, hp);
  }

  lemma MaybeDarkened(h: Heap, h': Heap, chunks: seq<Chunk>, young: Heap, lo: int, ptr: int, hi: int, w: World,
                      roots: seq<Value>, mroots: seq<Value>, globals: int, globalData: int, refTable: seq<Slot>,
                      v: Value)
    requires MutOk(h, chunks, young, lo, ptr, hi, w, roots, mroots, globals, globalData, refTable)
    requires h' == h || h' == Darkened(h, v)
    ensures MutOk(h', chunks, young, lo, ptr, hi, w, roots, mroots, globals, globalData, refTable)
  {
    if h' != h {
      hide MutOk, Darkened, Tiled;
      MutTiled(h, chunks, young, lo, ptr, hi, w, roots, mroots, globals, globalData, refTable);
      DarkenedIs(h, v);
      DarkenedTiled(h, chunks, v);
      RecoloredOf(h, h');
      MutRecolored(h, h', chunks, young, lo, ptr, hi, w, roots, mroots, globals, globalData, refTable);
    }
  }

  lemma RecoloredOf(h: Heap, h': Heap)
    requires Darker(h, h')
    ensures Recolored(h, h')
  {
  }
}
