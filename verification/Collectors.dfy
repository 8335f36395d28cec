/** The collector's state and the incremental major collection (src/runtime/major_gc.c). */
module Collectors {
  import opened Heaps
  import opened Tricolor
  import opened Sweeping
  import opened Marking

  const INITIAL_GRAY_SIZE := 2048

  datatype Phase = MarkPhase | WeakPhase | SweepPhase

  /** The young generation lies between `lo` and `hi`, outside all chunks; it is filled up
      to `ptr`. */
  ghost predicate YoungOk(young: Heap, lo: int, ptr: int, hi: int, chunks: seq<Chunk>) {
    && lo <= ptr <= hi
    && (forall a {:trigger a in young} :: a in young ==> lo <= a < ptr)
    && (forall i {:trigger chunks[i]} :: 0 <= i < |chunks| ==> chunks[i].end <= lo || hi <= chunks[i].start)
  }

  ghost predicate IsYoung(v: Value, lo: int, hi: int) {
    v.Ptr? && lo <= v.a < hi
  }

  /** The roots store the mutator's roots. */
  ghost predicate RootsOk(roots: seq<Value>, mroots: seq<Value>, loc: map<int, int>) {
    |roots| == |mroots| && forall k :: 0 <= k < |roots| ==> Known(loc, mroots[k]) && roots[k] == Conc(loc, mroots[k])
  }

  /** Every field of the heap that points into the young generation is in the table. */
  ghost predicate RefOk(h: Heap, w: World, refTable: seq<Slot>, lo: int, hi: int, pending: set<Slot>) {
    && (forall a, k {:trigger h[a].fields[k]} ::
        a in h && a in w.at && 0 <= k < |h[a].fields| && IsYoung(h[a].fields[k], lo, hi) ==>
          (a, k) in refTable || (a, k) in pending)
    && (forall s {:trigger s in refTable} :: s in refTable ==> s.0 in h && s.0 in w.at && 0 <= s.1 < |h[s.0].fields|)
  }

  /** What the mutator relies on, whatever the collector is doing. */
  ghost predicate MutOk(h: Heap, chunks: seq<Chunk>, young: Heap, lo: int, ptr: int, hi: int, w: World,
                        roots: seq<Value>, mroots: seq<Value>, globals: int, globalData: int, refTable: seq<Slot>) {
    && chunks != [] && Tiled(h, chunks) && YoungOk(young, lo, ptr, hi, chunks)
    && WorldOk(w) && Kept(h, young, w) && HeapHolds(h, w, {}) && HeapHolds(young, w, {})
    && RootsOk(roots, mroots, w.loc) && globals in w.loc && w.loc[globals] == globalData && globalData in h
    && RefOk(h, w, refTable, lo, hi, {})
  }

  /** What the collector relies on. */
  ghost predicate PhaseOk(phase: Phase, h: Heap, chunks: seq<Chunk>, w: World, s: Snapshot, gray: seq<int>, size: int,
                          pure: bool, hp: Position, chunk: int, limit: int, sweepHp: int) {
    && GrayInv(h, gray, size, pure, hp)
    && match phase
       case MarkPhase =>
         MarkInv(h, w, s, -1, 0) && ShadesOk(h, w, s) && (hp.At? ==> InPlace(h, chunks, chunk, limit, hp.p))
       case _ =>
         && gray == [] && pure && hp.Null? && SweepInv(h, w, sweepHp)
         && Swept(h, w, sweepHp) && InPlace(h, chunks, chunk, limit, sweepHp)
  }

  lemma MutRecolored(h: Heap, h': Heap, chunks: seq<Chunk>, young: Heap, lo: int, ptr: int, hi: int, w: World,
                  roots: seq<Value>, mroots: seq<Value>, globals: int, globalData: int, refTable: seq<Slot>)
    requires MutOk(h, chunks, young, lo, ptr, hi, w, roots, mroots, globals, globalData, refTable)
    requires Recolored(h, h') && Tiled(h', chunks)
    ensures MutOk(h', chunks, young, lo, ptr, hi, w, roots, mroots, globals, globalData, refTable)
  {
    RecoloredHolds(h, h', w, {});
    forall a | a in w.at
      ensures Live(h', a) || (a in young && a !in h')
    {
      assert a in h ==> h'[a] == h[a].(color := h'[a].color);
    }
    forall a, k {:trigger h'[a].fields[k]} | a in h' && a in w.at && 0 <= k < |h'[a].fields| &&
           IsYoung(h'[a].fields[k], lo, hi)
      ensures (a, k) in refTable
    {
      assert h'[a] == h[a].(color := h'[a].color) && h'[a].fields[k] == h[a].fields[k];
    }
    forall s | s in refTable
      ensures s.0 in h' && s.0 in w.at && 0 <= s.1 < |h'[s.0].fields|
    {
      var a := s.0;
      assert h'[a] == h[a].(color := h'[a].color);
    }
  }

  /** Freeing a block that is not kept changes nothing for the mutator. */
  lemma MutFreed(h: Heap, h': Heap, chunks: seq<Chunk>, young: Heap, lo: int, ptr: int, hi: int, w: World,
                 roots: seq<Value>, mroots: seq<Value>, globals: int, globalData: int, refTable: seq<Slot>, bp: int)
    requires MutOk(h, chunks, young, lo, ptr, hi, w, roots, mroots, globals, globalData, refTable)
    requires Freed(h, h', bp) && bp !in w.at && Tiled(h', chunks)
    ensures MutOk(h', chunks, young, lo, ptr, hi, w, roots, mroots, globals, globalData, refTable)
  {
    FreedSame(h, h', young, w, bp);
    SameKeptHolds(h, h', w, {});
    RefSame(h, h', w, refTable, lo, hi);
    hide Tiled, HeapHolds, WorldOk, RefOk, Freed;
    assert globalData in w.at by {
      WorldAt(w, globals);
    }
  }

  lemma WorldAt(w: World, i: int)
    requires WorldOk(w) && i in w.loc
    ensures w.loc[i] in w.at && i in w.mem
  {
  }

  lemma FreedSame(h: Heap, h': Heap, young: Heap, w: World, bp: int)
    requires Kept(h, young, w) && Freed(h, h', bp) && bp !in w.at
    ensures SameKept(h, h', w) && Kept(h', young, w)
  {
    forall a | a in w.at
      ensures if a in h then a in h' && h'[a] == h[a] else a !in h'
      ensures Live(h', a) || (a in young && a !in h')
    {
      assert a in h ==> Live(h, a);
    }
  }

  lemma RefSame(h: Heap, h': Heap, w: World, refTable: seq<Slot>, lo: int, hi: int)
    requires SameKept(h, h', w) && RefOk(h, w, refTable, lo, hi, {})
    ensures RefOk(h', w, refTable, lo, hi, {})
  {
    forall a, k {:trigger h'[a].fields[k]} | a in h' && a in w.at && 0 <= k < |h'[a].fields| &&
           IsYoung(h'[a].fields[k], lo, hi)
      ensures (a, k) in refTable
    {
      assert h'[a] == h[a] && h'[a].fields[k] == h[a].fields[k];
    }
    forall s | s in refTable
      ensures s.0 in h' && s.0 in w.at && 0 <= s.1 < |h'[s.0].fields|
    {
      var a := s.0;
      assert h'[a] == h[a];
    }
  }

  /** Keeping only what can be reached changes nothing for the mutator. */
  lemma MutRestrict(h: Heap, chunks: seq<Chunk>, lo: int, ptr: int, hi: int, w: World,
                    roots: seq<Value>, mroots: seq<Value>, globals: int, globalData: int)
    requires MutOk(h, chunks, map[], lo, ptr, hi, w, roots, mroots, globals, globalData, [])
    ensures ReachSet(w.mem, RootIds(mroots, globals)) <= w.loc.Keys
    ensures MutOk(h, chunks, map[], lo, ptr, hi, Restrict(w, ReachSet(w.mem, RootIds(mroots, globals))),
                  roots, mroots, globals, globalData, [])
  {
    var ids := RootIds(mroots, globals);
    RootsKnown(roots, mroots, globals, w);
    ReachClosed(w, ids);
    var reach := ReachSet(w.mem, ids);
    RestrictWorld(w, reach);
    RestrictHolds(h, w, reach, {});
    RestrictHolds(map[], w, reach, {});
    var w' := Restrict(w, reach);
    assert globals in reach by {
      ReachRoot(w.mem, ids, globals);
    }
    forall k | 0 <= k < |roots|
      ensures Known(w'.loc, mroots[k]) && roots[k] == Conc(w'.loc, mroots[k])
    {
      if mroots[k].Ptr? {
        ReachRoot(w.mem, ids, mroots[k].a);
      }
    }
    forall a | a in w'.at
      ensures Live(h, a)
    {
      assert a in w.at;
    }
  }

  lemma RootsKnown(roots: seq<Value>, mroots: seq<Value>, globals: int, w: World)
    requires RootsOk(roots, mroots, w.loc) && globals in w.loc
    ensures forall i :: i in RootIds(mroots, globals) ==> i in w.loc
    ensures WorldOk(w) ==> forall i :: i in RootIds(mroots, globals) ==> i in w.mem
  {
  }

  /** The same objects or fewer are kept, where they were. */
  ghost predicate Fewer(w': World, w: World) {
    w'.mem == w.mem && forall i {:trigger i in w'.loc} {:trigger w'.loc[i]} ::
                         i in w'.loc ==> i in w.loc && w'.loc[i] == w.loc[i]
  }

  lemma FewerSelf(w: World)
    ensures Fewer(w, w)
  {
  }

  lemma FewerTwice(w'': World, w': World, w: World)
    requires Fewer(w'', w') && Fewer(w', w)
    ensures Fewer(w'', w)
  {
    forall i | i in w''.loc
      ensures i in w.loc && w''.loc[i] == w.loc[i]
    {
      assert i in w'.loc;
    }
  }

  lemma OneChunk(k: Chunk)
    requires k.start + 2 <= k.end
    ensures Tiled(Grown(map[], k), [k])
  {
    hide Insert;
    assert Insert([], 0, k) == [k] by {
      InsertMembers([], 0, k);
    }
    GrownTiled(map[], [], 0, k);
  }

  class Collector {
    var heap: Heap
    var chunks: seq<Chunk>
    var phase: Phase
    var gray: seq<int>
    var graySize: int
    var pure: bool
    var markHp: Position
    var chunk: int
    var limit: int
    var sweepHp: int
    var young: Heap
    var youngPtr: int
    var youngStart: int
    var youngEnd: int
    var refTable: seq<Slot>
    var roots: seq<Value>
    var globalData: int
    ghost var w: World
    ghost var snap: Snapshot
    ghost var mroots: seq<Value>
    ghost var globals: int

    /** The heap is one free block, the young generation is empty, and marking has started
        with nothing to mark. */
    constructor (start: int, heapSize: int, young: int, minorSize: int)
      ensures heap == Grown(map[], Chunk(start, start + heapSize)) && chunks == [Chunk(start, start + heapSize)]
      ensures this.young == map[] && youngStart == youngPtr == young && youngEnd == young + minorSize && refTable == []
      ensures phase == MarkPhase && gray == [] && graySize == INITIAL_GRAY_SIZE && pure && markHp == Null
      ensures roots == mroots == [] && (heapSize >= 2 ==> Tiled(heap, chunks))
      ensures GrayInv(heap, gray, graySize, pure, markHp)
    {
      heap, chunks := Grown(map[], Chunk(start, start + heapSize)), [Chunk(start, start + heapSize)];
      this.young, youngStart, youngPtr, youngEnd := map[], young, young, young + minorSize;
      phase, gray, graySize, pure, markHp := MarkPhase, [], INITIAL_GRAY_SIZE, true, Null;
      refTable, roots, mroots := [], [], [];
      new;
      if heapSize >= 2 {
        OneChunk(Chunk(start, start + heapSize));
      }
    }

    ghost predicate Mut()
      reads this
    {
      MutOk(heap, chunks, young, youngStart, youngPtr, youngEnd, w, roots, mroots, globals, globalData, refTable)
    }

    ghost predicate Valid()
      reads this
    {
      Mut() && PhaseOk(phase, heap, chunks, w, snap, gray, graySize, pure, markHp, chunk, limit, sweepHp)
    }

    /** A full gray stack grows, or loses its top half, or all when there is no room. */
    method ReallocGrayVals(statHeapSize: int)
      modifies `gray, `graySize, `pure
      requires |gray| == graySize >= 2
      ensures |gray| < graySize && 2 <= graySize
      ensures (gray == old(gray) && pure == old(pure)) || (|gray| < |old(gray)| && gray == old(gray)[..|gray|] && !pure)
      ensures old(graySize) >= statHeapSize / 128 ==>
                gray == old(gray)[..old(graySize) / 2] && graySize == old(graySize) && !pure
      ensures old(graySize) < statHeapSize / 128 ==>
                if graySize == 2 * old(graySize) then gray == old(gray) && pure == old(pure)
                else graySize == old(graySize) && gray == [] && !pure
    {
      if graySize < statHeapSize / 128 {
        var room: bool := *;
        if !room {
          gray := [];
          pure := false;
        } else {
          graySize := 2 * graySize;
        }
      } else {
        gray := gray[..graySize / 2];
        pure := false;
      }
    }

    method Darken(v: Value, statHeapSize: int)
      requires GrayInv(heap, gray, graySize, pure, markHp)
      modifies `heap, `gray, `graySize, `pure
      ensures heap == Darkened(old(heap), v)
      ensures GrayInv(heap, gray, graySize, pure, markHp)
    {
      if v.Ptr? && v.a in heap && heap[v.a].color.White? {
        ghost var h, g, p := heap, gray, pure;
        heap := heap[v.a := heap[v.a].(color := Gray)];
        gray := gray + [v.a];
        if |gray| >= graySize {
          ReallocGrayVals(statHeapSize);
          PushedOrDropped(h, g, graySize, p, markHp, v.a, gray, pure);
        } else {
          Pushed(h, g, graySize, p, markHp, v.a);
        }
      }
    }

    /** Darkening leaves the mutator alone. */
    method DarkenSafely(v: Value, statHeapSize: int)
      requires Mut() && GrayInv(heap, gray, graySize, pure, markHp)
      modifies `heap, `gray, `graySize, `pure
      ensures heap == Darkened(old(heap), v)
      ensures Mut() && GrayInv(heap, gray, graySize, pure, markHp)
    {
      hide MutOk, GrayInv, Darkened;
      ghost var h := heap;
      Darken(v, statHeapSize);
      MutTiled(h, chunks, young, youngStart, youngPtr, youngEnd, w, roots, mroots, globals, globalData, refTable);
      DarkenedIs(h, v);
      DarkenedTiled(h, chunks, v);
      MutRecolored(h, heap, chunks, young, youngStart, youngPtr, youngEnd, w, roots, mroots, globals, globalData,
                   refTable);
    }

    /** Darkens the global data, the stack and the other roots. */
    method DarkenRoots(statHeapSize: int)
      requires Mut() && young == map[] && GrayInv(heap, gray, graySize, pure, markHp)
      requires forall a :: a in heap ==> heap[a].color.White? || heap[a].color.Blue?
      modifies `heap, `gray, `graySize, `pure
      ensures Mut() && GrayInv(heap, gray, graySize, pure, markHp)
      ensures |roots| == |mroots|
      ensures RootsDarkened(old(heap), heap, w, RootIds(mroots, globals), mroots, globals, |mroots|)
    {
      hide *;
      ghost var h0, ids := heap, RootIds(mroots, globals);
      Facts();
      DarkenSafely(Ptr(globalData), statHeapSize);
      GlobalsDarkened(h0, young, w, ids, mroots, globals, globalData);
      var sp := 0;
      while sp < |roots|
        invariant 0 <= sp <= |roots| && Mut() && GrayInv(heap, gray, graySize, pure, markHp)
        invariant RootsDarkened(h0, heap, w, ids, mroots, globals, sp)
      {
        ghost var h := heap;
        Facts();
        DarkenSafely(roots[sp], statHeapSize);
        RootStep(h0, h, young, w, ids, roots, mroots, globals, sp);
        sp := sp + 1;
      }
    }

    /** The roots become gray, what they reach becomes the snapshot, and marking starts. */
    method StartCycle(statHeapSize: int)
      requires Mut() && young == map[] && refTable == [] && gray == [] && markHp.Null?
      requires GrayInv(heap, gray, graySize, pure, markHp)
      requires forall a :: a in heap ==> heap[a].color.White? || heap[a].color.Blue?
      modifies `heap, `gray, `graySize, `pure, `phase, `markHp, `w, `snap
      ensures Valid() && phase == MarkPhase
      ensures Fewer(w, old(w)) && w.loc.Keys == ReachSet(w.mem, RootIds(mroots, globals))
      ensures Darker(old(heap), heap)
    {
      hide *;
      ghost var h0, ids := heap, RootIds(mroots, globals);
      DarkenRoots(statHeapSize);
      MutFields();
      phase := MarkPhase;
      markHp := Null;
      CycleStarts(h0, heap, chunks, young, youngStart, youngPtr, youngEnd, w, roots, mroots, globals, globalData);
      MutRestrict(heap, chunks, youngStart, youngPtr, youngEnd, w, roots, mroots, globals, globalData);
      RestrictKeys(w, ReachSet(w.mem, ids));
      snap := TakeSnapshot(w.mem, ids);
      w := Restrict(w, ReachSet(w.mem, ids));
      MarkValid();
    }

    lemma MutFields()
      ensures Mut() <==> MutOk(heap, chunks, young, youngStart, youngPtr, youngEnd, w, roots, mroots, globals,
                               globalData, refTable)
    {
      hide MutOk;
    }

    lemma MarkValid()
      requires MutOk(heap, chunks, young, youngStart, youngPtr, youngEnd, w, roots, mroots, globals, globalData,
                     refTable)
      requires phase == MarkPhase && GrayInv(heap, gray, graySize, pure, markHp) && MarkInv(heap, w, snap, -1, 0)
      requires ShadesOk(heap, w, snap)
      requires markHp.At? ==> InPlace(heap, chunks, chunk, limit, markHp.p)
      ensures Valid()
    {
      hide MutOk, GrayInv, MarkInv, ShadesOk;
    }

    /** What a step needs of the mutator's invariant. */
    lemma Facts()
      requires Mut()
      ensures WorldOk(w) && Kept(heap, young, w) && RootsOk(roots, mroots, w.loc) && Tiled(heap, chunks) && chunks != []
      ensures globals in w.loc && w.loc[globals] == globalData && globalData in heap
      ensures HeapHolds(heap, w, {}) && |roots| == |mroots| && forall a :: a in young ==> a !in heap
    {
      hide Tiled, WorldOk, Kept, HeapHolds, RefOk;
      YoungApart(heap, chunks, young, youngStart, youngPtr, youngEnd);
    }

    lemma ValidParts()
      requires Valid()
      ensures Mut() && GrayInv(heap, gray, graySize, pure, markHp)
      ensures phase == MarkPhase ==> MarkInv(heap, w, snap, -1, 0) && ShadesOk(heap, w, snap) &&
                                     (markHp.At? ==> InPlace(heap, chunks, chunk, limit, markHp.p))
      ensures phase != MarkPhase ==> gray == [] && pure && markHp.Null? && SweepInv(heap, w, sweepHp)
      ensures phase != MarkPhase ==> Swept(heap, w, sweepHp) &&
                                     InPlace(heap, chunks, chunk, limit, sweepHp)
    {
      hide MutOk, GrayInv, MarkInv, ShadesOk, SweepInv, Swept, InPlace;
    }

    lemma MarkValidAgain()
      requires Mut() && phase == MarkPhase && GrayInv(heap, gray, graySize, pure, markHp)
      requires MarkInv(heap, w, snap, -1, 0) && ShadesOk(heap, w, snap)
      requires markHp.At? ==> InPlace(heap, chunks, chunk, limit, markHp.p)
      ensures Valid()
    {
      hide MutOk, GrayInv, MarkInv, ShadesOk, InPlace;
    }

    // ----- Marking -----

    method Blacken(v: int)
      requires Mut() && v in heap && heap[v].color.Gray? && gray != []
      modifies `heap, `gray
      ensures heap == old(heap)[v := old(heap)[v].(color := Black)] && gray == old(gray)[..|old(gray)| - 1] && Mut()
    {
      hide MutOk;
      BlackenedMut(heap, chunks, young, youngStart, youngPtr, youngEnd, w, roots, mroots, globals, globalData, refTable,
                   v);
      heap := heap[v := heap[v].(color := Black)];
      gray := gray[..|gray| - 1];
    }

    /** Darkens field `i` of the block at `v`. */
    method DarkenField(statHeapSize: int, v: int, ghost x: int, i: int)
      requires Mut() && GrayInv(heap, gray, graySize, pure, markHp) && HeldObject(heap, w, v, x)
      requires 0 <= i < |heap[v].fields|
      requires MarkInv(heap, w, snap, x, i + 1) && ShadesOk(heap, w, snap)
      modifies `heap, `gray, `graySize, `pure
      ensures Mut() && GrayInv(heap, gray, graySize, pure, markHp) && HeldObject(heap, w, v, x)
      ensures MarkInv(heap, w, snap, x, i) && ShadesOk(heap, w, snap)
      ensures heap.Keys == old(heap).Keys && Left(heap) <= Left(old(heap)) && |heap[v].fields| == |old(heap)[v].fields|
      ensures Unmarked(heap) == Unmarked(old(heap))
    {
      hide *;
      ghost var h := heap;
      Facts();
      HeldFacts(h, w, v, x);
      var child := heap[v].fields[i];
      DarkenSafely(child, statHeapSize);
      FieldDone(h, chunks, young, w, snap, v, x, i);
      DarkenedLeft(h, child);
      DarkenedUnmarked(h, child);
    }

    /** Blackens the block on top of the gray stack and darkens what it points to. */
    method MarkTop(statHeapSize: int) returns (cost: int)
      requires Valid() && phase == MarkPhase && gray != []
      modifies `heap, `gray, `graySize, `pure
      ensures Valid() && cost >= 1 && heap.Keys == old(heap).Keys && Left(heap) < Left(old(heap))
      ensures Unmarked(heap) + cost == Unmarked(old(heap))
    {
      hide *;
      ValidParts();
      Facts();
      var v := gray[|gray| - 1];
      ghost var h := heap;
      Popped(heap, gray, graySize, pure, markHp);
      Blackened(heap, w, snap, v);
      BlackenedLeft(heap, v);
      BlackenedUnmarked(heap, v);
      ghost var x := w.at[v];
      HeldStart(heap, w, v);
      Blacken(v);
      var i := |heap[v].fields|;
      if heap[v].tag < NO_SCAN_TAG {
        while i > 0
          invariant Mut() && GrayInv(heap, gray, graySize, pure, markHp)
          invariant HeldObject(heap, w, v, x) && v in heap && 0 <= i <= |heap[v].fields|
          invariant MarkInv(heap, w, snap, x, i) && ShadesOk(heap, w, snap)
          invariant heap.Keys == h.Keys && Left(heap) < Left(h)
          invariant |heap[v].fields| == |h[v].fields| && Unmarked(heap) + 1 + |h[v].fields| == Unmarked(h)
        {
          i := i - 1;
          DarkenField(statHeapSize, v, x, i);
          HeldFacts(heap, w, v, x);
        }
        ObjectDone(heap, w, snap, x);
      } else {
        NoPointersHeld(heap, w, snap, v, x, i);
      }
      cost := 1 + |heap[v].fields|;
      StillInPlace(h, heap, chunks, chunk, limit, markHp);
      MarkValidAgain();
    }

    ghost function Top(): int
      reads this`chunks
    {
      if chunks == [] then 0 else chunks[|chunks| - 1].end
    }

    lemma BottomIs()
      ensures chunks != [] ==> Bottom() == chunks[0].start
    {
    }

    lemma TopIs()
      ensures chunks != [] ==> Top() == chunks[|chunks| - 1].end
    {
    }

    /** Where the first chunk starts. */
    ghost function Bottom(): int
      reads this`chunks
    {
      if chunks == [] then 0 else chunks[0].start
    }

    /** One step of the scan for gray blocks that have been dropped from the stack. */
    method Scan()
      requires Valid() && phase == MarkPhase && gray == [] && markHp.At?
      modifies `gray, `markHp, `chunk, `limit
      ensures Valid() && Remaining(markHp, Top()) < Remaining(old(markHp), Top())
    {
      hide *;
      ValidParts();
      Facts();
      MutFields();
      var p := markHp.p;
      TopIs();
      ghost var top := chunks[|chunks| - 1].end;
      EndsBelowTop(heap, chunks, chunk, limit);
      if p == limit {
        NoneBetween(heap, chunks, chunk, limit);
        match Following(chunks, chunk) {
          case NoChunk =>
            ScanOver(heap, gray, graySize, pure, limit);
            RemainingNull(p, top);
            markHp := Null;
          case Next(c) =>
            ScanHop(heap, gray, graySize, pure, limit, c.start);
            StartInPlace(heap, chunks, c);
            EndsBelowTop(heap, chunks, c.start, c.end);
            RemainingLess(p, c.start, top);
            chunk := c.start;
            markHp := At(c.start);
            limit := c.end;
        }
      } else {
        PlaceIn(heap, chunks, chunk, limit, p);
        NextInPlace(heap, chunks, chunk, limit, p);
        ScanBlock(heap, chunks, if heap[p].color.Gray? then [p] else [], graySize, pure, p);
        AfterMore(heap, p);
        PlaceIn(heap, chunks, chunk, limit, After(heap, p));
        RemainingLess(p, After(heap, p), top);
        if heap[p].color.Gray? {
          gray := gray + [p];
          assert gray == [p];
        }
        markHp := At(p + 1 + |heap[p].fields|);
      }
      TopIs();
      MarkValid();
    }

    /** The heap has lost gray blocks: the scan starts again. */
    method StartScan()
      requires Valid() && phase == MarkPhase && gray == [] && markHp.Null? && !pure
      modifies `pure, `markHp, `chunk, `limit
      ensures Valid() && pure
    {
      hide *;
      ValidParts();
      Facts();
      MutFields();
      FirstChunk(heap, chunks);
      ScanStart(heap, graySize, chunks[0].start);
      StartInPlace(heap, chunks, chunks[0]);
      pure := true;
      chunk := chunks[0].start;
      markHp := At(chunk);
      limit := chunks[0].end;
      MarkValid();
    }

    /** No gray block is left: every kept block in the heap is black. */
    method EndMarking()
      requires Valid() && phase == MarkPhase && gray == [] && markHp.Null? && pure
      modifies `phase, `chunk, `limit, `sweepHp
      ensures Valid() && phase == WeakPhase && sweepHp == Bottom()
    {
      hide *;
      ValidParts();
      Facts();
      MutFields();
      BottomIs();
      NoneGray(heap, graySize);
      MarkingDone(heap, w, snap);
      FirstChunk(heap, chunks);
      SweepStarts(heap, w, chunks[0].start);
      StartInPlace(heap, chunks, chunks[0]);
      phase := WeakPhase;
      chunk := chunks[0].start;
      sweepHp := chunk;
      limit := chunks[0].end;
      SweepValid();
    }

    /** One round of `mark_slice`: it does some of the work left, and ends marking when
        there is none. */
    method MarkStep(statHeapSize: int) returns (cost: int, done: bool)
      requires Valid() && phase == MarkPhase
      modifies `heap, `gray, `graySize, `pure, `markHp, `chunk, `limit, `phase, `sweepHp
      ensures Valid() && (done <==> phase == WeakPhase) && (!done ==> phase == MarkPhase) && 0 <= cost
      ensures !done ==> (old(Left(heap)), old(!pure), old(Remaining(markHp, Top())) decreases to Left(heap), !pure,
                         Remaining(markHp, Top()))
      ensures Unmarked(heap) + cost == old(Unmarked(heap)) && (done ==> sweepHp == Bottom())
    {
      hide Collector.Valid, Left, Remaining, Unmarked, Collector.Bottom;
      cost, done := 0, false;
      if gray != [] {
        cost := MarkTop(statHeapSize);
      } else if markHp.At? {
        Scan();
      } else if !pure {
        StartScan();
      } else {
        EndMarking();
        done := true;
      }
    }

    /** Marks until the work is used up or marking is done: blocks of as many words become black. */
    method MarkSlice(work: int, statHeapSize: int)
      requires Valid() && phase == MarkPhase
      modifies `heap, `gray, `graySize, `pure, `markHp, `chunk, `limit, `phase, `sweepHp
      ensures Valid() && (phase == MarkPhase || (phase == WeakPhase && sweepHp == Bottom()))
      ensures phase == MarkPhase ==> Unmarked(heap) + work <= old(Unmarked(heap))
    {
      hide *;
      var left := work;
      while left > 0
        invariant Valid() && phase == MarkPhase && Unmarked(heap) + (work - left) == old(Unmarked(heap))
        decreases Left(heap), !pure, Remaining(markHp, Top())
      {
        var cost, done := MarkStep(statHeapSize);
        left := left - cost;
        if done {
          return;
        }
      }
    }

    /** With unlimited work, marking ends. */
    method MarkAll(statHeapSize: int)
      requires Valid() && phase == MarkPhase
      modifies `heap, `gray, `graySize, `pure, `markHp, `chunk, `limit, `phase, `sweepHp
      ensures Valid() && phase == WeakPhase
    {
      hide *;
      var done := false;
      while !done
        invariant Valid() && (done <==> phase == WeakPhase) && (!done ==> phase == MarkPhase)
        decreases !done, Left(heap), !pure, Remaining(markHp, Top())
      {
        var cost;
        cost, done := MarkStep(statHeapSize);
      }
    }

    /** The weak phase: there are no weak arrays here. */
    method WeakStep()
      requires Valid() && phase == WeakPhase
      modifies `phase
      ensures Valid() && phase == SweepPhase
    {
      hide *;
      ValidParts();
      MutFields();
      phase := SweepPhase;
      SweepValid();
    }

    // ----- Sweeping -----

    /** Gives the block at `bp` back to free memory; it must not be a kept one.  Which free
        neighbours it is merged with depends on the free list. */
    method FlMergeBlock(bp: int) returns (adj: int)
      requires Tiled(heap, chunks) && InPlace(heap, chunks, chunk, limit, bp) && bp < limit && bp in heap
      requires heap[bp].color.White?
      requires bp !in w.at
      modifies `heap
      ensures Tiled(heap, chunks) && Freed(old(heap), heap, bp) && bp < adj && InPlace(heap, chunks, chunk, limit, adj)
      ensures forall a :: Live(heap, a) ==> !(bp < a < adj)
      ensures bp + 1 + |old(heap)[bp].fields| <= adj
    {
      hide Tiled, Freed, InPlace, Absorb;
      var next: bool := *;
      var prev: int := *;
      next := next && After(heap, bp) in heap && heap[After(heap, bp)].color.Blue?;
      if !(prev in heap && heap[prev].color.Blue? && After(heap, prev) == bp) {
        prev := -1;
      }
      Merged(heap, chunks, chunk, limit, bp, next, prev);
      var h := WithNext(heap, bp, next);
      NextLonger(heap, bp, next);
      adj := After(h, bp);
      heap := WithPrev(h, bp, prev);
    }

    /** Sweeps the block at the sweep pointer: a white one is not kept and is freed. */
    method SweepBlock() returns (cost: int)
      requires Valid() && phase == SweepPhase && sweepHp < limit
      modifies `heap, `sweepHp
      ensures Valid() && cost >= 1 && old(sweepHp) + cost <= sweepHp && w == old(w)
    {
      hide *;
      ValidParts();
      Facts();
      MutFields();
      var hp := sweepHp;
      PlaceIn(heap, chunks, chunk, limit, hp);
      NextInPlace(heap, chunks, chunk, limit, hp);
      AfterMore(heap, hp);
      cost := 1 + |heap[hp].fields|;
      ghost var h := heap;
      NeverGray(heap, w, hp, sweepHp);
      if heap[hp].color.White? {
        NotKept(heap, w, hp);
        var adj := FlMergeBlock(hp);
        SweepWhite(h, heap, w, hp, adj);
        MutFreed(h, heap, chunks, young, youngStart, youngPtr, youngEnd, w, roots, mroots, globals, globalData,
                 refTable, hp);
        FreedGray(h, heap, graySize, hp);
        sweepHp := adj;
      } else if heap[hp].color.Blue? {
        SweepBlue(heap, chunks, w, hp);
        sweepHp := hp + 1 + |heap[hp].fields|;
      } else {
        SweepBlack(heap, chunks, w, hp);
        Whitened(h, chunks, young, youngStart, youngPtr, youngEnd, w, roots, mroots, globals, globalData, refTable, hp,
                 graySize, chunk, limit);
        sweepHp := hp + 1 + |heap[hp].fields|;
        heap := heap[hp := heap[hp].(color := White)];
      }
      SweepValid();
    }

    /** From the end of a chunk the sweep goes on with the next, or the next cycle starts;
        then nothing is in use, empty blocks aside, that was not kept. */
    method SweepChunkEnd(statHeapSize: int) returns (done: bool)
      requires Valid() && phase == SweepPhase && sweepHp == limit && young == map[] && refTable == []
      modifies `heap, `gray, `graySize, `pure, `phase, `markHp, `w, `snap, `chunk, `limit, `sweepHp
      ensures Valid() && Fewer(w, old(w))
      ensures if done then phase == MarkPhase else phase == SweepPhase && w == old(w) && old(sweepHp) < sweepHp
      ensures done ==> w.loc.Keys == ReachSet(w.mem, RootIds(mroots, globals))
      ensures done ==> forall a {:trigger Live(heap, a)} :: Live(heap, a) && heap[a].fields != [] ==> a in old(w).at
    {
      hide *;
      ValidParts();
      Facts();
      MutFields();
      FewerSelf(w);
      EndsBelowTop(heap, chunks, chunk, limit);
      NoneBetween(heap, chunks, chunk, limit);
      match Following(chunks, chunk) {
        case NoChunk =>
          SweepDone(heap, w, limit);
          ghost var h := heap;
          StartCycle(statHeapSize);
          StillPrecise(h, heap, old(w));
          done := true;
        case Next(c) =>
          SweepHop(heap, w, limit, c.start);
          StartInPlace(heap, chunks, c);
          chunk := c.start;
          sweepHp := chunk;
          limit := c.end;
          SweepValid();
          done := false;
      }
    }

    /** Where the sweep pointer is. */
    lemma SweepBounds()
      requires Valid() && phase != MarkPhase
      ensures sweepHp <= limit <= Top()
    {
      hide *;
      ValidParts();
      Facts();
      TopIs();
      PlaceIn(heap, chunks, chunk, limit, sweepHp);
      EndsBelowTop(heap, chunks, chunk, limit);
    }

    /** One round of `sweep_slice`. */
    method SweepStep(statHeapSize: int) returns (cost: int, done: bool)
      requires Valid() && phase == SweepPhase && young == map[] && refTable == []
      modifies `heap, `gray, `graySize, `pure, `phase, `markHp, `w, `snap, `chunk, `limit, `sweepHp
      ensures Valid() && Fewer(w, old(w)) && 0 <= cost
      ensures if done then phase == MarkPhase else phase == SweepPhase && w == old(w) && old(sweepHp) < sweepHp <= Top()
      ensures !done ==> old(sweepHp) + cost <= sweepHp
      ensures done ==> w.loc.Keys == ReachSet(w.mem, RootIds(mroots, globals))
      ensures done ==> forall a {:trigger Live(heap, a)} :: Live(heap, a) && heap[a].fields != [] ==> a in old(w).at
    {
      hide *;
      SweepBounds();
      FewerSelf(w);
      cost, done := 0, false;
      if sweepHp < limit {
        cost := SweepBlock();
      } else {
        done := SweepChunkEnd(statHeapSize);
      }
      if !done {
        SweepBounds();
      }
    }

    /** Sweeps until the work is used up, as many words further, or the next cycle starts. */
    method SweepSlice(work: int, statHeapSize: int)
      requires Valid() && phase == SweepPhase && young == map[] && refTable == []
      modifies `heap, `gray, `graySize, `pure, `phase, `markHp, `w, `snap, `chunk, `limit, `sweepHp
      ensures Valid() && Fewer(w, old(w)) && (phase == MarkPhase || phase == SweepPhase)
      ensures phase == SweepPhase ==> w == old(w) && old(sweepHp) + work <= sweepHp <= Top()
      ensures phase == MarkPhase ==> w.loc.Keys == ReachSet(w.mem, RootIds(mroots, globals))
      ensures phase == MarkPhase ==>
                forall a {:trigger Live(heap, a)} :: Live(heap, a) && heap[a].fields != [] ==> a in old(w).at
    {
      hide Collector.Valid;
      var left := work;
      SweepBounds();
      while left > 0
        invariant Valid() && phase == SweepPhase && w == old(w) && sweepHp <= Top()
        invariant old(sweepHp) + (work - left) <= sweepHp
        decreases Top() - sweepHp
      {
        var cost, done := SweepStep(statHeapSize);
        left := left - cost;
        if done {
          return;
        }
      }
    }

    /** With unlimited work, the sweep ends, and only kept blocks are left in use. */
    method SweepAll(statHeapSize: int)
      requires Valid() && phase == SweepPhase && young == map[] && refTable == []
      modifies `heap, `gray, `graySize, `pure, `phase, `markHp, `w, `snap, `chunk, `limit, `sweepHp
      ensures Valid() && phase == MarkPhase && Fewer(w, old(w))
      ensures w.loc.Keys == ReachSet(w.mem, RootIds(mroots, globals))
      ensures forall a {:trigger Live(heap, a)} :: Live(heap, a) && heap[a].fields != [] ==> a in old(w).at
    {
      hide Collector.Valid;
      SweepBounds();
      while true
        invariant Valid() && phase == SweepPhase && w == old(w) && sweepHp <= Top()
        decreases Top() - sweepHp
      {
        var cost, done := SweepStep(statHeapSize);
        if done {
          return;
        }
      }
    }

    // ----- Slices and cycles -----

    /** Some work on the current phase: marking or sweeping goes on by as many words as there is
        work, or ends; the weak phase ends. At the end of the sweep nothing is in use, empty blocks
        aside, that was not kept, and the next cycle keeps exactly what the mutator can reach. */
    method MajorCollectionSlice(work: int, statHeapSize: int)
      requires Valid() && young == map[] && refTable == []
      modifies `heap, `gray, `graySize, `pure, `phase, `markHp, `w, `snap, `chunk, `limit, `sweepHp
      ensures Valid() && Fewer(w, old(w))
      ensures SliceDone(old(phase), old(Unmarked(heap)), old(sweepHp), work, phase, Unmarked(heap), sweepHp, Bottom())
      ensures phase == SweepPhase ==> sweepHp <= Top()
      ensures old(phase) == SweepPhase && phase == MarkPhase ==> w.loc.Keys == ReachSet(w.mem, RootIds(mroots, globals))
      ensures old(phase) == SweepPhase && phase == MarkPhase ==>
                forall a {:trigger Live(heap, a)} :: Live(heap, a) && heap[a].fields != [] ==> a in old(w).at
      ensures !(old(phase) == SweepPhase && phase == MarkPhase) ==> w == old(w)
    {
      hide Collector.Valid, Unmarked, Collector.Bottom, Collector.Top, Fewer;
      FewerSelf(w);
      match phase {
        case MarkPhase => MarkSlice(work, statHeapSize);
        case WeakPhase => WeakStep();
        case SweepPhase => SweepSlice(work, statHeapSize);
      }
      if phase == SweepPhase {
        SweepBounds();
      }
    }

    /** Slices of positive work alone complete the cycle: there are at most three more of them than
        the words to be marked and to be swept make up. */
    method SlicesComplete(work: int, statHeapSize: int) returns (n: nat)
      requires Valid() && young == map[] && refTable == [] && work > 0
      modifies `heap, `gray, `graySize, `pure, `phase, `markHp, `w, `snap, `chunk, `limit, `sweepHp
      ensures Valid() && phase == MarkPhase && Fewer(w, old(w))
      ensures w.loc.Keys == ReachSet(w.mem, RootIds(mroots, globals))
      ensures forall a {:trigger Live(heap, a)} :: Live(heap, a) && heap[a].fields != [] ==> a in old(w).at
      ensures (n - 3) * work <= if old(phase) == MarkPhase then old(Unmarked(heap)) + Top() - Bottom()
                                else Top() - old(sweepHp)
    {
      hide Collector.Valid, Unmarked, Collector.Bottom, Collector.Top, Fewer;
      n := 0;
      while phase == MarkPhase
        invariant Valid() && young == map[] && refTable == [] && w == old(w)
        invariant phase == MarkPhase ==> old(phase) == MarkPhase && n * work + Unmarked(heap) <= old(Unmarked(heap))
        invariant phase == WeakPhase && old(phase) == MarkPhase ==>
                    (n - 1) * work <= old(Unmarked(heap)) && sweepHp == Bottom()
        invariant phase == WeakPhase && old(phase) != MarkPhase ==>
                    old(phase) == WeakPhase && n == 0 && sweepHp == old(sweepHp)
        invariant phase == SweepPhase ==> old(phase) == SweepPhase && n == 0 && sweepHp == old(sweepHp)
        decreases if phase == MarkPhase then 1 + Unmarked(heap) else 0
      {
        MajorCollectionSlice(work, statHeapSize);
        OneMore(n, work);
        n := n + 1;
      }
      if phase == WeakPhase {
        MajorCollectionSlice(work, statHeapSize);
        OneMore(n - 1, work);
        OneMore(n, work);
        n := n + 1;
      }
      TwoLess(n, work);
      ghost var m, k, start := n, 0, sweepHp;
      assert (m - 2) * work <= if old(phase) == MarkPhase then old(Unmarked(heap)) else 0;
      SweepBounds();
      while true
        invariant Valid() && young == map[] && refTable == [] && w == old(w) && phase == SweepPhase
        invariant n == m + k && k * work <= sweepHp - start && sweepHp <= Top()
        decreases Top() - sweepHp
      {
        MajorCollectionSlice(work, statHeapSize);
        n := n + 1;
        if phase == MarkPhase {
          Sum(m, k, work);
          return;
        }
        OneMore(k, work);
        k := k + 1;
      }
    }

    /** Completes the cycle.  What the next one starts from is exactly what the mutator can
        reach; what was not kept in this one has been freed. */
    method FinishMajorCycle(statHeapSize: int)
      requires Valid() && young == map[] && refTable == []
      modifies `heap, `gray, `graySize, `pure, `phase, `markHp, `w, `snap, `chunk, `limit, `sweepHp
      ensures Valid() && phase == MarkPhase && Fewer(w, old(w))
      ensures w.loc.Keys == ReachSet(w.mem, RootIds(mroots, globals))
      ensures forall a {:trigger Live(heap, a)} :: Live(heap, a) && heap[a].fields != [] ==> a in old(w).at
    {
      hide Collector.Valid;
      if phase == MarkPhase {
        MarkAll(statHeapSize);
      }
      if phase == WeakPhase {
        WeakStep();
      }
      SweepAll(statHeapSize);
    }

    /** A full collection finishes two cycles: then every block in use, empty ones aside,
        holds an object that the mutator can reach. */
    method FullMajor(statHeapSize: int)
      requires Valid() && young == map[] && refTable == []
      modifies `heap, `gray, `graySize, `pure, `phase, `markHp, `w, `snap, `chunk, `limit, `sweepHp
      ensures Valid() && Fewer(w, old(w))
      ensures forall a {:trigger Live(heap, a)} :: Live(heap, a) && heap[a].fields != [] ==>
                exists i :: i in ReachSet(w.mem, RootIds(mroots, globals)) && i in w.loc && w.loc[i] == a
    {
      hide Collector.Valid, Collector.Mut, WorldOk, ReachSet, RootIds, Fewer;
      FinishMajorCycle(statHeapSize);
      ValidParts();
      Facts();
      ghost var before := w;
      FinishMajorCycle(statHeapSize);
      FewerTwice(w, before, old(w));
      forall a {:trigger Live(heap, a)} | Live(heap, a) && heap[a].fields != []
        ensures exists i :: i in ReachSet(w.mem, RootIds(mroots, globals)) && i in w.loc && w.loc[i] == a
      {
        ReachedPlaces(before, w, RootIds(mroots, globals), a);
      }
    }

    lemma SweepValid()
      requires MutOk(heap, chunks, young, youngStart, youngPtr, youngEnd, w, roots, mroots, globals, globalData,
                     refTable)
      requires phase != MarkPhase && GrayInv(heap, gray, graySize, pure, markHp) && gray == [] && pure && markHp.Null?
      requires SweepInv(heap, w, sweepHp) && Swept(heap, w, sweepHp) && InPlace(heap, chunks, chunk, limit, sweepHp)
      ensures Valid()
    {
      hide MutOk, GrayInv, SweepInv, Swept, InPlace;
    }
  }

  /** What a slice has done: `unmarked` are the words that marking may still have to do. */
  ghost predicate SliceDone(before: Phase, unmarked0: int, sweep0: int, work: int, after: Phase, unmarked: int,
                            sweep: int, bottom: int) {
    match before
    case MarkPhase => if after == MarkPhase then unmarked + work <= unmarked0 else after == WeakPhase && sweep == bottom
    case WeakPhase => after == SweepPhase && sweep == sweep0
    case SweepPhase => after == MarkPhase || (after == SweepPhase && sweep0 + work <= sweep)
  }

  lemma OneMore(n: int, work: int)
    ensures (n + 1) * work == n * work + work
  {
  }

  lemma TwoLess(n: int, work: int)
    ensures (n - 2) * work == n * work - 2 * work
  {
  }

  lemma Sum(m: int, k: int, work: int)
    ensures (m + k + 1 - 3) * work == (m - 2) * work + k * work
  {
    assert m + k + 1 - 3 == (m - 2) + k;
  }

  /** Joining the next block only makes a block longer. */
  lemma NextLonger(h: Heap, bp: int, next: bool)
    requires bp in h && (next ==> After(h, bp) in h)
    ensures bp in WithNext(h, bp, next) && bp + 1 + |h[bp].fields| <= After(WithNext(h, bp, next), bp)
  {
  }

  lemma EndsBelowTop(h: Heap, chunks: seq<Chunk>, start: int, end: int)
    requires Tiled(h, chunks)
    ensures Chunk(start, end) in chunks ==> end <= chunks[|chunks| - 1].end
    ensures forall p ::
              InPlace(h, chunks, start, end, p) ==> Chunk(start, end) in chunks && start <= p <= end && chunks != []
  {
    if Chunk(start, end) in chunks {
      var i :| 0 <= i < |chunks| && chunks[i] == Chunk(start, end);
    }
  }

  lemma NotKept(h: Heap, w: World, hp: int)
    requires SweepInv(h, w, hp) && hp in h && h[hp].color.White?
    ensures hp !in w.at
  {
  }

  lemma NeverGray(h: Heap, w: World, hp: int, sweepHp: int)
    requires SweepInv(h, w, sweepHp) && hp in h
    ensures !h[hp].color.Gray?
  {
  }

  lemma FreedGray(h: Heap, h': Heap, size: int, bp: int)
    requires GrayInv(h, [], size, true, Null) && Freed(h, h', bp)
    ensures GrayInv(h', [], size, true, Null)
  {
    forall a | a in h'
      ensures !h'[a].color.Gray?
    {
      assert Live(h', a) ==> h'[a] == h[a];
    }
  }

  lemma Whitened(h: Heap, chunks: seq<Chunk>, young: Heap, lo: int, ptr: int, hi: int, w: World,
                 roots: seq<Value>, mroots: seq<Value>, globals: int, globalData: int, refTable: seq<Slot>, hp: int,
                 size: int, chunk: int, limit: int)
    requires MutOk(h, chunks, young, lo, ptr, hi, w, roots, mroots, globals, globalData, refTable) && hp in h
    requires h[hp].color.Black?
    requires GrayInv(h, [], size, true, Null)
    ensures var h' := h[hp := h[hp].(color := White)];
            MutOk(h', chunks, young, lo, ptr, hi, w, roots, mroots, globals, globalData, refTable) &&
              GrayInv(h', [], size, true, Null) &&
            forall p :: InPlace(h, chunks, chunk, limit, p) ==> InPlace(h', chunks, chunk, limit, p)
  {
    hide WorldOk, Kept, HeapHolds, RefOk, Tiled, RootsOk;
    var h' := h[hp := h[hp].(color := White)];
    SameSize(h, chunks, hp, h[hp].(color := White));
    MutRecolored(h, h', chunks, young, lo, ptr, hi, w, roots, mroots, globals, globalData, refTable);
    forall a | a in h'
      ensures !h'[a].color.Gray?
    {
      assert a != hp ==> h'[a] == h[a];
    }
  }

  lemma SweepDone(h: Heap, w: World, end: int)
    requires SweepInv(h, w, end) && Swept(h, w, end) && forall a :: a in h ==> a < end
    ensures forall a :: a in h ==> h[a].color.White? || h[a].color.Blue?
    ensures forall a {:trigger Live(h, a)} :: Live(h, a) && h[a].fields != [] ==> a in w.at
  {
  }

  lemma StillPrecise(h: Heap, h': Heap, w: World)
    requires Darker(h, h') && forall a {:trigger Live(h, a)} :: Live(h, a) && h[a].fields != [] ==> a in w.at
    ensures forall a {:trigger Live(h', a)} :: Live(h', a) && h'[a].fields != [] ==> a in w.at
  {
    forall a | Live(h', a) && h'[a].fields != []
      ensures a in w.at
    {
      assert h'[a] == h[a].(color := h'[a].color);
      assert Live(h, a);
    }
  }

  /** The kept objects of the first world are where the second one has them. */
  lemma ReachedPlaces(v: World, w: World, ids: set<int>, a: int)
    requires WorldOk(v) && v.loc.Keys == ReachSet(v.mem, ids) && w.loc.Keys == ReachSet(w.mem, ids) && Fewer(w, v)
    requires a in v.at
    ensures exists i :: i in ReachSet(w.mem, ids) && i in w.loc && w.loc[i] == a
  {
    hide ReachSet;
    var i := v.at[a];
    assert i in v.loc && i in v.loc.Keys && i in w.loc.Keys && w.loc[i] == a;
  }

  lemma RemainingNull(p: int, top: int)
    ensures Remaining(Null, top) < Remaining(At(p), top)
  {
  }

  lemma RemainingLess(p: int, q: int, top: int)
    requires p < q <= top
    ensures Remaining(At(q), top) < Remaining(At(p), top)
  {
  }

  lemma PlaceIn(h: Heap, chunks: seq<Chunk>, start: int, end: int, p: int)
    requires InPlace(h, chunks, start, end, p)
    ensures start <= p <= end && (p < end ==> p in h)
  {
  }

  lemma AfterMore(h: Heap, p: int)
    requires p in h
    ensures p < After(h, p) == p + 1 + |h[p].fields|
  {
  }

  lemma FirstChunk(h: Heap, chunks: seq<Chunk>)
    requires Tiled(h, chunks) && chunks != []
    ensures chunks[0] in chunks && forall a :: a in h ==> chunks[0].start <= a
  {
    forall a | a in h
      ensures chunks[0].start <= a
    {
      assert TileAt(h, chunks, a);
      var i :| 0 <= i < |chunks| && chunks[i].start <= a && After(h, a) <= chunks[i].end;
      assert StartsAt(h, chunks, 0);
    }
  }

  lemma NoneGray(h: Heap, size: int)
    requires GrayInv(h, [], size, true, Null)
    ensures NoGray(h)
  {
  }

  /** Object `x` is in the block at `v`. */
  ghost predicate HeldObject(h: Heap, w: World, v: int, x: int) {
    && WorldOk(w) && v in w.at && w.at[v] == x && HoldsAt(h, w, {}, v)
  }

  lemma HeldStart(h: Heap, w: World, v: int)
    requires WorldOk(w) && HeapHolds(h, w, {}) && v in h && v in w.at && h[v].color.Gray?
    ensures HeldObject(h[v := h[v].(color := Black)], w, v, w.at[v]) && w.at[v] in w.mem
    ensures |w.mem[w.at[v]].fields| == |h[v].fields|
  {
    assert HoldsAt(h, w, {}, v);
  }

  lemma HeldFacts(h: Heap, w: World, v: int, x: int)
    requires HeldObject(h, w, v, x)
    ensures v in h && v in w.at && x in w.loc && x in w.mem && |w.mem[x].fields| == |h[v].fields|
    ensures h[v].tag == w.mem[x].tag
    ensures forall k :: 0 <= k < |h[v].fields| ==>
              h[v].fields[k] == Conc(w.loc, w.mem[x].fields[k]) && Known(w.loc, w.mem[x].fields[k])
  {
    assert w.at[v] == x;
    assert Closed(w, x);
  }

  lemma BlackenedMut(h: Heap, chunks: seq<Chunk>, young: Heap, lo: int, ptr: int, hi: int, w: World,
                     roots: seq<Value>, mroots: seq<Value>, globals: int, globalData: int, refTable: seq<Slot>, v: int)
    requires MutOk(h, chunks, young, lo, ptr, hi, w, roots, mroots, globals, globalData, refTable) && v in h
    requires h[v].color.Gray?
    ensures MutOk(h[v := h[v].(color := Black)], chunks, young, lo, ptr, hi, w, roots, mroots, globals, globalData,
                  refTable)
  {
    hide WorldOk, Kept, HeapHolds, RefOk, Tiled, RootsOk;
    SameSize(h, chunks, v, h[v].(color := Black));
    MutRecolored(h, h[v := h[v].(color := Black)], chunks, young, lo, ptr, hi, w, roots, mroots, globals, globalData,
                 refTable);
  }

  /** Darkening a field leaves it dark, unless it points out of the heap. */
  lemma FieldDone(h: Heap, chunks: seq<Chunk>, young: Heap, w: World, s: Snapshot, v: int, x: int, i: int)
    requires HeldObject(h, w, v, x) && Kept(h, young, w) && v in h && x in w.mem
    requires 0 <= i < |h[v].fields| == |w.mem[x].fields|
    requires MarkInv(h, w, s, x, i + 1) && ShadesOk(h, w, s)
    ensures var h' := Darkened(h, h[v].fields[i]);
            HeldObject(h', w, v, x) && h'.Keys == h.Keys && |h'[v].fields| == |h[v].fields| &&
            MarkInv(h', w, s, x, i) && ShadesOk(h', w, s)
  {
    HeldFacts(h, w, v, x);
    var c, m := h[v].fields[i], w.mem[x].fields[i];
    var h' := Darkened(h, c);
    DarkenedIs(h, c);
    assert h'[v] == h[v].(color := h'[v].color);
    DarkerMark(h, h', w, s, x, i + 1);
    assert Known(w.loc, m);
    if m.Ptr? {
      var a := w.loc[m.a];
      assert a in w.at && c == Ptr(a);
      assert Live(h, a) || a !in h;
      assert Dark(h', w, m) || a !in h';
    }
    FieldDarkened(h', w, s, x, i + 1);
    DarkenedShades(h, h', w, s, c);
  }

  lemma DarkenedShades(h: Heap, h': Heap, w: World, s: Snapshot, c: Value)
    requires ShadesOk(h, w, s) && h' == Darkened(h, c) && (c.Ptr? && c.a in h ==> c.a in w.at)
    ensures ShadesOk(h', w, s)
  {
    forall a | NotWhite(h', a)
      ensures a in w.at
    {
      assert NotWhite(h, a) || c == Ptr(a);
    }
  }

  lemma NoPointersHeld(h: Heap, w: World, s: Snapshot, v: int, x: int, m: int)
    requires HeldObject(h, w, v, x) && v in h && h[v].tag >= NO_SCAN_TAG && MarkInv(h, w, s, x, m)
    ensures MarkInv(h, w, s, -1, 0)
  {
    HeldFacts(h, w, v, x);
    NoPointers(h, w, s, x, m);
  }

  lemma StillInPlace(h: Heap, h': Heap, chunks: seq<Chunk>, chunk: int, limit: int, hp: Position)
    requires h.Keys <= h'.Keys
    ensures hp.At? && InPlace(h, chunks, chunk, limit, hp.p) ==> InPlace(h', chunks, chunk, limit, hp.p)
  {
  }

  lemma YoungApart(h: Heap, chunks: seq<Chunk>, young: Heap, lo: int, ptr: int, hi: int)
    requires Tiled(h, chunks) && YoungOk(young, lo, ptr, hi, chunks)
    ensures forall a :: lo <= a < hi ==> a !in h
    ensures forall a :: a in young ==> a !in h
  {
    forall a | a in h
      ensures !(lo <= a < hi)
    {
      assert TileAt(h, chunks, a);
      var i :| 0 <= i < |chunks| && chunks[i].start <= a && After(h, a) <= chunks[i].end;
    }
  }

  lemma MutTiled(h: Heap, chunks: seq<Chunk>, young: Heap, lo: int, ptr: int, hi: int, w: World,
                 roots: seq<Value>, mroots: seq<Value>, globals: int, globalData: int, refTable: seq<Slot>)
    requires MutOk(h, chunks, young, lo, ptr, hi, w, roots, mroots, globals, globalData, refTable)
    ensures Tiled(h, chunks)
  {
  }

  /** Only roots are gray yet, and nothing is black. */
  ghost predicate RootShades(h: Heap, w: World, ids: set<int>) {
    && (forall a {:trigger h[a]} :: a in h ==> !h[a].color.Black?)
    && (forall a {:trigger NotWhite(h, a)} :: NotWhite(h, a) ==> a in w.at && w.at[a] in ids)
  }

  /** The first roots and the global data have been darkened. */
  ghost predicate RootsDarkened(h0: Heap, h: Heap, w: World, ids: set<int>, mroots: seq<Value>, globals: int, n: int) {
    && 0 <= n <= |mroots| && Darker(h0, h) && RootShades(h, w, ids) && Dark(h, w, Ptr(globals))
    && forall k :: 0 <= k < n ==> Dark(h, w, mroots[k])
  }

  lemma GlobalsDarkened(h0: Heap, young: Heap, w: World, ids: set<int>, mroots: seq<Value>, globals: int,
                        globalData: int)
    requires WorldOk(w) && Kept(h0, young, w) && young == map[] && ids == RootIds(mroots, globals) && globals in w.loc
    requires w.loc[globals] == globalData
    requires forall a :: a in h0 ==> h0[a].color.White? || h0[a].color.Blue?
    ensures RootsDarkened(h0, Darkened(h0, Ptr(globalData)), w, ids, mroots, globals, 0)
  {
    hide Darkened, WorldOk, Dark, Kept;
    NothingDark(h0, w, ids);
    RootDarkened(h0, young, w, ids, Ptr(globalData), globals);
    DarkerTwice(h0, h0, Darkened(h0, Ptr(globalData)), Ptr(globalData));
  }

  lemma RootStep(h0: Heap, h: Heap, young: Heap, w: World, ids: set<int>, roots: seq<Value>, mroots: seq<Value>,
                 globals: int, n: int)
    requires WorldOk(w) && Kept(h, young, w) && young == map[] && RootsOk(roots, mroots, w.loc)
    requires ids == RootIds(mroots, globals)
    requires RootsDarkened(h0, h, w, ids, mroots, globals, n) && n < |mroots|
    ensures n < |roots| && RootsDarkened(h0, Darkened(h, roots[n]), w, ids, mroots, globals, n + 1)
  {
    hide Darkened, WorldOk, Dark, Kept, Darker, RootShades;
    var h' := Darkened(h, roots[n]);
    if mroots[n].Ptr? {
      assert mroots[n].a in ids;
      RootDarkened(h, young, w, ids, roots[n], mroots[n].a);
    } else {
      ImmDarkened(h, w, ids, roots[n], mroots[n]);
    }
    DarkerTwice(h0, h, h', roots[n]);
    forall v | Dark(h, w, v)
      ensures Dark(h', w, v)
    {
      DarkenedIs(h, roots[n]);
      DarkerDark(h, h', w, v);
    }
  }

  lemma RestrictKeys(w: World, ids: set<int>)
    requires ids <= w.loc.Keys
    ensures Fewer(Restrict(w, ids), w) && Restrict(w, ids).loc.Keys == ids
  {
  }

  lemma NothingDark(h: Heap, w: World, ids: set<int>)
    requires forall a :: a in h ==> h[a].color.White? || h[a].color.Blue?
    ensures RootShades(h, w, ids)
  {
  }

  lemma RootDarkened(h: Heap, young: Heap, w: World, ids: set<int>, v: Value, i: int)
    requires WorldOk(w) && Kept(h, young, w) && RootShades(h, w, ids) && i in ids && i in w.loc && v == Ptr(w.loc[i])
    requires young == map[]
    ensures RootShades(Darkened(h, v), w, ids) && Dark(Darkened(h, v), w, Ptr(i))
  {
    var a := w.loc[i];
    assert a in w.at && Live(h, a);
    DarkenedIs(h, v);
    forall b | NotWhite(Darkened(h, v), b)
      ensures b in w.at && w.at[b] in ids
    {
      assert NotWhite(h, b) || b == a;
    }
    assert h[a].color.White? || NotWhite(h, a);
  }

  lemma ImmDarkened(h: Heap, w: World, ids: set<int>, v: Value, m: Value)
    requires m.Imm? && v == Conc(w.loc, m) && RootShades(h, w, ids)
    ensures Darkened(h, v) == h && RootShades(Darkened(h, v), w, ids) && Dark(Darkened(h, v), w, m)
  {
  }

  lemma DarkerTwice(h0: Heap, h: Heap, h': Heap, v: Value)
    requires Darker(h0, h) && h' == Darkened(h, v)
    ensures Darker(h0, h')
  {
    DarkenedIs(h, v);
    forall a | a in h0
      ensures h'[a] == h0[a].(color := h'[a].color) && (h'[a].color.Blue? <==> h0[a].color.Blue?)
    {
      assert h[a] == h0[a].(color := h[a].color);
    }
    forall a | NotWhite(h0, a)
      ensures NotWhite(h', a)
    {
      assert NotWhite(h, a);
    }
  }

  lemma CycleStarts(h0: Heap, h: Heap, chunks: seq<Chunk>, young: Heap, lo: int, ptr: int, hi: int, w: World,
                    roots: seq<Value>, mroots: seq<Value>, globals: int, globalData: int)
    requires MutOk(h, chunks, young, lo, ptr, hi, w, roots, mroots, globals, globalData, []) && young == map[]
    requires RootsDarkened(h0, h, w, RootIds(mroots, globals), mroots, globals, |mroots|)
    ensures Darker(h0, h)
    ensures ReachSet(w.mem, RootIds(mroots, globals)) <= w.loc.Keys
    ensures var ids := RootIds(mroots, globals);
            var w', s := Restrict(w, ReachSet(w.mem, ids)), TakeSnapshot(w.mem, ids);
            MarkInv(h, w', s, -1, 0) && ShadesOk(h, w', s)
  {
    var ids := RootIds(mroots, globals);
    RootsKnown(roots, mroots, globals, w);
    forall r | r in ids
      ensures Dark(h, w, Ptr(r))
    {
      if r != globals {
        var k :| 0 <= k < |mroots| && mroots[k].Ptr? && mroots[k].a == r;
        assert Dark(h, w, mroots[k]);
      }
    }
    forall a | a in w.at
      ensures a in h
    {
      assert Live(h, a);
    }
    MarkStarts(h, w, ids);
  }

  lemma PushedOrDropped(h: Heap, g: seq<int>, size: int, p: bool, hp: Position, a: int, g': seq<int>, p': bool)
    requires (|g| + 1 < size || |g'| <= |g|) && |g'| < size && 2 <= size && a in h && h[a].color.White?
    requires GrayInv(h, g, |g| + 2, p, hp)
    requires (g' == g + [a] && p' == p) || (|g'| < |g + [a]| && g' == (g + [a])[..|g'|] && !p')
    ensures GrayInv(h[a := h[a].(color := Gray)], g', size, p', hp)
  {
    if g' == g + [a] && p' == p {
      Pushed(h, g, |g| + 2, p, hp, a);
    } else {
      Dropped(h, g, |g| + 2, p, hp, a, |g'|);
    }
  }
}
