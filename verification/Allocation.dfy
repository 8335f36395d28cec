/** Allocation in the major heap (src/runtime/memory.c, src/runtime/freelist.c). */
module Allocation {
  import opened Heaps
  import opened Tricolor
  import opened Sweeping
  import opened Marking
  import opened Collectors

  /** Where the chunk starting at `mem` goes in the sorted list. */
  method FindPlace(chunks: seq<Chunk>, mem: int) returns (i: int)
    requires ChunksOk(chunks)
    ensures 0 <= i <= |chunks| && (forall j :: 0 <= j < i ==> chunks[j].start < mem)
    ensures (i < |chunks| ==> mem <= chunks[i].start)
  {
    i := 0;
    while i < |chunks| && chunks[i].start < mem
      invariant 0 <= i <= |chunks| && forall j :: 0 <= j < i ==> chunks[j].start < mem
    {
      i := i + 1;
    }
  }

  /** Memory of the given size that is apart from all memory in use, at `mem`. */
  predicate Usable(chunks: seq<Chunk>, i: int, c: Chunk, lo: int, hi: int) {
    && 0 <= i <= |chunks| && c.start < c.end && (c.end <= lo || hi <= c.start)
    && (i > 0 ==> chunks[i - 1].end < c.start) && (i < |chunks| ==> c.end < chunks[i].start)
  }

  lemma UsableBetween(chunks: seq<Chunk>, i: int, c: Chunk, lo: int, hi: int)
    requires ChunksOk(chunks) && Usable(chunks, i, c, lo, hi)
    ensures Between(chunks, i, c)
  {
  }

  /** Adds a chunk that is one free block, unless there is no more memory. */
  method ExpandHeap(c: Collector, request: int, increment: int) returns (block: int, ok: bool)
    requires request >= 1 && Tiled(c.heap, c.chunks) && YoungOk(c.young, c.youngStart, c.youngPtr, c.youngEnd, c.chunks)
    modifies c`heap, c`chunks
    ensures Tiled(c.heap, c.chunks) && YoungOk(c.young, c.youngStart, c.youngPtr, c.youngEnd, c.chunks)
    ensures forall k :: k in old(c.chunks) ==> k in c.chunks
    ensures !ok ==> c.heap == old(c.heap) && c.chunks == old(c.chunks)
    ensures ok ==> block !in old(c.heap)
    ensures ok ==> exists k: Chunk ::
                     k.start == block && c.heap == Grown(old(c.heap), k) && k.end - k.start >= request + 1
  {
    hide Tiled, YoungOk;
    TiledChunks(c.heap, c.chunks);
    var size := if request + 1 < increment then increment else request + 1;
    var mem: int := *;
    var i := FindPlace(c.chunks, mem);
    var k := Chunk(mem, mem + size);
    if !Usable(c.chunks, i, k, c.youngStart, c.youngEnd) {
      return 0, false;
    }
    UsableBetween(c.chunks, i, k, c.youngStart, c.youngEnd);
    GrownTiled(c.heap, c.chunks, i, k);
    GrownYoung(c.chunks, i, k, c.young, c.youngStart, c.youngPtr, c.youngEnd);
    c.heap := Grown(c.heap, k);
    c.chunks := Insert(c.chunks, i, k);
    block, ok := mem, true;
  }

  lemma TiledChunks(h: Heap, chunks: seq<Chunk>)
    requires Tiled(h, chunks)
    ensures ChunksOk(chunks)
  {
  }

  lemma GrownYoung(chunks: seq<Chunk>, i: int, k: Chunk, young: Heap, lo: int, ptr: int, hi: int)
    requires 0 <= i <= |chunks| && YoungOk(young, lo, ptr, hi, chunks) && (k.end <= lo || hi <= k.start)
    ensures YoungOk(young, lo, ptr, hi, Insert(chunks, i, k)) && forall j :: j in chunks ==> j in Insert(chunks, i, k)
  {
    var s := Insert(chunks, i, k);
    forall j | 0 <= j < |s|
      ensures s[j].end <= lo || hi <= s[j].start
    {
      assert s[j] == if j < i then chunks[j] else if j == i then k else chunks[j - 1];
    }
    forall c | c in chunks
      ensures c in s
    {
      var j :| 0 <= j < |chunks| && chunks[j] == c;
      assert s[if j < i then j else j + 1] == c;
    }
  }

  /** The colour of a block allocated at `hp`. */
  function NewColor(phase: Phase, sweepHp: int, hp: int): Color {
    if phase == MarkPhase || hp >= sweepHp then Black else White
  }

  /** No free block has room for `n` words. */
  ghost predicate NoFree(h: Heap, n: int) {
    forall a {:trigger h[a]} :: a in h && h[a].color.Blue? ==> |h[a].fields| < n
  }

  /** Takes a block from free memory, which grows when no free block is large enough. */
  method AllocShr(c: Collector, wosize: int, tag: int, increment: int) returns (hp: int, ok: bool)
    requires wosize >= 1 && Tiled(c.heap, c.chunks) && YoungOk(c.young, c.youngStart, c.youngPtr, c.youngEnd, c.chunks)
    modifies c`heap, c`chunks
    ensures Tiled(c.heap, c.chunks) && YoungOk(c.young, c.youngStart, c.youngPtr, c.youngEnd, c.chunks)
    ensures forall k :: k in old(c.chunks) ==> k in c.chunks
    ensures ok ==> Allocated(old(c.heap), c.heap, hp, wosize, tag, NewColor(c.phase, c.sweepHp, hp))
    ensures !ok ==> c.heap == old(c.heap) && c.chunks == old(c.chunks)
    ensures !ok ==> NoFree(c.heap, wosize)
  {
    hide Tiled, YoungOk, Allocated, Grown;
    ghost var h := c.heap;
    hp := 0;
    if cur :| cur in c.heap && c.heap[cur].color.Blue? && |c.heap[cur].fields| >= wosize {
      hp := FromFree(c, cur, wosize, tag);
      ok := true;
    } else {
      var block;
      block, ok := ExpandHeap(c, wosize, increment);
      if ok {
        ghost var k: Chunk :| k.start == block && c.heap == Grown(h, k) && k.end - k.start >= wosize + 1;
        GrownBlock(h, k);
        hp := FromFree(c, block, wosize, tag);
        GrownAllocated(h, k, c.heap, hp, wosize, tag, NewColor(c.phase, c.sweepHp, hp));
      }
    }
  }

  lemma GrownBlock(h: Heap, k: Chunk)
    requires k.start < k.end
    ensures k.start in Grown(h, k) && Grown(h, k)[k.start].color.Blue?
    ensures |Grown(h, k)[k.start].fields| == k.end - k.start - 1
  {
  }

  method FromFree(c: Collector, cur: int, wosize: int, tag: int) returns (hp: int)
    requires wosize >= 1 && Tiled(c.heap, c.chunks) && cur in c.heap && c.heap[cur].color.Blue?
    requires |c.heap[cur].fields| >= wosize
    modifies c`heap
    ensures Tiled(c.heap, c.chunks)
    ensures Allocated(old(c.heap), c.heap, hp, wosize, tag, NewColor(c.phase, c.sweepHp, hp))
  {
    hide Tiled, Allocated, Allocate;
    hp := AllocAt(c.heap, cur, wosize);
    var color := NewColor(c.phase, c.sweepHp, hp);
    AllocateTiled(c.heap, c.chunks, cur, wosize, tag, color);
    AllocateAllocated(c.heap, c.chunks, cur, wosize, tag, color);
    c.heap := Allocate(c.heap, cur, wosize, tag, color);
  }

  // ----- Registering the object of a new block -----

  lemma GrayAllocated(h: Heap, h': Heap, gray: seq<int>, size: int, pure: bool, hp: Position, a: int, wosize: int,
                      tag: int, color: Color)
    requires GrayInv(h, gray, size, pure, hp) && Allocated(h, h', a, wosize, tag, color) && !color.Gray? && !color.Blue?
    ensures GrayInv(h', gray, size, pure, hp)
  {
    forall i | 0 <= i < |gray|
      ensures gray[i] in h' && h'[gray[i]].color.Gray?
    {
      assert Live(h, gray[i]);
    }
    forall x | x in h' && h'[x].color.Gray?
      ensures x in h && h[x].color.Gray?
    {
      assert Live(h', x);
    }
  }

  lemma InPlaceKept(h: Heap, h': Heap, chunks: seq<Chunk>, chunks': seq<Chunk>, chunk: int, limit: int, p: int)
    requires InPlace(h, chunks, chunk, limit, p) && h.Keys <= h'.Keys && forall k :: k in chunks ==> k in chunks'
    ensures InPlace(h', chunks', chunk, limit, p)
  {
  }

  /** The collector's invariant with a new object in a new block. */
  lemma PhaseAdded(phase: Phase, h: Heap, h': Heap, chunks: seq<Chunk>, chunks': seq<Chunk>, young: Heap, w: World,
                   s: Snapshot, gray: seq<int>, size: int, pure: bool, hp: Position, chunk: int, limit: int,
                   sweepHp: int, i: int, o: Obj, a: int)
    requires PhaseOk(phase, h, chunks, w, s, gray, size, pure, hp, chunk, limit, sweepHp)
    requires Allocated(h, h', a, |o.fields|, o.tag, NewColor(phase, sweepHp, a))
    requires forall k :: k in chunks ==> k in chunks'
    requires WorldOk(w) && Kept(h, young, w) && i !in w.mem && forall x :: x in young ==> x !in h'
    ensures PhaseOk(phase, h', chunks', Add(w, i, o, a), s, gray, size, pure, hp, chunk, limit, sweepHp)
  {
    hide GrayInv, MarkInv, ShadesOk, SweepInv, Swept, InPlace, Kept, WorldOk, Allocated;
    AllocatedSameKept(h, h', young, w, a, |o.fields|, o.tag, NewColor(phase, sweepHp, a));
    GrayAllocated(h, h', gray, size, pure, hp, a, |o.fields|, o.tag, NewColor(phase, sweepHp, a));
    KeysKept(h, h', a, |o.fields|, o.tag, NewColor(phase, sweepHp, a));
    if phase == MarkPhase {
      SameKeptMark(h, h', w, s);
      AddMark(h', w, s, i, o, a);
      KnownIds(w);
      AddShades(h, h', w, s, i, o, a);
      if hp.At? {
        InPlaceKept(h, h', chunks, chunks', chunk, limit, hp.p);
      }
    } else {
      AddSwept(h, h', w, i, o, a, sweepHp);
      InPlaceKept(h, h', chunks, chunks', chunk, limit, sweepHp);
    }
  }

  lemma KeysKept(h: Heap, h': Heap, hp: int, wosize: int, tag: int, color: Color)
    requires Allocated(h, h', hp, wosize, tag, color)
    ensures h.Keys <= h'.Keys
  {
  }

  lemma KnownIds(w: World)
    requires WorldOk(w)
    ensures forall b :: b in w.at ==> w.at[b] in w.mem
  {
    forall b | b in w.at
      ensures w.at[b] in w.mem
    {
      var i := w.at[b];
      assert i in w.loc;
    }
  }

  /** The object moves out of the young generation. */
  function Move(w: World, i: int, a: int): World
    requires i in w.loc
  {
    World(w.mem, w.loc[i := a], (map b | b in w.at && b != w.loc[i] :: w.at[b])[a := i])
  }

  lemma MoveWorld(w: World, i: int, a: int)
    requires WorldOk(w) && i in w.loc && a !in w.at
    ensures WorldOk(Move(w, i, a)) && Move(w, i, a).loc.Keys == w.loc.Keys
  {
    var w' := Move(w, i, a);
    forall j | j in w'.loc && j in w'.mem
      ensures Closed(w', j)
    {
      assert Closed(w, j);
    }
  }

  lemma MoveMark(h: Heap, w: World, s: Snapshot, i: int, a: int)
    requires WorldOk(w) && MarkInv(h, w, s, -1, 0) && i in w.loc && w.loc[i] !in h && a !in w.at
    ensures MarkInv(h, Move(w, i, a), s, -1, 0) && i !in s.mem
  {
    var w' := Move(w, i, a);
    assert i in s.mem ==> MarkOk(h, w, s, -1, 0, i);
    forall v | Dark(h, w, v)
      ensures Dark(h, w', v)
    {
    }
    hide Dark;
    forall j | j in s.mem
      ensures MarkOk(h, w', s, -1, 0, j)
    {
      assert MarkOk(h, w, s, -1, 0, j);
    }
  }

  lemma MoveShades(h: Heap, h': Heap, w: World, s: Snapshot, i: int, a: int, wosize: int, tag: int)
    requires WorldOk(w) && ShadesOk(h, w, s) && Allocated(h, h', a, wosize, tag, Black) && i !in s.mem && a !in w.at
    requires i in w.loc && w.loc[i] !in h && SameKept(h, h', w)
    ensures ShadesOk(h', Move(w, i, a), s)
  {
    var w' := Move(w, i, a);
    forall b | NotWhite(h', b)
      ensures b in w'.at
    {
      assert b != a ==> Live(h', b);
      assert b != a ==> NotWhite(h, b);
    }
  }

  lemma MoveSwept(h: Heap, h': Heap, w: World, i: int, a: int, wosize: int, tag: int, hp: int)
    requires WorldOk(w) && SweepInv(h, w, hp) && Swept(h, w, hp) && a !in w.at && SameKept(h, h', w)
    requires i in w.loc && w.loc[i] !in h
    requires Allocated(h, h', a, wosize, tag, if a >= hp then Black else White)
    ensures SweepInv(h', Move(w, i, a), hp) && Swept(h', Move(w, i, a), hp)
  {
    var w' := Move(w, i, a);
    forall b | b in h'
      ensures if b in w'.at then h'[b].color == (if b >= hp then Black else White)
              else h'[b].color.White? || h'[b].color.Blue?
    {
      if b != a && Live(h', b) && b !in w.at {
        assert Live(h, b) || h'[b] == Block(0, White, []);
      }
    }
    forall b | Live(h', b) && b < hp && h'[b].fields != []
      ensures b in w'.at
    {
      assert b != a ==> Live(h, b);
    }
  }

  /** The collector's invariant when a young object has got a block in the heap. */
  lemma PhaseMoved(phase: Phase, h: Heap, h': Heap, chunks: seq<Chunk>, chunks': seq<Chunk>, young: Heap, w: World,
                   s: Snapshot, gray: seq<int>, size: int, pure: bool, hp: Position, chunk: int, limit: int,
                   sweepHp: int, i: int, a: int, wosize: int, tag: int)
    requires PhaseOk(phase, h, chunks, w, s, gray, size, pure, hp, chunk, limit, sweepHp)
    requires Allocated(h, h', a, wosize, tag, NewColor(phase, sweepHp, a)) && forall k :: k in chunks ==> k in chunks'
    requires WorldOk(w) && Kept(h, young, w) && i in w.loc && w.loc[i] !in h && forall x :: x in young ==> x !in h'
    ensures PhaseOk(phase, h', chunks', Move(w, i, a), s, gray, size, pure, hp, chunk, limit, sweepHp)
  {
    hide GrayInv, MarkInv, ShadesOk, SweepInv, Swept, InPlace, Kept, WorldOk, Allocated;
    AllocatedSameKept(h, h', young, w, a, wosize, tag, NewColor(phase, sweepHp, a));
    GrayAllocated(h, h', gray, size, pure, hp, a, wosize, tag, NewColor(phase, sweepHp, a));
    KeysKept(h, h', a, wosize, tag, NewColor(phase, sweepHp, a));
    if phase == MarkPhase {
      MoveMark(h, w, s, i, a);
      SameKeptMark(h, h', w, s);
      YoungAddress(h, h', w, i);
      MoveMark(h', w, s, i, a);
      MoveShades(h, h', w, s, i, a, wosize, tag);
      if hp.At? {
        InPlaceKept(h, h', chunks, chunks', chunk, limit, hp.p);
      }
    } else {
      MoveSwept(h, h', w, i, a, wosize, tag, sweepHp);
      InPlaceKept(h, h', chunks, chunks', chunk, limit, sweepHp);
    }
  }

  lemma YoungAddress(h: Heap, h': Heap, w: World, i: int)
    requires WorldOk(w) && SameKept(h, h', w) && i in w.loc && w.loc[i] !in h
    ensures w.loc[i] !in h'
  {
    var a := w.loc[i];
    assert a in w.at;
  }

  // ----- Writing fields -----

  /** Only the contents of blocks differ. */
  ghost predicate Rewritten(h: Heap, h': Heap) {
    && h'.Keys == h.Keys
    && forall a {:trigger h'[a]} :: a in h ==> h'[a].color == h[a].color && |h'[a].fields| == |h[a].fields|
  }

  /** The collector's invariant does not depend on the contents of blocks. */
  lemma PhaseRewritten(phase: Phase, h: Heap, h': Heap, chunks: seq<Chunk>, w: World, s: Snapshot,
                       gray: seq<int>, size: int, pure: bool, hp: Position, chunk: int, limit: int, sweepHp: int)
    requires PhaseOk(phase, h, chunks, w, s, gray, size, pure, hp, chunk, limit, sweepHp) && Rewritten(h, h')
    requires WorldOk(w)
    ensures PhaseOk(phase, h', chunks, w, s, gray, size, pure, hp, chunk, limit, sweepHp)
  {
    RewrittenGray(h, h', gray, size, pure, hp);
    RewrittenShades(h, h', w, s, sweepHp);
    if phase == MarkPhase {
      RewrittenMark(h, h', w, s);
    }
  }

  lemma RewrittenGray(h: Heap, h': Heap, gray: seq<int>, size: int, pure: bool, hp: Position)
    requires GrayInv(h, gray, size, pure, hp) && Rewritten(h, h')
    ensures GrayInv(h', gray, size, pure, hp)
  {
    forall x | x in h' && h'[x].color.Gray? && pure && Before(hp, x)
      ensures x in gray
    {
      assert h[x].color.Gray?;
    }
  }

  lemma RewrittenMark(h: Heap, h': Heap, w: World, s: Snapshot)
    requires MarkInv(h, w, s, -1, 0) && Rewritten(h, h')
    ensures MarkInv(h', w, s, -1, 0)
  {
    forall v | Dark(h, w, v)
      ensures Dark(h', w, v)
    {
      if v.Ptr? {
        var a := w.loc[v.a];
        assert h'[a].color == h[a].color;
      }
    }
    hide Dark;
    forall i | i in s.mem
      ensures MarkOk(h', w, s, -1, 0, i)
    {
      assert MarkOk(h, w, s, -1, 0, i);
      var a := w.loc[i];
      assert h'[a].color == h[a].color;
    }
  }

  lemma RewrittenShades(h: Heap, h': Heap, w: World, s: Snapshot, sweepHp: int)
    requires Rewritten(h, h')
    ensures ShadesOk(h, w, s) ==> ShadesOk(h', w, s)
    ensures SweepInv(h, w, sweepHp) ==> SweepInv(h', w, sweepHp)
    ensures Swept(h, w, sweepHp) ==> Swept(h', w, sweepHp)
  {
    forall a | NotWhite(h', a)
      ensures NotWhite(h, a)
    {
      assert h'[a].color == h[a].color;
    }
    forall a | Live(h', a)
      ensures Live(h, a) && |h[a].fields| == |h'[a].fields|
    {
      assert h'[a].color == h[a].color;
    }
  }
}
