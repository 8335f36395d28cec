/** Sweeping (src/runtime/major_gc.c) and the return of a block to free memory
    (src/runtime/freelist.c). */
module Sweeping {
  import opened Heaps
  import opened Tricolor

  /** While sweeping, kept blocks are black from `hp` on and white before it; all others
      are white or blue. */
  ghost predicate SweepInv(h: Heap, w: World, hp: int) {
    forall a {:trigger h[a]} :: a in h ==>
      if a in w.at then h[a].color == (if a >= hp then Black else White) else h[a].color.White? || h[a].color.Blue?
  }

  /** What is in use before `hp`, empty blocks aside, is kept. */
  ghost predicate Swept(h: Heap, w: World, hp: int) {
    forall a {:trigger Live(h, a)} :: Live(h, a) && a < hp && h[a].fields != [] ==> a in w.at
  }

  /** The block at `bp` has been given back: no other block in use has changed. */
  ghost predicate Freed(h: Heap, h': Heap, bp: int) {
    && h'.Keys <= h.Keys
    && (forall a {:trigger Live(h, a)} {:trigger a in h'} :: Live(h, a) && a != bp ==> a in h' && h'[a] == h[a])
    && (forall a {:trigger Live(h', a)} {:trigger h'[a]} ::
          Live(h', a) ==> Live(h, a) && h'[a] == h[a] && (a == bp ==> h[a].fields == []))
  }

  // ----- Merging free blocks -----

  /** The free list offers the block right behind `bp`, or the one right before it, to merge with. */
  ghost predicate Offers(h: Heap, bp: int, next: bool, prev: int) {
    && bp in h
    && (next ==> After(h, bp) in h && h[After(h, bp)].color.Blue?)
    && (prev != -1 ==> prev in h && h[prev].color.Blue? && After(h, prev) == bp)
  }

  function WithNext(h: Heap, bp: int, next: bool): (h': Heap)
    requires bp in h && (next ==> After(h, bp) in h)
  {
    if next then Absorb(h, bp) else h
  }

  function WithPrev(h: Heap, bp: int, prev: int): (h': Heap)
    requires bp in h && (prev != -1 ==> prev in h && After(h, prev) == bp)
  {
    if prev != -1 then Absorb(h, prev)
    else if |h[bp].fields| > 0 then h[bp := h[bp].(color := Blue)]
    else h
  }

  lemma AbsorbFreed(h: Heap, chunks: seq<Chunk>, a: int)
    requires Tiled(h, chunks) && a in h && After(h, a) in h
    ensures Absorb(h, a).Keys == h.Keys - {After(h, a)} && Absorb(h, a)[a].color.Blue?
    ensures forall x :: x in Absorb(h, a) && x != a ==> Absorb(h, a)[x] == h[x]
  {
  }

  /** The block at `bp` may have grown, others in use are the same. */
  ghost predicate Reshaped(h: Heap, h': Heap, bp: int) {
    && h'.Keys <= h.Keys
    && (forall a {:trigger Live(h, a)} {:trigger a in h'} :: Live(h, a) && a != bp ==> a in h' && h'[a] == h[a])
    && (forall a {:trigger Live(h', a)} {:trigger h'[a]} :: Live(h', a) ==> Live(h, a) && h'[a] == h[a])
  }

  lemma ReshapedFreed(h: Heap, h1: Heap, h2: Heap, bp: int)
    requires Reshaped(h, h1, bp) && Freed(h1, h2, bp)
    ensures Freed(h, h2, bp)
  {
    forall a | Live(h, a) && a != bp
      ensures a in h2 && h2[a] == h[a]
    {
      assert Live(h1, a);
    }
    forall a | Live(h2, a)
      ensures Live(h, a) && h2[a] == h[a] && (a == bp ==> h[a].fields == [])
    {
      assert Live(h1, a);
    }
  }

  lemma NextMerged(h: Heap, chunks: seq<Chunk>, bp: int, next: bool, prev: int)
    requires Tiled(h, chunks) && Offers(h, bp, next, prev) && h[bp].color.White?
    ensures var h' := WithNext(h, bp, next);
            Tiled(h', chunks) && bp in h' &&
              (prev != -1 ==> prev in h' && After(h', prev) == bp && h'[prev].color.Blue?) &&
            h'.Keys <= h.Keys && After(h, bp) <= After(h', bp)
    ensures Reshaped(h, WithNext(h, bp, next), bp)
    ensures WithNext(h, bp, next)[bp].color.White? || WithNext(h, bp, next)[bp].color.Blue?
  {
    if next {
      AbsorbTiled(h, chunks, bp);
      AbsorbFreed(h, chunks, bp);
      hide Absorb, Tiled;
      var h' := Absorb(h, bp);
      if prev != -1 {
        assert prev != bp && prev != After(h, bp);
        assert h'[prev] == h[prev];
      }
    }
  }

  lemma PrevMerged(h: Heap, chunks: seq<Chunk>, bp: int, prev: int)
    requires Tiled(h, chunks) && bp in h && !h[bp].color.Gray? && !h[bp].color.Black?
    requires prev != -1 ==> prev in h && After(h, prev) == bp && h[prev].color.Blue?
    ensures var h' := WithPrev(h, bp, prev);
            Tiled(h', chunks) && Freed(h, h', bp)
  {
    if prev != -1 {
      AbsorbTiled(h, chunks, prev);
      AbsorbFreed(h, chunks, prev);
    } else if |h[bp].fields| > 0 {
      SameSize(h, chunks, bp, h[bp].(color := Blue));
    }
  }

  /** A white block is given back to free memory, merged with the free neighbours that the
      list offers; the next block to sweep starts at `adj`. */
  lemma Merged(h: Heap, chunks: seq<Chunk>, start: int, end: int, bp: int, next: bool, prev: int)
    requires Tiled(h, chunks) && Offers(h, bp, next, prev) && h[bp].color.White?
    requires InPlace(h, chunks, start, end, bp) && bp < end
    ensures Offers(h, bp, next, prev) && WithNext(h, bp, next).Keys <= h.Keys
    ensures var h1 := WithNext(h, bp, next);
            bp in h1 && (prev != -1 ==> prev in h1 && After(h1, prev) == bp) &&
            var h2, adj := WithPrev(h1, bp, prev), After(h1, bp);
            Tiled(h2, chunks) && Freed(h, h2, bp) && bp < adj && InPlace(h2, chunks, start, end, adj) &&
            forall a :: Live(h2, a) ==> !(bp < a < adj)
  {
    hide WithNext, WithPrev, Tiled, Freed, Reshaped;
    var h1 := WithNext(h, bp, next);
    NextMerged(h, chunks, bp, next, prev);
    PrevMerged(h1, chunks, bp, prev);
    ReshapedFreed(h, h1, WithPrev(h1, bp, prev), bp);
    assert InPlace(h1, chunks, start, end, bp);
    NextInPlace(h1, chunks, start, end, bp);
    AdjKept(h1, chunks, bp, prev);
  }

  /** Merging with the block before leaves what comes after in place. */
  lemma AdjKept(h: Heap, chunks: seq<Chunk>, bp: int, prev: int)
    requires Tiled(h, chunks) && bp in h && (prev != -1 ==> prev in h && After(h, prev) == bp)
    ensures After(h, bp) in h ==> After(h, bp) in WithPrev(h, bp, prev)
    ensures forall a :: a in WithPrev(h, bp, prev) ==> !(bp < a < After(h, bp))
  {
  }

  // ----- One step of sweeping -----

  /** A black block becomes white as the sweep passes it. */
  lemma SweepBlack(h: Heap, chunks: seq<Chunk>, w: World, hp: int)
    requires Tiled(h, chunks) && SweepInv(h, w, hp) && Swept(h, w, hp) && hp in h && h[hp].color.Black?
    ensures hp in w.at
    ensures var h' := h[hp := h[hp].(color := White)];
            SweepInv(h', w, After(h, hp)) && Swept(h', w, After(h, hp)) && Tiled(h', chunks)
  {
    SameSize(h, chunks, hp, h[hp].(color := White));
    var h' := h[hp := h[hp].(color := White)];
    forall a | Live(h', a) && a < After(h, hp) && h'[a].fields != []
      ensures a in w.at
    {
      assert Live(h, a);
    }
  }

  /** A free block is passed over. */
  lemma SweepBlue(h: Heap, chunks: seq<Chunk>, w: World, hp: int)
    requires Tiled(h, chunks) && SweepInv(h, w, hp) && Swept(h, w, hp) && hp in h && h[hp].color.Blue?
    ensures hp !in w.at && SweepInv(h, w, After(h, hp)) && Swept(h, w, After(h, hp))
  {
  }

  /** A white block is not kept, so it can be freed. */
  lemma SweepWhite(h: Heap, h': Heap, w: World, hp: int, adj: int)
    requires SweepInv(h, w, hp) && Swept(h, w, hp) && hp in h && h[hp].color.White? && Freed(h, h', hp)
    requires hp < adj && forall a :: Live(h', a) ==> !(hp < a < adj)
    ensures hp !in w.at && SweepInv(h', w, adj) && Swept(h', w, adj)
  {
    assert hp !in w.at;
    forall a | a in h'
      ensures if a in w.at then h'[a].color == (if a >= adj then Black else White)
              else h'[a].color.White? || h'[a].color.Blue?
    {
      if Live(h', a) {
        assert h'[a] == h[a];
      } else if a in w.at {
        assert Live(h, a);
      }
    }
  }

  /** From the end of a chunk the sweep goes on at the start of the next one. */
  lemma SweepHop(h: Heap, w: World, end: int, start: int)
    requires SweepInv(h, w, end) && Swept(h, w, end) && end <= start && forall a :: a in h && a < start ==> a < end
    ensures SweepInv(h, w, start) && Swept(h, w, start)
  {
  }

  /** Marking done, the sweep starts at the first chunk: all kept blocks are black. */
  lemma SweepStarts(h: Heap, w: World, hp: int)
    requires forall a :: a in h && a in w.at ==> h[a].color.Black?
    requires forall a :: a in h && a !in w.at ==> !h[a].color.Black? && !h[a].color.Gray?
    requires forall a :: a in h ==> hp <= a
    ensures SweepInv(h, w, hp) && Swept(h, w, hp)
  {
  }

  /** Allocation while sweeping: black from the sweep pointer on, white before it. */
  lemma AddSwept(h: Heap, h': Heap, w: World, i: int, o: Obj, a: int, hp: int)
    requires SweepInv(h, w, hp) && Swept(h, w, hp) && a !in w.at && SameKept(h, h', w)
    requires Allocated(h, h', a, |o.fields|, o.tag, if a >= hp then Black else White)
    ensures SweepInv(h', Add(w, i, o, a), hp) && Swept(h', Add(w, i, o, a), hp)
  {
    var w' := Add(w, i, o, a);
    forall b | b in h'
      ensures if b in w'.at then h'[b].color == (if b >= hp then Black else White)
              else h'[b].color.White? || h'[b].color.Blue?
    {
      if b != a && Live(h', b) && b !in w.at {
        assert Live(h, b) || h'[b] == Block(0, White, []);
      }
    }
    forall b | Live(h', b) && b < hp && h'[b].fields != []
      ensures b in w'.at
    {
      assert b != a ==> Live(h, b);
    }
  }
}
