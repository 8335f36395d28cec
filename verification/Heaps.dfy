/** The major heap as a map from header addresses to blocks (src/runtime/major_gc.h,
    src/runtime/mlvalues.h, src/runtime/gc.h): the blocks of a chunk lie end to end. */
module Heaps {
  datatype Color = White | Gray | Blue | Black

  /** An immediate value (or a pointer out of the heap), or a pointer to a block. */
  datatype Value = Imm(n: int) | Ptr(a: int)

  datatype Block = Block(tag: int, color: Color, fields: seq<Value>)

  datatype Chunk = Chunk(start: int, end: int)

  type Heap = map<int, Block>

  const NO_SCAN_TAG := 251

  /** Where the block after the header at `a` would start. */
  function After(h: Heap, a: int): int
    requires a in h
  {
    a + 1 + |h[a].fields|
  }

  /** Chunks are sorted and never adjacent: a chunk is headed by a word of its own. */
  ghost predicate ChunksOk(chunks: seq<Chunk>) {
    && (forall i :: 0 <= i < |chunks| ==> chunks[i].start < chunks[i].end)
    && (forall i, j :: 0 <= i < j < |chunks| ==> chunks[i].end < chunks[j].start)
  }

  ghost predicate InChunk(chunks: seq<Chunk>, x: int, y: int) {
    exists i :: 0 <= i < |chunks| && chunks[i].start <= x && y <= chunks[i].end
  }

  ghost predicate IsEnd(chunks: seq<Chunk>, x: int) {
    exists i :: 0 <= i < |chunks| && chunks[i].end == x
  }

  /** The address is a header or the end of a chunk. */
  ghost predicate Boundary(h: Heap, chunks: seq<Chunk>, x: int) {
    x in h || IsEnd(chunks, x)
  }

  ghost predicate Apart(h: Heap) {
    forall a, b {:trigger a in h, b in h} :: a in h && b in h && a < b ==> After(h, a) <= b
  }

  /** The block lies in a chunk, and another one or the chunk's end comes next. */
  ghost predicate TileAt(h: Heap, chunks: seq<Chunk>, a: int)
    requires a in h
  {
    InChunk(chunks, a, After(h, a)) && Boundary(h, chunks, After(h, a))
  }

  ghost predicate StartsAt(h: Heap, chunks: seq<Chunk>, i: int) {
    0 <= i < |chunks| && chunks[i].start in h
  }

  /** The blocks tile the chunks. */
  ghost predicate Tiled(h: Heap, chunks: seq<Chunk>) {
    && ChunksOk(chunks) && Apart(h)
    && (forall i {:trigger StartsAt(h, chunks, i)} :: 0 <= i < |chunks| ==> StartsAt(h, chunks, i))
    && (forall a {:trigger TileAt(h, chunks, a)} :: a in h ==> TileAt(h, chunks, a))
  }

  ghost predicate Live(h: Heap, a: int) {
    a in h && !h[a].color.Blue?
  }

  lemma StartsKept(h: Heap, h': Heap, chunks: seq<Chunk>)
    requires Tiled(h, chunks) && h.Keys <= h'.Keys
    ensures forall i {:trigger StartsAt(h', chunks, i)} :: 0 <= i < |chunks| ==> StartsAt(h', chunks, i)
  {
    forall i | 0 <= i < |chunks|
      ensures StartsAt(h', chunks, i)
    {
      assert StartsAt(h, chunks, i);
    }
  }

  // ----- Changing a block in place -----

  /** Replacing a block by one of the same size keeps the tiling. */
  lemma SameSize(h: Heap, chunks: seq<Chunk>, a: int, b: Block)
    requires Tiled(h, chunks) && a in h && |b.fields| == |h[a].fields|
    ensures Tiled(h[a := b], chunks)
  {
    var h' := h[a := b];
    StartsKept(h, h', chunks);
    forall x | x in h'
      ensures TileAt(h', chunks, x)
    {
      assert TileAt(h, chunks, x);
    }
  }

  // ----- Allocating from a free block -----

  /** Where a block of `wosize` fields goes in the free block at `cur`: at its end. */
  function AllocAt(h: Heap, cur: int, wosize: int): int
    requires cur in h
  {
    cur + |h[cur].fields| - wosize
  }

  /** The heap after `allocate_block`: what is left of the free block stays free, or is
      an empty white block when it is a single word. */
  function Allocate(h: Heap, cur: int, wosize: int, tag: int, color: Color): (h': Heap)
    requires cur in h && 0 <= wosize <= |h[cur].fields|
  {
    var size := |h[cur].fields|;
    var block := Block(tag, color, h[cur].fields[size - wosize..]);
    if size == wosize then h[cur := block]
    else if size == wosize + 1 then h[cur := Block(0, White, [])][cur + 1 := block]
    else h[cur := Block(0, Blue, h[cur].fields[..size - wosize - 1])][cur + size - wosize := block]
  }

  lemma InsideFree(h: Heap, chunks: seq<Chunk>, cur: int, x: int)
    requires Tiled(h, chunks) && cur in h && cur < x < After(h, cur)
    ensures x !in h
  {
  }

  lemma AllocateApart(h: Heap, chunks: seq<Chunk>, cur: int, wosize: int, tag: int, color: Color)
    requires Tiled(h, chunks) && cur in h && 0 <= wosize <= |h[cur].fields|
    ensures Apart(Allocate(h, cur, wosize, tag, color))
  {
    var h' := Allocate(h, cur, wosize, tag, color);
    forall a, b | a in h' && b in h' && a < b
      ensures After(h', a) <= b
    {
      if a in h && b in h {
        assert After(h', a) <= After(h, a);
      }
    }
  }

  /** Allocation keeps the tiling. */
  lemma AllocateTiled(h: Heap, chunks: seq<Chunk>, cur: int, wosize: int, tag: int, color: Color)
    requires Tiled(h, chunks) && cur in h && 0 <= wosize <= |h[cur].fields|
    ensures Tiled(Allocate(h, cur, wosize, tag, color), chunks)
  {
    var h' := Allocate(h, cur, wosize, tag, color);
    AllocateApart(h, chunks, cur, wosize, tag, color);
    StartsKept(h, h', chunks);
    forall x | x in h'
      ensures TileAt(h', chunks, x)
    {
      assert TileAt(h, chunks, if x in h then x else cur);
    }
  }

  /** What allocation does not touch: all other blocks. */
  lemma AllocateKeeps(h: Heap, chunks: seq<Chunk>, cur: int, wosize: int, tag: int, color: Color)
    requires Tiled(h, chunks) && cur in h && h[cur].color.Blue? && 0 < wosize <= |h[cur].fields|
    ensures var h', hp := Allocate(h, cur, wosize, tag, color), AllocAt(h, cur, wosize);
            && hp in h' && h'[hp].tag == tag && h'[hp].color == color && |h'[hp].fields| == wosize && !Live(h, hp)
            && (forall a :: a in h && a != cur ==> a in h' && h'[a] == h[a])
            && (forall a :: a in h' && a !in h && a != hp ==> false)
            && (hp != cur ==> cur in h' && (h'[cur].color.Blue? || h'[cur] == Block(0, White, [])))
  {
    var hp := AllocAt(h, cur, wosize);
    if hp != cur {
      InsideFree(h, chunks, cur, hp);
    }
  }

  // ----- Freeing a block -----

  /** The block at `a` takes in the one right behind it. */
  function Absorb(h: Heap, a: int): (h': Heap)
    requires a in h && After(h, a) in h
  {
    var b := After(h, a);
    (map x | x in h && x != b :: h[x])[a := Block(0, Blue, h[a].fields + [Imm(0)] + h[b].fields)]
  }

  /** Joining two neighbours keeps the tiling. */
  lemma AbsorbTiled(h: Heap, chunks: seq<Chunk>, a: int)
    requires Tiled(h, chunks) && a in h && After(h, a) in h
    ensures Tiled(Absorb(h, a), chunks)
    ensures After(Absorb(h, a), a) == After(h, After(h, a))
  {
    var b, h' := After(h, a), Absorb(h, a);
    assert After(h', a) == After(h, b);
    forall i | 0 <= i < |chunks|
      ensures StartsAt(h', chunks, i)
    {
      assert StartsAt(h, chunks, i);
      NotAStart(h, chunks, a, i);
    }
    assert Apart(h');
    forall x | x in h'
      ensures TileAt(h', chunks, x)
    {
      AbsorbedTile(h, chunks, a, x);
    }
  }

  lemma AbsorbedTile(h: Heap, chunks: seq<Chunk>, a: int, x: int)
    requires Tiled(h, chunks) && a in h && After(h, a) in h && x in Absorb(h, a)
    ensures TileAt(Absorb(h, a), chunks, x)
  {
    var b, h' := After(h, a), Absorb(h, a);
    if x == a {
      SameChunk(h, chunks, a);
      assert TileAt(h, chunks, b) && After(h', a) == After(h, b);
    } else {
      assert TileAt(h, chunks, x) && h'[x] == h[x] && After(h, x) != b;
    }
  }

  /** A block behind another does not start a chunk. */
  lemma NotAStart(h: Heap, chunks: seq<Chunk>, a: int, i: int)
    requires Tiled(h, chunks) && a in h && After(h, a) in h && 0 <= i < |chunks|
    ensures chunks[i].start != After(h, a)
  {
    assert TileAt(h, chunks, a) && StartsAt(h, chunks, i) && TileAt(h, chunks, After(h, a));
    var j :| 0 <= j < |chunks| && chunks[j].start <= a && After(h, a) <= chunks[j].end;
    var k :| 0 <= k < |chunks| && chunks[k].start <= After(h, a) && After(h, After(h, a)) <= chunks[k].end;
  }

  lemma SameChunk(h: Heap, chunks: seq<Chunk>, a: int)
    requires Tiled(h, chunks) && a in h && After(h, a) in h
    ensures InChunk(chunks, a, After(h, After(h, a)))
  {
    var b := After(h, a);
    assert TileAt(h, chunks, a) && TileAt(h, chunks, b);
    var j :| 0 <= j < |chunks| && chunks[j].start <= a && b <= chunks[j].end;
    var k :| 0 <= k < |chunks| && chunks[k].start <= b && After(h, b) <= chunks[k].end;
  }

  // ----- Growing the heap -----

  /** Where a chunk goes in the sorted list. */
  ghost predicate Between(chunks: seq<Chunk>, i: int, c: Chunk) {
    && 0 <= i <= |chunks| && c.start < c.end
    && (forall j :: 0 <= j < i ==> chunks[j].end < c.start)
    && (forall j :: i <= j < |chunks| ==> c.end < chunks[j].start)
  }

  function Insert(chunks: seq<Chunk>, i: int, c: Chunk): (chunks': seq<Chunk>)
    requires 0 <= i <= |chunks|
  {
    chunks[..i] + [c] + chunks[i..]
  }

  lemma InsertMembers(chunks: seq<Chunk>, i: int, c: Chunk)
    requires ChunksOk(chunks) && Between(chunks, i, c)
    ensures var s := Insert(chunks, i, c);
            |s| == |chunks| + 1 && s[i] == c && (forall j :: 0 <= j < i ==> s[j] == chunks[j])
            && (forall j :: i < j < |s| ==> s[j] == chunks[j - 1]) && ChunksOk(s)
  {
  }

  lemma InsertChunks(chunks: seq<Chunk>, i: int, c: Chunk, x: int, y: int)
    requires 0 <= i <= |chunks| && InChunk(chunks, x, y)
    ensures InChunk(Insert(chunks, i, c), x, y) && (IsEnd(chunks, y) ==> IsEnd(Insert(chunks, i, c), y))
  {
    hide Insert;
    var j :| 0 <= j < |chunks| && chunks[j].start <= x && y <= chunks[j].end;
    InsertIndex(chunks, i, c, j);
    if IsEnd(chunks, y) {
      var k :| 0 <= k < |chunks| && chunks[k].end == y;
      InsertIndex(chunks, i, c, k);
    }
  }

  lemma InsertIndex(chunks: seq<Chunk>, i: int, c: Chunk, j: int)
    requires 0 <= i <= |chunks| && 0 <= j < |chunks|
    ensures var k := if j < i then j else j + 1; 0 <= k < |Insert(chunks, i, c)| && Insert(chunks, i, c)[k] == chunks[j]
  {
  }

  /** A new chunk that is one free block. */
  function Grown(h: Heap, c: Chunk): (h': Heap) {
    h[c.start := Block(0, Blue, seq(if c.end > c.start then c.end - c.start - 1 else 0, _ => Imm(0)))]
  }

  lemma GrownTiled(h: Heap, chunks: seq<Chunk>, i: int, c: Chunk)
    requires Tiled(h, chunks) && Between(chunks, i, c)
    ensures Tiled(Grown(h, c), Insert(chunks, i, c)) && c.start !in h
  {
    var h', s := Grown(h, c), Insert(chunks, i, c);
    InsertMembers(chunks, i, c);
    ChunkFresh(h, chunks, i, c);
    forall a, b | a in h' && b in h' && a < b
      ensures After(h', a) <= b
    {
      if a == c.start {
        assert After(h', a) == c.end;
      } else if b != c.start {
        assert After(h', a) == After(h, a);
      }
    }
    forall j | 0 <= j < |s|
      ensures StartsAt(h', s, j)
    {
      if j != i {
        assert StartsAt(h, chunks, if j < i then j else j - 1);
      }
    }
    forall x | x in h'
      ensures TileAt(h', s, x)
    {
      if x == c.start {
        assert s[i].start <= x && After(h', x) == s[i].end;
      } else {
        assert TileAt(h, chunks, x);
        InsertChunks(chunks, i, c, x, After(h, x));
      }
    }
  }

  /** No block reaches into the new chunk. */
  lemma ChunkFresh(h: Heap, chunks: seq<Chunk>, i: int, c: Chunk)
    requires Tiled(h, chunks) && Between(chunks, i, c)
    ensures forall a :: a in h ==> After(h, a) < c.start || c.end < a
  {
    forall a | a in h
      ensures After(h, a) < c.start || c.end < a
    {
      assert TileAt(h, chunks, a);
      var j :| 0 <= j < |chunks| && chunks[j].start <= a && After(h, a) <= chunks[j].end;
    }
  }

  // ----- What a chunk and a position in it are -----

  /** `p` is a header of the chunk from `start` to `end`, or that end. */
  ghost predicate InPlace(h: Heap, chunks: seq<Chunk>, start: int, end: int, p: int) {
    && Chunk(start, end) in chunks && start <= p <= end
    && (p < end ==> p in h)
  }

  lemma NextInPlace(h: Heap, chunks: seq<Chunk>, start: int, end: int, p: int)
    requires Tiled(h, chunks) && InPlace(h, chunks, start, end, p) && p < end
    ensures p in h && InPlace(h, chunks, start, end, After(h, p))
  {
    assert TileAt(h, chunks, p);
    var i :| 0 <= i < |chunks| && chunks[i] == Chunk(start, end);
    var j :| 0 <= j < |chunks| && chunks[j].start <= p && After(h, p) <= chunks[j].end;
    if After(h, p) !in h {
      var k :| 0 <= k < |chunks| && chunks[k].end == After(h, p);
    }
  }

  lemma StartInPlace(h: Heap, chunks: seq<Chunk>, c: Chunk)
    requires Tiled(h, chunks) && c in chunks
    ensures c.start < c.end && InPlace(h, chunks, c.start, c.end, c.start)
  {
    var i :| 0 <= i < |chunks| && chunks[i] == c;
    assert StartsAt(h, chunks, i);
  }

  datatype NextChunk = NoChunk | Next(c: Chunk)

  /** The chunk that the head of the chunk at `start` points to. */
  function Following(chunks: seq<Chunk>, start: int): (n: NextChunk) {
    if |chunks| < 2 then NoChunk
    else if chunks[0].start == start then Next(chunks[1])
    else Following(chunks[1..], start)
  }

  lemma {:induction false} FollowingIs(chunks: seq<Chunk>, start: int, i: int)
    requires ChunksOk(chunks) && 0 <= i < |chunks| && chunks[i].start == start
    ensures Following(chunks, start) == if i + 1 < |chunks| then Next(chunks[i + 1]) else NoChunk
  {
    if |chunks| >= 2 && i > 0 {
      FollowingIs(chunks[1..], start, i - 1);
    }
  }

  /** No block starts between the end of a chunk and the start of the next one. */
  lemma NoneBetween(h: Heap, chunks: seq<Chunk>, start: int, end: int)
    requires Tiled(h, chunks) && Chunk(start, end) in chunks
    ensures match Following(chunks, start)
            case NoChunk => forall a :: a in h ==> a < end
            case Next(c) => c in chunks && end < c.start && forall a :: a in h && a < c.start ==> a < end
  {
    var i :| 0 <= i < |chunks| && chunks[i] == Chunk(start, end);
    FollowingIs(chunks, start, i);
    forall a | a in h && (i + 1 < |chunks| ==> a < chunks[i + 1].start)
      ensures a < end
    {
      assert TileAt(h, chunks, a);
      var j :| 0 <= j < |chunks| && chunks[j].start <= a && After(h, a) <= chunks[j].end;
    }
  }

  // ----- Allocation as the collector sees it -----

  /** A block has been taken from free memory: no block in use has changed, and nothing
      else has come into use but empty blocks. */
  ghost predicate Allocated(h: Heap, h': Heap, hp: int, wosize: int, tag: int, color: Color) {
    && h.Keys <= h'.Keys && hp in h' && !Live(h, hp)
    && h'[hp].tag == tag && h'[hp].color == color && |h'[hp].fields| == wosize
    && (forall a {:trigger h'[a]} {:trigger Live(h, a)} :: Live(h, a) ==> a in h' && h'[a] == h[a])
    && (forall a {:trigger h'[a]} {:trigger Live(h', a)} ::
          Live(h', a) && a != hp ==> Live(h, a) || h'[a] == Block(0, White, []))
  }

  lemma AllocateAllocated(h: Heap, chunks: seq<Chunk>, cur: int, wosize: int, tag: int, color: Color)
    requires Tiled(h, chunks) && cur in h && h[cur].color.Blue? && 0 < wosize <= |h[cur].fields|
    ensures Allocated(h, Allocate(h, cur, wosize, tag, color), AllocAt(h, cur, wosize), wosize, tag, color)
  {
    AllocateKeeps(h, chunks, cur, wosize, tag, color);
  }

  /** Growing the heap first makes no difference. */
  lemma GrownAllocated(h: Heap, c: Chunk, h': Heap, hp: int, wosize: int, tag: int, color: Color)
    requires c.start !in h && Allocated(Grown(h, c), h', hp, wosize, tag, color)
    ensures Allocated(h, h', hp, wosize, tag, color)
  {
    var g := Grown(h, c);
    assert forall a :: Live(g, a) <==> Live(h, a);
    assert forall a :: Live(h, a) ==> g[a] == h[a];
  }
}
