/** The free list (src/runtime/freelist.c): the free blocks, linked in the order of their
    addresses, never two next to each other. */
module FreeLists {
  import opened Heaps
  import opened Sweeping

  /** The list's head, which lies below all blocks, and the end of the list. */
  const FL_HEAD := -1
  const NULL := -2

  // ----- The list as a sequence -----

  /** What the link at position `i` belongs to: the head, or the block before. */
  function Node(list: seq<int>, i: int): int
    requires 0 <= i <= |list|
  {
    if i == 0 then FL_HEAD else list[i - 1]
  }

  /** What the link at position `i` points to. */
  function Target(list: seq<int>, i: int): int
    requires 0 <= i <= |list|
  {
    if i < |list| then list[i] else NULL
  }

  ghost predicate LinkAt(next: map<int, int>, list: seq<int>, i: int)
    requires 0 <= i <= |list|
  {
    Node(list, i) in next && next[Node(list, i)] == Target(list, i)
  }

  ghost predicate Linked(next: map<int, int>, list: seq<int>) {
    forall i {:trigger LinkAt(next, list, i)} :: 0 <= i <= |list| ==> LinkAt(next, list, i)
  }

  ghost predicate Sorted(list: seq<int>) {
    && (forall i :: 0 <= i < |list| ==> 0 <= list[i])
    && (forall i, j :: 0 <= i < j < |list| ==> list[i] < list[j])
  }

  /** The list holds the free blocks. */
  ghost predicate HoldsFree(h: Heap, list: seq<int>) {
    forall a {:trigger a in list} {:trigger a in h} :: a in list <==> a in h && h[a].color.Blue?
  }

  /** No free block comes right after another. */
  ghost predicate Coalesced(h: Heap, list: seq<int>) {
    forall a {:trigger a in list} :: a in list && a in h ==> After(h, a) !in list
  }

  ghost predicate IsNode(list: seq<int>, p: int) {
    p == FL_HEAD || p in list
  }

  /** `merge` is the last free block before `hp`, or the head when there is none. */
  ghost predicate LastBefore(list: seq<int>, merge: int, hp: int) {
    IsNode(list, merge) && (merge != FL_HEAD ==> merge < hp) && forall a :: a in list && a < hp ==> a <= merge
  }

  ghost predicate ListOk(h: Heap, chunks: seq<Chunk>, next: map<int, int>, list: seq<int>) {
    Tiled(h, chunks) && Linked(next, list) && Sorted(list) && HoldsFree(h, list) && Coalesced(h, list)
  }

  /** Every node has a position. */
  lemma Position(list: seq<int>, p: int) returns (i: int)
    requires IsNode(list, p)
    ensures 0 <= i <= |list| && Node(list, i) == p
  {
    if p == FL_HEAD {
      i := 0;
    } else {
      var k :| 0 <= k < |list| && list[k] == p;
      i := k + 1;
    }
  }

  lemma NodesDiffer(list: seq<int>, i: int, j: int)
    requires Sorted(list) && 0 <= i <= |list| && 0 <= j <= |list|
    ensures Node(list, i) == Node(list, j) <==> i == j
    ensures Node(list, i) < Node(list, j) <==> i < j
  {
  }

  function Without(list: seq<int>, i: int): (l: seq<int>)
    requires 0 <= i < |list|
  {
    list[..i] + list[i + 1..]
  }

  function With(list: seq<int>, i: int, a: int): (l: seq<int>)
    requires 0 <= i <= |list|
  {
    list[..i] + [a] + list[i..]
  }

  lemma WithoutMembers(list: seq<int>, i: int)
    requires Sorted(list) && 0 <= i < |list|
    ensures Sorted(Without(list, i)) && forall a :: a in Without(list, i) <==> a in list && a != list[i]
  {
    var l := Without(list, i);
    assert forall k :: 0 <= k < |l| ==> l[k] == if k < i then list[k] else list[k + 1];
    forall a | a in list && a != list[i]
      ensures a in l
    {
      var k :| 0 <= k < |list| && list[k] == a;
      assert l[if k < i then k else k - 1] == a;
    }
  }

  lemma WithMembers(list: seq<int>, i: int, a: int)
    requires 0 <= i <= |list|
    ensures forall x :: x in With(list, i, a) <==> x in list || x == a
    ensures Sorted(list) && 0 <= a && (i > 0 ==> list[i - 1] < a) && (i < |list| ==> a < list[i]) ==>
              Sorted(With(list, i, a))
  {
    var l := With(list, i, a);
    assert forall k :: 0 <= k < |l| ==> l[k] == if k < i then list[k] else if k == i then a else list[k - 1];
    forall x | x in list || x == a
      ensures x in l
    {
      if x == a {
        assert l[i] == a;
      } else {
        var k :| 0 <= k < |list| && list[k] == x;
        assert l[if k < i then k else k + 1] == x;
      }
    }
  }

  /** Taking the block at position `i` out: the link before skips it. */
  lemma Unlinked(next: map<int, int>, list: seq<int>, i: int)
    requires Linked(next, list) && Sorted(list) && 0 <= i < |list|
    ensures list[i] in next && Node(list, i) in next
    ensures Linked(next[Node(list, i) := next[list[i]]], Without(list, i))
  {
    assert LinkAt(next, list, i) && LinkAt(next, list, i + 1);
    var l, n := Without(list, i), next[Node(list, i) := next[list[i]]];
    forall k | 0 <= k <= |l|
      ensures LinkAt(n, l, k)
    {
      var j := if k <= i then k else k + 1;
      assert LinkAt(next, list, j);
      NodesDiffer(list, j, i);
    }
  }

  /** Putting a block in at position `i`. */
  lemma LinkedIn(next: map<int, int>, list: seq<int>, i: int, a: int)
    requires Linked(next, list) && Sorted(list) && 0 <= i <= |list| && a !in list && 0 <= a
    ensures Linked(next[a := Target(list, i)][Node(list, i) := a], With(list, i, a))
  {
    var l, n := With(list, i, a), next[a := Target(list, i)][Node(list, i) := a];
    assert forall k :: 0 <= k < |l| ==> l[k] == if k < i then list[k] else if k == i then a else list[k - 1];
    forall k | 0 <= k <= |l|
      ensures LinkAt(n, l, k)
    {
      if k != i + 1 {
        var j := if k <= i then k else k - 1;
        assert LinkAt(next, list, j);
        NodesDiffer(list, j, i);
      }
    }
  }

  // ----- What the heap operations do to the free blocks -----

  lemma AllocatedFree(h: Heap, chunks: seq<Chunk>, list: seq<int>, i: int, wosize: int)
    requires Tiled(h, chunks) && Sorted(list) && HoldsFree(h, list) && Coalesced(h, list)
    requires 0 <= i < |list| && list[i] in h && 0 < wosize <= |h[list[i]].fields|
    ensures var h' := Allocate(h, list[i], wosize, 0, White);
            if |h[list[i]].fields| <= wosize + 1 then HoldsFree(h', Without(list, i)) && Coalesced(h', Without(list, i))
            else HoldsFree(h', list) && Coalesced(h', list)
  {
    hide Tiled, Without, Sorted;
    var cur := list[i];
    assert cur in list;
    WithoutMembers(list, i);
    if |h[cur].fields| <= wosize + 1 {
      UsedUp(h, chunks, list, Without(list, i), cur, wosize);
    } else {
      SplitUp(h, chunks, list, cur, wosize);
    }
  }

  /** The free block is used up, but for a word at most. */
  lemma UsedUp(h: Heap, chunks: seq<Chunk>, list: seq<int>, rest: seq<int>, cur: int, wosize: int)
    requires Tiled(h, chunks) && HoldsFree(h, list) && Coalesced(h, list) && cur in list && cur in h
    requires wosize <= |h[cur].fields| <= wosize + 1 && 0 < wosize && forall a :: a in rest <==> a in list && a != cur
    ensures HoldsFree(Allocate(h, cur, wosize, 0, White), rest) && Coalesced(Allocate(h, cur, wosize, 0, White), rest)
  {
    var hp := AllocAt(h, cur, wosize);
    if hp != cur {
      InsideFree(h, chunks, cur, hp);
    }
    hide Tiled;
    var h' := Allocate(h, cur, wosize, 0, White);
    forall a | a in rest && a in h'
      ensures After(h', a) !in rest
    {
      assert a in h && h'[a] == h[a] && After(h, a) !in list;
    }
  }

  /** What is left of the free block stays in the list, the new block behind it. */
  lemma SplitUp(h: Heap, chunks: seq<Chunk>, list: seq<int>, cur: int, wosize: int)
    requires Tiled(h, chunks) && HoldsFree(h, list) && Coalesced(h, list) && cur in list && cur in h
    requires wosize + 1 < |h[cur].fields| && 0 < wosize
    ensures HoldsFree(Allocate(h, cur, wosize, 0, White), list) && Coalesced(Allocate(h, cur, wosize, 0, White), list)
  {
    var hp := AllocAt(h, cur, wosize);
    InsideFree(h, chunks, cur, hp);
    hide Tiled;
    var h' := Allocate(h, cur, wosize, 0, White);
    forall a | a in list && a in h'
      ensures After(h', a) !in list
    {
      if a != cur {
        assert a in h && h'[a] == h[a] && After(h, a) !in list;
      } else {
        assert After(h', cur) == hp && hp !in h;
      }
    }
  }

  /** The place of the block `bp`, which is not free: behind the last node before it. */
  lemma Around(h: Heap, chunks: seq<Chunk>, next: map<int, int>, list: seq<int>, merge: int, bp: int) returns (i: int)
    requires ListOk(h, chunks, next, list) && bp in h && 0 <= bp && !h[bp].color.Blue? && LastBefore(list, merge, bp)
    ensures 0 <= i <= |list| && Node(list, i) == merge && (i > 0 ==> list[i - 1] < bp) && (i < |list| ==> bp < list[i])
    ensures After(h, bp) in list <==> Target(list, i) == After(h, bp)
  {
    hide Linked, Coalesced;
    i := Position(list, merge);
    if i < |list| {
      assert list[i] in list && list[i] != bp;
    }
    forall k | 0 <= k < |list|
      ensures list[k] == After(h, bp) ==> k == i
    {
      assert list[k] in list;
      if i < k {
        assert list[i] in list;
      }
    }
  }

  /** Taking out or resizing the free block at position `i` keeps the list. */
  lemma AllocatedList(h: Heap, chunks: seq<Chunk>, next: map<int, int>, list: seq<int>, i: int, wosize: int)
    requires ListOk(h, chunks, next, list) && 0 <= i < |list| && list[i] in h && 0 < wosize <= |h[list[i]].fields|
    ensures list[i] in next && Node(list, i) in next
    ensures var h' := Allocate(h, list[i], wosize, 0, White);
            if |h[list[i]].fields| <= wosize + 1
            then ListOk(h', chunks, next[Node(list, i) := next[list[i]]], Without(list, i))
            else ListOk(h', chunks, next, list)
  {
    hide Tiled, Linked, Sorted, HoldsFree, Coalesced, Without, Allocate;
    AllocatedFree(h, chunks, list, i, wosize);
    AllocateTiled(h, chunks, list[i], wosize, 0, White);
    WithoutMembers(list, i);
    Unlinked(next, list, i);
  }

  /** The last block before `hp` when the block at position `i` has been taken out. */
  lemma LastLeft(list: seq<int>, i: int, merge: int, hp: int)
    requires Sorted(list) && 0 <= i < |list| && IsNode(list, merge)
    ensures var merge' := if merge == list[i] then Node(list, i) else merge;
            IsNode(Without(list, i), merge') &&
              (LastBefore(list, merge, hp) ==> LastBefore(Without(list, i), merge', hp))
  {
    hide Without;
    WithoutMembers(list, i);
    if i > 0 {
      assert list[i - 1] in list;
    }
    forall a | a in list && a < list[i]
      ensures a <= Node(list, i)
    {
      var k :| 0 <= k < |list| && list[k] == a;
    }
  }

  /** Position `i` is the first from position `i0` on, going around, whose block has `n`
      words; there is none when `i` is the length of the list. */
  ghost predicate NextFit(h: Heap, list: seq<int>, i0: int, i: int, n: int) {
    && 0 <= i0 <= |list| && 0 <= i <= |list| && (forall k :: 0 <= k < |list| ==> list[k] in h)
    && (i < |list| ==> |h[list[i]].fields| >= n)
    && (forall k :: i0 <= k < |list| && (k < i || i < i0) ==> |h[list[k]].fields| < n)
    && (forall k :: 0 <= k < i0 && k < i && (i < i0 || i == |list|) ==> |h[list[k]].fields| < n)
  }

  lemma FitAt(h: Heap, list: seq<int>, i0: int, i: int, n: int)
    requires 0 <= i0 <= |list| && 0 <= i <= |list| && forall k :: 0 <= k < |list| ==> list[k] in h
    requires i < |list| ==> |h[list[i]].fields| >= n
    requires forall k :: i0 <= k < |list| && (k < i || i < i0) ==> |h[list[k]].fields| < n
    requires forall k :: 0 <= k < i0 && k < i && (i < i0 || i == |list|) ==> |h[list[k]].fields| < n
    ensures NextFit(h, list, i0, i, n)
  {
  }

  // ----- What the assignments of `FlMergeBlock` do, whatever `merge` is -----

  datatype Released = Released(heap: Heap, next: map<int, int>, merge: int, adj: int)

  ghost predicate CanRelease(h: Heap, next: map<int, int>, merge: int, bp: int) {
    bp in h && merge in next && (After(h, bp) == next[merge] ==> next[merge] in h && next[merge] in next)
  }

  ghost function Release(h: Heap, next: map<int, int>, merge: int, bp: int): Released
    requires CanRelease(h, next, merge, bp)
  {
    var cur := next[merge];
    var joined := After(h, bp) == cur;
    var h1 := if joined then Absorb(h, bp) else h;
    var next1 := if joined then next[merge := next[cur]] else next;
    if merge != FL_HEAD && merge in h1 && After(h1, merge) == bp then
      Released(Absorb(h1, merge), next1, merge, After(h1, bp))
    else if |h1[bp].fields| > 0 then
      Released(h1[bp := h1[bp].(color := Blue)],
               next1[bp := if joined then next[cur] else cur][merge := bp], bp, After(h1, bp))
    else Released(h1, next1, merge, After(h1, bp))
  }

  class FreeList {
    var heap: Heap
    var chunks: seq<Chunk>
    var next: map<int, int>
    var flPrev: int
    var flLast: int
    var flMerge: int
    ghost var list: seq<int>

    ghost predicate Valid()
      reads this
    {
      ListOk(heap, chunks, next, list) && IsNode(list, flPrev) && IsNode(list, flMerge)
    }

    /** The heap is one free block. */
    constructor (k: Chunk)
      requires 0 <= k.start && k.start + 2 <= k.end
      ensures Valid() && heap == Grown(map[], k) && chunks == [k] && list == [k.start]
    {
      heap, chunks := Grown(map[], k), [k];
      next := map[FL_HEAD := k.start, k.start := NULL];
      flPrev, flLast, flMerge := FL_HEAD, FL_HEAD, k.start;
      list := [k.start];
      new;
      OneBlock(k);
    }

    /** Takes `wosize` words off the end of the free block `cur`, which the link of `prev`
        points to; the header of the new block is left to the caller. */
    method AllocateBlock(wosize: int, prev: int, cur: int, ghost i: int) returns (hp: int)
      requires Valid() && 0 <= i < |list| && prev == Node(list, i) && cur == list[i] && cur in heap
      requires 0 < wosize <= |heap[cur].fields|
      modifies `heap, `next, `flPrev, `flMerge, `list
      ensures Valid() && heap == Allocate(old(heap), cur, wosize, 0, White) && hp == AllocAt(old(heap), cur, wosize)
      ensures list == if |old(heap)[cur].fields| <= wosize + 1 then Without(old(list), i) else old(list)
      ensures flPrev == prev
      ensures forall sweepHp :: old(LastBefore(list, flMerge, sweepHp)) ==> LastBefore(list, flMerge, sweepHp)
    {
      hide Allocate, Without, ListOk, LastBefore, AllocAt;
      var size := |heap[cur].fields|;
      ghost var l, merge := list, flMerge;
      AllocatedList(heap, chunks, next, list, i, wosize);
      ListSorted(heap, chunks, next, list);
      forall sweepHp {
        LastLeft(l, i, merge, sweepHp);
      }
      LastLeft(l, i, merge, 0);
      PrevLeft(l, i);
      hp := AllocAt(heap, cur, wosize);
      if size < wosize + 2 {
        next := next[prev := next[cur]];
        if flMerge == cur {
          flMerge := prev;
        }
        list := Without(list, i);
      }
      heap := Allocate(heap, cur, wosize, 0, White);
      flPrev := prev;
    }

    /** Searches the list from where the last search ended, and then from its start. */
    method FlAllocate(wosize: int) returns (hp: int, ok: bool, ghost i0: int, ghost i: int)
      requires Valid() && wosize >= 1
      modifies `heap, `next, `flPrev, `flLast, `flMerge, `list
      ensures Valid() && 0 <= i0 <= |old(list)| && Node(old(list), i0) == old(flPrev)
      ensures NextFit(old(heap), old(list), i0, i, wosize)
      ensures ok <==> i < |old(list)|
      ensures ok ==> old(list)[i] in old(heap) && 0 < wosize <= |old(heap)[old(list)[i]].fields|
      ensures ok ==> heap == Allocate(old(heap), old(list)[i], wosize, 0, White)
      ensures ok ==> hp == AllocAt(old(heap), old(list)[i], wosize)
      ensures !ok ==> heap == old(heap) && list == old(list) && next == old(next) && flMerge == old(flMerge)
      ensures !ok ==> flLast == Node(list, |list|)
      ensures !ok ==> forall a {:trigger heap[a]} :: a in heap && heap[a].color.Blue? ==> |heap[a].fields| < wosize
      ensures forall sweepHp :: old(LastBefore(list, flMerge, sweepHp)) ==> LastBefore(list, flMerge, sweepHp)
    {
      hide Allocate, Without, ListOk, LastBefore, AllocAt, Sorted, IsNode, Node, Target, NextFit;
      ListFree(heap, chunks, next, list);
      i0 := Position(list, flPrev);
      i := i0;
      var prev := flPrev;
      NextIs(heap, chunks, next, list, i);
      var cur := next[prev];
      while cur != NULL
        invariant unchanged(this)
        invariant i0 <= i <= |list| && prev == Node(list, i) && cur == Target(list, i)
        invariant forall k :: i0 <= k < i ==> |heap[list[k]].fields| < wosize
        decreases |list| - i
      {
        NextIs(heap, chunks, next, list, i);
        if |heap[cur].fields| >= wosize {
          FitAt(heap, list, i0, i, wosize);
          hp := AllocateBlock(wosize, prev, cur, i);
          return hp, true, i0, i;
        }
        prev := cur;
        i := i + 1;
        NextIs(heap, chunks, next, list, i);
        cur := next[prev];
      }
      NextIs(heap, chunks, next, list, i);
      flLast := prev;
      prev := FL_HEAD;
      i := 0;
      NextIs(heap, chunks, next, list, i);
      cur := next[prev];
      while prev != flPrev
        invariant unchanged(`heap) && unchanged(`next) && unchanged(`list) && unchanged(`flPrev) && unchanged(`flMerge)
        invariant flLast == Node(list, |list|)
        invariant 0 <= i <= i0 && prev == Node(list, i) && cur == Target(list, i)
        invariant forall k :: 0 <= k < i ==> |heap[list[k]].fields| < wosize
        decreases i0 - i
      {
        NextIs(heap, chunks, next, list, i);
        if |heap[cur].fields| >= wosize {
          FitAt(heap, list, i0, i, wosize);
          hp := AllocateBlock(wosize, prev, cur, i);
          return hp, true, i0, i;
        }
        prev := cur;
        i := i + 1;
        NextIs(heap, chunks, next, list, i);
        cur := next[prev];
      }
      NodesDiffer(list, i, i0);
      i := |list|;
      FitAt(heap, list, i0, i, wosize);
      return 0, false, i0, i;
    }

    /** A heap extension `k`, which goes to position `c` of the chunks, becomes a free block;
        the search before has found no block and left the end of the list in `flLast`.
        `flMerge` stays the last block before the sweep unless the new block goes to the end of
        the list and lies before the sweep: only a block that is put in further up advances it. */
    method FlAddBlock(k: Chunk, c: int, sweepHp: int)
      requires Valid() && Between(chunks, c, k) && 0 <= k.start && flLast == Node(list, |list|)
      modifies `heap, `chunks, `next, `flMerge, `list
      ensures Valid() && heap == Grown(old(heap), k) && chunks == Insert(old(chunks), c, k)
      ensures forall a :: a in list <==> a in old(list) || a == k.start
      ensures k.start > flLast ==> flMerge == old(flMerge) && next == old(next)[k.start := NULL][flLast := k.start]
      ensures old(LastBefore(list, flMerge, sweepHp)) ==>
                (LastBefore(list, flMerge, sweepHp) <==> !(flLast < k.start < sweepHp))
    {
      hide ListOk, LastBefore, IsNode, Grown, Insert, With;
      ListSorted(heap, chunks, next, list);
      ghost var l, merge := list, flMerge;
      var bp := k.start;
      ghost var i := |list|;
      if bp > flLast {
        GrownList(heap, chunks, next, list, |list|, c, k);
        AtTheEnd(list, merge, bp, sweepHp);
        next := next[bp := NULL][flLast := bp];
      } else {
        var prev := FL_HEAD;
        i := 0;
        NextIs(heap, chunks, next, list, i);
        var cur := next[prev];
        while cur != NULL && cur < bp
          invariant unchanged(this)
          invariant 0 <= i <= |list| && prev == Node(list, i) && cur == Target(list, i) && (i > 0 ==> list[i - 1] < bp)
          decreases |list| - i
        {
          prev := cur;
          i := i + 1;
          NextIs(heap, chunks, next, list, i);
          cur := next[prev];
        }
        FreshStart(heap, chunks, next, list, c, k);
        GrownList(heap, chunks, next, list, i, c, k);
        InTheMiddle(list, merge, i, bp, sweepHp);
        next := next[bp := cur][prev := bp];
        if prev == flMerge && bp < sweepHp {
          flMerge := bp;
        }
      }
      NodesWith(l, i, bp, flPrev);
      NodesWith(l, i, bp, merge);
      WithMembers(l, i, bp);
      heap := Grown(heap, k);
      chunks := Insert(chunks, c, k);
      list := With(list, i, bp);
    }

    /** The sweep starts: no free block lies before it. */
    method FlInitMerge()
      requires Valid()
      modifies `flMerge
      ensures Valid() && forall hp :: (forall a :: a in heap ==> hp <= a) ==> LastBefore(list, flMerge, hp)
    {
      hide Tiled, Linked, Sorted, Coalesced;
      flMerge := FL_HEAD;
    }

    /** The block at `bp`, which the sweep has come to, becomes free: it is merged with the
        free blocks right behind it and right before it. */
    method FlMergeBlock(bp: int) returns (adj: int)
      requires Valid() && LastBefore(list, flMerge, bp) && bp in heap && heap[bp].color.White? && 0 <= bp
      modifies `heap, `next, `flPrev, `flMerge, `list
      ensures Valid() && LastBefore(list, flMerge, adj)
      ensures exists n: bool, p: int {:trigger MergesTo(old(heap), bp, n, p, heap, adj)} ::
                MergesTo(old(heap), bp, n, p, heap, adj)
      ensures old(CanRelease(heap, next, flMerge, bp))
      ensures Released(heap, next, flMerge, adj) == old(Release(heap, next, flMerge, bp))
    {
      hide ListOk, ListBut, LastBefore, IsNode, MergesTo, Absorb, Without, With;
      ghost var h := heap;
      ghost var i := Around(heap, chunks, next, list, flMerge, bp);
      NextIs(heap, chunks, next, list, i);
      ListSorted(heap, chunks, next, list);
      var prev := flMerge;
      var cur := next[prev];
      adj := After(heap, bp);
      ghost var merged := adj == cur;
      if adj == cur {
        MergeNext(heap, chunks, next, list, i, prev, bp);
        StillNode(list, i, flPrev);
        var nextCur := next[cur];
        next := next[prev := nextCur];
        if flPrev == cur {
          flPrev := prev;
        }
        list := Without(list, i);
        heap := Absorb(heap, bp);
        ButFacts(heap, chunks, next, list, i, prev, bp);
        adj := After(heap, bp);
        cur := nextCur;
      } else {
        NoNext(heap, chunks, next, list, i, prev, bp);
      }
      ghost var h1 := heap;
      ButFacts(heap, chunks, next, list, i, prev, bp);
      if prev != FL_HEAD && After(heap, prev) == bp {
        MergePrev(heap, chunks, next, list, i, prev, bp);
        heap := Absorb(heap, prev);
        MergedBoth(h, h1, bp, merged, prev, heap, adj);
      } else if |heap[bp].fields| > 0 {
        PutIn(heap, chunks, next, list, i, prev, bp);
        NodesWith(list, i, bp, flPrev);
        heap := heap[bp := heap[bp].(color := Blue)];
        next := next[bp := cur][prev := bp];
        flMerge := bp;
        list := With(list, i, bp);
        MergedOnce(h, h1, bp, merged, heap, adj);
      } else {
        LeftWhite(heap, chunks, next, list, i, prev, bp);
        MergedOnce(h, h1, bp, merged, heap, adj);
      }
    }
  }

  /** What the block at `bp` is merged with, and the resulting heap: one of the outcomes that
      the sweep allows for. */
  ghost predicate MergesTo(h: Heap, bp: int, next: bool, prev: int, h': Heap, adj: int) {
    && Offers(h, bp, next, prev)
    && var h1 := WithNext(h, bp, next);
       && bp in h1 && (prev != -1 ==> prev in h1 && After(h1, prev) == bp)
       && adj == After(h1, bp) && h' == WithPrev(h1, bp, prev)
  }

  lemma MergedBoth(h: Heap, h1: Heap, bp: int, next: bool, prev: int, h': Heap, adj: int)
    requires bp in h && (next ==> After(h, bp) in h && h[After(h, bp)].color.Blue?) && h1 == WithNext(h, bp, next)
    requires prev != -1 && prev in h1 && h1[prev].color.Blue? && After(h1, prev) == bp
    requires bp in h1 && adj == After(h1, bp) && h' == Absorb(h1, prev)
    ensures MergesTo(h, bp, next, prev, h', adj)
  {
  }

  lemma MergedOnce(h: Heap, h1: Heap, bp: int, next: bool, h': Heap, adj: int)
    requires bp in h && (next ==> After(h, bp) in h && h[After(h, bp)].color.Blue?) && h1 == WithNext(h, bp, next)
    requires bp in h1 && adj == After(h1, bp)
    requires h' == if |h1[bp].fields| > 0 then h1[bp := h1[bp].(color := Blue)] else h1
    ensures MergesTo(h, bp, next, -1, h', adj)
  {
  }

  lemma OneBlock(k: Chunk)
    requires 0 <= k.start && k.start + 2 <= k.end
    ensures ListOk(Grown(map[], k), [k], map[FL_HEAD := k.start, k.start := NULL], [k.start])
    ensures IsNode([k.start], FL_HEAD) && IsNode([k.start], k.start)
  {
    var list, next := [k.start], map[FL_HEAD := k.start, k.start := NULL];
    assert Tiled(Grown(map[], k), [k]) by {
      hide Insert;
      assert Insert([], 0, k) == [k] by {
        InsertMembers([], 0, k);
      }
      GrownTiled(map[], [], 0, k);
    }
    hide Tiled;
    forall i | 0 <= i <= |list|
      ensures LinkAt(next, list, i)
    {
    }
    assert After(Grown(map[], k), k.start) == k.end;
  }

  lemma ListSorted(h: Heap, chunks: seq<Chunk>, next: map<int, int>, list: seq<int>)
    requires ListOk(h, chunks, next, list)
    ensures Sorted(list)
  {
  }

  lemma ListFree(h: Heap, chunks: seq<Chunk>, next: map<int, int>, list: seq<int>)
    requires ListOk(h, chunks, next, list)
    ensures Sorted(list) && forall k :: 0 <= k < |list| ==> list[k] in h
    ensures forall a {:trigger h[a]} :: a in h && h[a].color.Blue? ==> exists k :: 0 <= k < |list| && list[k] == a
  {
    hide Tiled;
    forall k | 0 <= k < |list|
      ensures list[k] in h
    {
      assert list[k] in list;
    }
    forall a {:trigger h[a]} | a in h && h[a].color.Blue?
      ensures exists k :: 0 <= k < |list| && list[k] == a
    {
      assert a in list;
    }
  }

  lemma NextIs(h: Heap, chunks: seq<Chunk>, next: map<int, int>, list: seq<int>, i: int)
    requires ListOk(h, chunks, next, list) && 0 <= i <= |list|
    ensures Node(list, i) in next && next[Node(list, i)] == Target(list, i)
    ensures (Target(list, i) == NULL <==> i == |list|)
    ensures i < |list| ==> Target(list, i) == list[i] == Node(list, i + 1) && list[i] in h
    ensures Node(list, 0) == FL_HEAD
  {
    hide Tiled, Coalesced;
    assert LinkAt(next, list, i);
    if i < |list| {
      assert list[i] in list;
    }
  }

  /** The node before the block taken out is still a node. */
  lemma PrevLeft(list: seq<int>, i: int)
    requires Sorted(list) && 0 <= i < |list|
    ensures IsNode(Without(list, i), Node(list, i)) && IsNode(list, Node(list, i))
  {
    hide Without;
    WithoutMembers(list, i);
  }

  // ----- Merging -----

  /** The list holds all free blocks but the one at `bp`, which belongs at position `i`. */
  ghost predicate ListBut(h: Heap, chunks: seq<Chunk>, next: map<int, int>, list: seq<int>, i: int, merge: int,
                          bp: int) {
    && Tiled(h, chunks) && Linked(next, list) && Sorted(list) && bp in h && bp !in list
    && (forall a {:trigger a in list} {:trigger a in h} :: a != bp ==> (a in list <==> a in h && h[a].color.Blue?))
    && Coalesced(h, list) && After(h, bp) !in list && 0 <= bp
    && 0 <= i <= |list| && Node(list, i) == merge && (i > 0 ==> list[i - 1] < bp) && (i < |list| ==> bp < list[i])
  }

  lemma ButFacts(h: Heap, chunks: seq<Chunk>, next: map<int, int>, list: seq<int>, i: int, merge: int, bp: int)
    requires ListBut(h, chunks, next, list, i, merge, bp)
    ensures bp in h && 0 <= i <= |list| && (merge != FL_HEAD ==> merge in h && merge in list && h[merge].color.Blue?)
    ensures bp < After(h, bp) && merge in next && next[merge] == Target(list, i) && bp !in list && Sorted(list)
    ensures 0 <= bp
  {
    hide Tiled;
    assert LinkAt(next, list, i);
    if merge != FL_HEAD {
      assert merge in list;
    }
  }

  lemma MergeNext(h: Heap, chunks: seq<Chunk>, next: map<int, int>, list: seq<int>, i: int, merge: int, bp: int)
    requires ListOk(h, chunks, next, list) && bp in h && h[bp].color.White? && 0 <= bp
    requires 0 <= i < |list| && list[i] == After(h, bp) && Node(list, i) == merge && (i > 0 ==> list[i - 1] < bp)
    ensures list[i] in h && h[list[i]].color.Blue? && list[i] in next && merge in next
    ensures bp in Absorb(h, bp) && |Absorb(h, bp)[bp].fields| > 0
    ensures ListBut(Absorb(h, bp), chunks, next[merge := next[list[i]]], Without(list, i), i, merge, bp)
  {
    assert list[i] in list;
    assert bp in Absorb(h, bp) && |Absorb(h, bp)[bp].fields| > 0;
    hide Without, Absorb, Sorted, Coalesced;
    WithoutMembers(list, i);
    Unlinked(next, list, i);
    AbsorbTiled(h, chunks, bp);
    AbsorbFreed(h, chunks, bp);
    var h', l := Absorb(h, bp), Without(list, i);
    MergedApart(h, h', list, l, bp, list[i]);
    AfterNext(list, i, bp, h);
    WithoutAt(list, i);
  }

  lemma AfterNext(list: seq<int>, i: int, bp: int, h: Heap)
    requires Sorted(list) && 0 <= i < |list| && bp in h && list[i] == After(h, bp)
    ensures bp < list[i] && (i + 1 < |list| ==> bp < list[i + 1])
    ensures (i > 0 ==> list[i - 1] < bp) ==> bp !in list
  {
  }

  lemma MergedApart(h: Heap, h': Heap, list: seq<int>, rest: seq<int>, bp: int, cur: int)
    requires Coalesced(h, list) && cur in list && cur in h && bp in h && bp in h' && After(h', bp) == After(h, cur)
    requires (forall a :: a in rest ==> a in list) && forall a :: a in h' && a != bp ==> a in h && h'[a] == h[a]
    requires bp !in rest
    ensures Coalesced(h', rest) && After(h', bp) !in rest
  {
    forall a | a in rest && a in h'
      ensures After(h', a) !in rest
    {
      assert h'[a] == h[a] && After(h, a) !in list;
    }
  }

  lemma WithoutAt(list: seq<int>, i: int)
    requires 0 <= i < |list|
    ensures |Without(list, i)| == |list| - 1 && Node(Without(list, i), i) == Node(list, i)
    ensures i > 0 ==> Without(list, i)[i - 1] == list[i - 1]
    ensures i < |list| - 1 ==> Without(list, i)[i] == list[i + 1]
  {
  }

  lemma NoNext(h: Heap, chunks: seq<Chunk>, next: map<int, int>, list: seq<int>, i: int, merge: int, bp: int)
    requires ListOk(h, chunks, next, list) && bp in h && h[bp].color.White? && 0 <= bp && After(h, bp) !in list
    requires 0 <= i <= |list| && Node(list, i) == merge && (i > 0 ==> list[i - 1] < bp) && (i < |list| ==> bp < list[i])
    ensures ListBut(h, chunks, next, list, i, merge, bp)
  {
    hide Tiled, Linked;
  }

  /** The next free block starts behind the one at `bp`. */
  lemma NextBehind(h: Heap, chunks: seq<Chunk>, next: map<int, int>, list: seq<int>, i: int, merge: int, bp: int,
                   a: int)
    requires ListBut(h, chunks, next, list, i, merge, bp) && a in list
    ensures a < bp ==> a <= merge && After(h, a) <= bp && (After(h, a) == bp ==> a == merge)
    ensures a > bp ==> After(h, bp) < a
  {
    var k :| 0 <= k < |list| && list[k] == a;
    if k < i {
      if a != merge {
        assert merge in list && a < merge;
      }
    } else {
      assert list[i] in list;
    }
  }

  lemma MergePrev(h: Heap, chunks: seq<Chunk>, next: map<int, int>, list: seq<int>, i: int, merge: int, bp: int)
    requires ListBut(h, chunks, next, list, i, merge, bp) && merge != FL_HEAD && merge in h && After(h, merge) == bp
    ensures ListOk(Absorb(h, merge), chunks, next, list) && LastBefore(list, merge, After(h, bp))
  {
    AbsorbTiled(h, chunks, merge);
    AbsorbFreed(h, chunks, merge);
    var h' := Absorb(h, merge);
    assert merge in list;
    forall a | a in list
      ensures a < After(h, bp) ==> a <= merge
    {
      NextBehind(h, chunks, next, list, i, merge, bp, a);
    }
    hide Tiled, Linked, Absorb, Sorted;
    forall a | a in list && a in h'
      ensures After(h', a) !in list
    {
      if a != merge {
        assert h'[a] == h[a] && After(h, a) !in list;
      }
    }
  }

  lemma PutIn(h: Heap, chunks: seq<Chunk>, next: map<int, int>, list: seq<int>, i: int, merge: int, bp: int)
    requires ListBut(h, chunks, next, list, i, merge, bp) && (merge != FL_HEAD && merge in h ==> After(h, merge) != bp)
    ensures var h' := h[bp := h[bp].(color := Blue)];
            ListOk(h', chunks, next[bp := Target(list, i)][merge := bp], With(list, i, bp)) &&
              LastBefore(With(list, i, bp), bp, After(h, bp))
  {
    var h', l := h[bp := h[bp].(color := Blue)], With(list, i, bp);
    SameSize(h, chunks, bp, h[bp].(color := Blue));
    LinkedIn(next, list, i, bp);
    WithMembers(list, i, bp);
    forall a | a in list
      ensures a in h && After(h, a) !in l && a < After(h, bp) ==> a <= bp
    {
      NextBehind(h, chunks, next, list, i, merge, bp, a);
    }
    hide Tiled, Linked, With, Sorted;
    forall a | a in l && a in h'
      ensures After(h', a) !in l
    {
      if a != bp {
        NextBehind(h, chunks, next, list, i, merge, bp, a);
        assert After(h, a) !in list;
      }
    }
  }

  lemma LeftWhite(h: Heap, chunks: seq<Chunk>, next: map<int, int>, list: seq<int>, i: int, merge: int, bp: int)
    requires ListBut(h, chunks, next, list, i, merge, bp) && !h[bp].color.Blue?
    ensures ListOk(h, chunks, next, list) && LastBefore(list, merge, After(h, bp))
  {
    forall a | a in list
      ensures a < After(h, bp) ==> a <= merge
    {
      NextBehind(h, chunks, next, list, i, merge, bp, a);
    }
    hide Tiled, Linked;
    if merge != FL_HEAD {
      assert merge in list;
    }
  }

  lemma StillNode(list: seq<int>, i: int, p: int)
    requires Sorted(list) && 0 <= i < |list| && IsNode(list, p)
    ensures IsNode(Without(list, i), if p == list[i] then Node(list, i) else p)
    ensures IsNode(Without(list, i), Node(list, i))
  {
    PrevLeft(list, i);
    hide Without;
    WithoutMembers(list, i);
  }

  lemma NodesWith(list: seq<int>, i: int, a: int, p: int)
    requires 0 <= i <= |list|
    ensures IsNode(With(list, i, a), a) && (IsNode(list, p) ==> IsNode(With(list, i, a), p))
  {
    hide With;
    WithMembers(list, i, a);
  }

  // ----- Extensions -----

  lemma FreshStart(h: Heap, chunks: seq<Chunk>, next: map<int, int>, list: seq<int>, c: int, k: Chunk)
    requires ListOk(h, chunks, next, list) && Between(chunks, c, k)
    ensures k.start !in h && k.start !in list
  {
    ChunkFresh(h, chunks, c, k);
  }

  /** A new chunk is a free block next to no other. */
  lemma GrownList(h: Heap, chunks: seq<Chunk>, next: map<int, int>, list: seq<int>, i: int, c: int, k: Chunk)
    requires ListOk(h, chunks, next, list) && Between(chunks, c, k) && 0 <= k.start
    requires 0 <= i <= |list| && (i > 0 ==> list[i - 1] < k.start) && (i < |list| ==> k.start < list[i])
    ensures ListOk(Grown(h, k), Insert(chunks, c, k), next[k.start := Target(list, i)][Node(list, i) := k.start],
                   With(list, i, k.start))
  {
    ChunkFresh(h, chunks, c, k);
    FreshStart(h, chunks, next, list, c, k);
    GrownTiled(h, chunks, c, k);
    LinkedIn(next, list, i, k.start);
    WithMembers(list, i, k.start);
    assert k.start < k.end;
    hide Tiled, Linked, With, Sorted, Between;
    var h', l := Grown(h, k), With(list, i, k.start);
    forall a | a in l && a in h'
      ensures After(h', a) !in l
    {
      if a == k.start {
        assert After(h', a) == k.end;
      } else {
        assert h'[a] == h[a] && After(h, a) !in list;
      }
    }
  }

  /** At the end of the list, `merge` is not looked at. */
  lemma AtTheEnd(list: seq<int>, merge: int, bp: int, sweepHp: int)
    requires Sorted(list) && 0 <= bp && Node(list, |list|) < bp
    ensures LastBefore(list, merge, sweepHp) ==>
              (LastBefore(With(list, |list|, bp), merge, sweepHp) <==> !(bp < sweepHp))
  {
    var l := With(list, |list|, bp);
    WithMembers(list, |list|, bp);
    hide With;
    assert bp in l;
    if LastBefore(list, merge, sweepHp) {
      assert merge < bp by {
        if merge != FL_HEAD {
          var k :| 0 <= k < |list| && list[k] == merge;
        }
      }
    }
  }

  /** The block behind `merge` does not lie before the sweep. */
  lemma BehindMerge(list: seq<int>, merge: int, p: int, hp: int)
    requires Sorted(list) && 0 <= p < |list| && Node(list, p) == merge && LastBefore(list, merge, hp)
    ensures hp <= list[p]
  {
    assert list[p] in list;
  }

  /** Further up, `merge` is advanced when the new block comes right behind it. */
  lemma InTheMiddle(list: seq<int>, merge: int, i: int, bp: int, sweepHp: int)
    requires Sorted(list) && 0 <= bp && 0 <= i <= |list| && (i > 0 ==> list[i - 1] < bp)
    requires (i < |list| ==> bp < list[i])
    ensures LastBefore(list, merge, sweepHp) ==>
              LastBefore(With(list, i, bp), if Node(list, i) == merge && bp < sweepHp then bp else merge, sweepHp)
  {
    var l := With(list, i, bp);
    WithMembers(list, i, bp);
    hide With;
    if LastBefore(list, merge, sweepHp) && bp < sweepHp {
      var p := Position(list, merge);
      if p < |list| {
        BehindMerge(list, merge, p, sweepHp);
      }
    }
  }

  /** An extension that leaves `flMerge` behind: nothing is free, and the sweep is about to free the
      second of two blocks when a chunk is added between them. The block that is freed then goes in
      front of the new one, which lies before it. */
  lemma StaleMerge()
    ensures var used := Block(0, White, [Imm(0), Imm(0), Imm(0)]);
            var chunks, h, next := [Chunk(0, 4), Chunk(20, 24)], map[0 := used, 20 := used], map[FL_HEAD := NULL];
            var k, sweepHp := Chunk(10, 14), 20;
            var chunks', h', next' := Insert(chunks, 1, k), Grown(h, k), next[k.start := NULL][FL_HEAD := k.start];
            && ListOk(h, chunks, next, []) && LastBefore([], FL_HEAD, sweepHp) && Between(chunks, 1, k)
            && ListOk(h', chunks', next', [k.start]) && !LastBefore([k.start], FL_HEAD, sweepHp)
            && CanRelease(h', next', FL_HEAD, sweepHp)
            && var f := Release(h', next', FL_HEAD, sweepHp);
               && Linked(f.next, [20, 10]) && f.merge == 20
               && forall list :: Linked(f.next, list) ==> !Sorted(list)
  {
    var used := Block(0, White, [Imm(0), Imm(0), Imm(0)]);
    var chunks, h, next := [Chunk(0, 4), Chunk(20, 24)], map[0 := used, 20 := used], map[FL_HEAD := NULL];
    var k := Chunk(10, 14);
    hide Tiled, Insert, Between;
    TwoBlocks(used);
    NothingFree(h, chunks, next, used);
    assert Between(chunks, 1, k) by {
      BetweenTwo(chunks, k);
    }
    FirstBlock(h, chunks, next, k);
    NotLastBefore(k);
    assert |Grown(h, k)[10].fields| == 3 && Grown(h, k)[20] == used;
    NextOfTwo(map[10 := NULL, FL_HEAD := 20, 20 := 10]);
    assert Release(Grown(h, k), next[10 := NULL][FL_HEAD := 10], FL_HEAD, 20).next ==
           map[10 := NULL, FL_HEAD := 20, 20 := 10];
  }

  lemma NothingFree(h: Heap, chunks: seq<Chunk>, next: map<int, int>, used: Block)
    requires Tiled(h, chunks) && h == map[0 := used, 20 := used] && used.color.White? && next == map[FL_HEAD := NULL]
    ensures ListOk(h, chunks, next, []) && LastBefore([], FL_HEAD, 20)
  {
    hide Tiled;
    assert LinkAt(next, [], 0);
  }

  lemma BetweenTwo(chunks: seq<Chunk>, k: Chunk)
    requires chunks == [Chunk(0, 4), Chunk(20, 24)] && k == Chunk(10, 14)
    ensures Between(chunks, 1, k)
  {
  }

  lemma NotLastBefore(k: Chunk)
    requires k == Chunk(10, 14)
    ensures !LastBefore([k.start], FL_HEAD, 20)
  {
    assert 10 in [k.start];
  }

  lemma TwoBlocks(used: Block)
    requires used == Block(0, White, [Imm(0), Imm(0), Imm(0)])
    ensures Tiled(map[0 := used, 20 := used], [Chunk(0, 4), Chunk(20, 24)])
  {
    var h, chunks := map[0 := used, 20 := used], [Chunk(0, 4), Chunk(20, 24)];
    assert chunks[0] == Chunk(0, 4) && chunks[1] == Chunk(20, 24);
    assert InChunk(chunks, 0, 4) && IsEnd(chunks, 4) && InChunk(chunks, 20, 24) && IsEnd(chunks, 24);
  }

  /** A first free block in a heap where nothing is free. */
  lemma FirstBlock(h: Heap, chunks: seq<Chunk>, next: map<int, int>, k: Chunk)
    requires ListOk(h, chunks, next, []) && Between(chunks, 1, k) && 0 <= k.start
    ensures ListOk(Grown(h, k), Insert(chunks, 1, k), next[k.start := NULL][FL_HEAD := k.start], [k.start])
  {
    hide ListOk, Grown, Insert;
    GrownList(h, chunks, next, [], 0, 1, k);
    assert With([], 0, k.start) == [k.start];
  }

  /** Following these links, one comes to 20 before 10. */
  lemma NextOfTwo(next: map<int, int>)
    requires next == map[10 := NULL, FL_HEAD := 20, 20 := 10]
    ensures Linked(next, [20, 10]) && forall list :: Linked(next, list) ==> !Sorted(list)
  {
    forall list | Linked(next, list)
      ensures !Sorted(list)
    {
      assert LinkAt(next, list, 0);
      assert |list| > 0 && list[0] == 20;
      assert LinkAt(next, list, 1);
      assert |list| > 1 && list[1] == 10;
    }
  }

  /** The sweep passes a block in use, or a free one, which then is the last one. */
  lemma SweepPasses(h: Heap, chunks: seq<Chunk>, next: map<int, int>, list: seq<int>, merge: int, hp: int)
    requires ListOk(h, chunks, next, list) && LastBefore(list, merge, hp) && hp in h && 0 <= hp
    ensures LastBefore(list, if h[hp].color.Blue? then hp else merge, After(h, hp))
  {
    forall a | a in list
      ensures a < After(h, hp) ==> a <= hp
    {
    }
    if merge != FL_HEAD {
      assert merge in list;
    }
    assert hp in list <==> h[hp].color.Blue?;
  }
}
