/** The gray stack, which may overflow, and the scan that makes up for it
    (src/runtime/major_gc.c). */
module Marking {
  import opened Heaps
  import opened Tricolor

  datatype Position = Null | At(p: int)

  ghost predicate Before(hp: Position, a: int) {
    hp.At? ==> a < hp.p
  }

  /** The stack holds distinct gray blocks and has room for one more; and when the heap is
      pure, it holds every gray block before the scan position. */
  ghost predicate GrayInv(h: Heap, gray: seq<int>, size: int, pure: bool, hp: Position) {
    && |gray| < size && 2 <= size
    && (forall i, j :: 0 <= i < j < |gray| ==> gray[i] != gray[j])
    && (forall i :: 0 <= i < |gray| ==> gray[i] in h && h[gray[i]].color.Gray?)
    && (pure ==> forall a {:trigger h[a]} :: a in h && h[a].color.Gray? && Before(hp, a) ==> a in gray)
  }

  /** `darken` on a value: a white block of the heap becomes gray. */
  function Darkened(h: Heap, v: Value): (h': Heap) {
    if v.Ptr? && v.a in h && h[v.a].color.White? then h[v.a := h[v.a].(color := Gray)] else h
  }

  lemma DarkenedIs(h: Heap, v: Value)
    ensures Darker(h, Darkened(h, v)) && Darkened(h, v).Keys == h.Keys
    ensures forall a {:trigger Darkened(h, v)[a]} :: a in h ==> (Darkened(h, v)[a].color.Black? <==> h[a].color.Black?)
    ensures forall a {:trigger NotWhite(Darkened(h, v), a)} ::
              NotWhite(Darkened(h, v), a) ==> NotWhite(h, a) || v == Ptr(a)
    ensures v.Ptr? && v.a in h && !h[v.a].color.Blue? ==> NotWhite(Darkened(h, v), v.a)
  {
  }

  lemma DarkenedTiled(h: Heap, chunks: seq<Chunk>, v: Value)
    requires Tiled(h, chunks)
    ensures Tiled(Darkened(h, v), chunks)
  {
    if Darkened(h, v) != h {
      SameSize(h, chunks, v.a, h[v.a].(color := Gray));
    }
  }

  /** A newly gray block is pushed. */
  lemma Pushed(h: Heap, gray: seq<int>, size: int, pure: bool, hp: Position, a: int)
    requires GrayInv(h, gray, size, pure, hp) && a in h && h[a].color.White?
    requires |gray| + 1 < size
    ensures GrayInv(h[a := h[a].(color := Gray)], gray + [a], size, pure, hp)
  {
    var h', g' := h[a := h[a].(color := Gray)], gray + [a];
    forall x | x in h' && h'[x].color.Gray? && pure && Before(hp, x)
      ensures x in g'
    {
      if x == a {
        assert g'[|gray|] == a;
      } else {
        assert h[x].color.Gray?;
      }
    }
  }

  /** When the stack is full, the top half or all of it is dropped. */
  lemma Dropped(h: Heap, gray: seq<int>, size: int, pure: bool, hp: Position, a: int, n: int)
    requires GrayInv(h, gray, size, pure, hp) && a in h && h[a].color.White? && 0 <= n <= |gray|
    ensures GrayInv(h[a := h[a].(color := Gray)], (gray + [a])[..n], size, false, hp)
  {
    var g' := (gray + [a])[..n];
    forall i | 0 <= i < |g'|
      ensures g'[i] == gray[i]
    {
    }
  }

  /** Popping a block and blackening it. */
  lemma Popped(h: Heap, gray: seq<int>, size: int, pure: bool, hp: Position)
    requires GrayInv(h, gray, size, pure, hp) && gray != []
    ensures var v := gray[|gray| - 1];
            v in h && h[v].color.Gray? && GrayInv(h[v := h[v].(color := Black)], gray[..|gray| - 1], size, pure, hp)
  {
    var n := |gray| - 1;
    var v, g' := gray[n], gray[..n];
    var h' := h[v := h[v].(color := Black)];
    forall x | x in h' && h'[x].color.Gray? && pure && Before(hp, x)
      ensures x in g'
    {
      assert h[x].color.Gray?;
      var i :| 0 <= i < |gray| && gray[i] == x;
      assert g'[i] == x;
    }
  }

  // ----- Termination -----

  ghost function Whites(h: Heap): set<int> {
    set a | a in h && h[a].color.White?
  }

  ghost function Grays(h: Heap): set<int> {
    set a | a in h && h[a].color.Gray?
  }

  /** The steps of blocks towards black that are left. */
  ghost function Left(h: Heap): nat {
    2 * |Whites(h)| + |Grays(h)|
  }

  lemma DarkenedLeft(h: Heap, v: Value)
    ensures Left(Darkened(h, v)) <= Left(h)
  {
    var h' := Darkened(h, v);
    if h' != h {
      assert Whites(h') == Whites(h) - {v.a};
      assert Grays(h') == Grays(h) + {v.a};
    }
  }

  lemma BlackenedLeft(h: Heap, a: int)
    requires a in h && h[a].color.Gray?
    ensures Left(h[a := h[a].(color := Black)]) < Left(h)
  {
    var h' := h[a := h[a].(color := Black)];
    assert Whites(h') == Whites(h);
    assert Grays(h') == Grays(h) - {a};
  }

  lemma NoneIn(s: set<int>)
    ensures (forall a :: a !in s) ==> s == {}
  {
    if forall a :: a !in s {
      assert s == {};
    }
  }

  /** The words of some blocks, headers included. */
  ghost function WordsIn(h: Heap, s: set<int>): nat
    requires s <= h.Keys
  {
    if s == {} then 0
    else
      NoneIn(s);
      var a :| a in s;
      1 + |h[a].fields| + WordsIn(h, s - {a})
  }

  lemma {:induction false} WordsWithout(h: Heap, s: set<int>, a: int)
    requires s <= h.Keys && a in s
    ensures WordsIn(h, s) == 1 + |h[a].fields| + WordsIn(h, s - {a})
    decreases |s|
  {
    var b :| b in s && WordsIn(h, s) == 1 + |h[b].fields| + WordsIn(h, s - {b});
    if b != a {
      WordsWithout(h, s - {b}, a);
      WordsWithout(h, s - {a}, b);
      assert s - {b} - {a} == s - {a} - {b};
    }
  }

  lemma {:induction false} SameWords(h: Heap, h': Heap, s: set<int>)
    requires s <= h.Keys && s <= h'.Keys && forall a :: a in s ==> |h'[a].fields| == |h[a].fields|
    ensures WordsIn(h', s) == WordsIn(h, s)
    decreases |s|
  {
    NoneIn(s);
    if s != {} {
      var a :| a in s;
      WordsWithout(h, s, a);
      WordsWithout(h', s, a);
      SameWords(h, h', s - {a});
    }
  }

  /** The words of all blocks that are neither black nor free: what marking may still have to do. */
  ghost function Unmarked(h: Heap): nat {
    WordsIn(h, Whites(h) + Grays(h))
  }

  lemma DarkenedUnmarked(h: Heap, v: Value)
    ensures Unmarked(Darkened(h, v)) == Unmarked(h)
  {
    var h' := Darkened(h, v);
    if h' != h {
      assert Whites(h') + Grays(h') == Whites(h) + Grays(h);
      SameWords(h, h', Whites(h) + Grays(h));
    }
  }

  lemma BlackenedUnmarked(h: Heap, a: int)
    requires a in h && h[a].color.Gray?
    ensures Unmarked(h[a := h[a].(color := Black)]) + 1 + |h[a].fields| == Unmarked(h)
  {
    var h' := h[a := h[a].(color := Black)];
    var s := Whites(h) + Grays(h);
    assert Whites(h') + Grays(h') == s - {a};
    WordsWithout(h, s, a);
    SameWords(h, h', s - {a});
  }

  /** How much of the scan is left. */
  ghost function Remaining(hp: Position, top: int): nat {
    match hp
    case Null => 0
    case At(p) => if top < p then 1 else top - p + 1
  }

  // ----- The scan -----

  /** The scan passes a block that is not gray, or pushes it. */
  lemma ScanBlock(h: Heap, chunks: seq<Chunk>, gray: seq<int>, size: int, pure: bool, p: int)
    requires Tiled(h, chunks) && GrayInv(h, [], size, pure, At(p)) && p in h
    requires gray == if h[p].color.Gray? then [p] else []
    ensures GrayInv(h, gray, size, pure, At(After(h, p)))
  {
    forall a | a in h && h[a].color.Gray? && pure && a < After(h, p)
      ensures a in gray
    {
      if a < p {
        assert a in [];
      }
    }
  }

  /** From the end of a chunk the scan goes on at the next one, or is over. */
  lemma ScanHop(h: Heap, gray: seq<int>, size: int, pure: bool, end: int, start: int)
    requires GrayInv(h, gray, size, pure, At(end)) && forall a :: a in h && a < start ==> a < end
    ensures GrayInv(h, gray, size, pure, At(start))
  {
  }

  lemma ScanOver(h: Heap, gray: seq<int>, size: int, pure: bool, end: int)
    requires GrayInv(h, gray, size, pure, At(end)) && forall a :: a in h ==> a < end
    ensures GrayInv(h, gray, size, pure, Null)
  {
  }

  /** A new scan starts at the first chunk, with a heap that counts as pure again. */
  lemma ScanStart(h: Heap, size: int, start: int)
    requires GrayInv(h, [], size, false, Null) && forall a :: a in h ==> start <= a
    ensures GrayInv(h, [], size, true, At(start))
  {
  }
}
