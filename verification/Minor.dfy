/** The minor collection (src/runtime/minor_gc.c): young objects that can be reached are
    copied to the heap, once each, and all pointers to them follow. */
module Minor {
  import opened Heaps
  import opened Tricolor
  import opened Marking
  import opened Collectors
  import opened Allocation

  /** The young block at `a` has been copied to `b`: it is marked blue, and its first field
      points there. */
  ghost predicate Forwarded(y0: Heap, y: Heap, a: int, b: int) {
    && a in y0 && a in y && y0[a].fields != [] && |y[a].fields| == |y0[a].fields| && y[a].tag == y0[a].tag
    && y[a].color.Blue? && y[a].fields[0] == Ptr(b)
    && forall k :: 1 <= k < |y0[a].fields| ==> y[a].fields[k] == y0[a].fields[k]
  }

  /** A young object is where it was, untouched, or has been moved; others stay. */
  ghost predicate PlaceOk(h: Heap, y0: Heap, y: Heap, w0: World, w: World, i: int) {
    && i in w0.loc && i in w.loc
    && if w0.loc[i] in y0 then
         if w.loc[i] == w0.loc[i] then w.loc[i] in y && y[w.loc[i]] == y0[w.loc[i]]
         else Live(h, w.loc[i]) && Forwarded(y0, y, w0.loc[i], w.loc[i])
       else w.loc[i] == w0.loc[i] && Live(h, w.loc[i])
  }

  ghost predicate PlacesOk(h: Heap, y0: Heap, y: Heap, w0: World, w: World) {
    && w.mem == w0.mem && w.loc.Keys == w0.loc.Keys
    && forall i {:trigger PlaceOk(h, y0, y, w0, w, i)} :: i in w.loc ==> PlaceOk(h, y0, y, w0, w, i)
  }

  /** Fields that are not pending no longer point into the young generation. */
  ghost predicate OldOnly(h: Heap, w: World, pending: set<Slot>, lo: int, hi: int) {
    forall a, k {:trigger h[a].fields[k]} :: a in h && a in w.at && 0 <= k < |h[a].fields| && (a, k) !in pending ==>
      !IsYoung(h[a].fields[k], lo, hi)
  }

  /** The state in the middle of a minor collection that started with `y0` and `w0`. */
  ghost predicate MinorOk(h: Heap, chunks: seq<Chunk>, y0: Heap, y: Heap, lo: int, ptr: int, hi: int, w0: World,
                          w: World, pending: set<Slot>) {
    && Tiled(h, chunks) && YoungOk(y, lo, ptr, hi, chunks) && y.Keys == y0.Keys
    && WorldOk(w0) && HeapHolds(y0, w0, {}) && WorldOk(w) && Kept(h, y, w)
    && PlacesOk(h, y0, y, w0, w) && HeapHolds(h, w, pending) && OldOnly(h, w, pending, lo, hi)
  }

  ghost predicate RootsBut(roots: seq<Value>, mroots: seq<Value>, loc0: map<int, int>, loc: map<int, int>,
                           pending: set<int>, lo: int, hi: int) {
    && |roots| == |mroots|
    && (forall k :: 0 <= k < |roots| ==> Known(loc, mroots[k]))
    && (forall k :: 0 <= k < |roots| && k in pending ==> roots[k] == Conc(loc0, mroots[k]))
    && (forall k ::
          0 <= k < |roots| && k !in pending ==> roots[k] == Conc(loc, mroots[k]) && !IsYoung(roots[k], lo, hi))
  }

  // ----- Where a value of the old state has gone -----

  /** A value that does not point to a young block is stored as before. */
  lemma OldValue(h: Heap, y0: Heap, y: Heap, w0: World, w: World, m: Value, lo: int, ptr: int, hi: int,
                 chunks: seq<Chunk>)
    requires PlacesOk(h, y0, y, w0, w) && Known(w0.loc, m) && YoungOk(y, lo, ptr, hi, chunks) && y.Keys == y0.Keys
    requires !IsYoung(Conc(w0.loc, m), lo, hi)
    ensures Conc(w.loc, m) == Conc(w0.loc, m)
  {
    if m.Ptr? {
      assert PlaceOk(h, y0, y, w0, w, m.a);
      assert w0.loc[m.a] in y ==> lo <= w0.loc[m.a] < ptr;
    }
  }

  /** A young value is a young block of a kept object. */
  lemma YoungValue(h: Heap, chunks: seq<Chunk>, y0: Heap, y: Heap, w0: World, w: World, m: Value, lo: int, ptr: int,
                   hi: int)
    requires MinorOk(h, chunks, y0, y, lo, ptr, hi, w0, w, {}) ||
               (PlacesOk(h, y0, y, w0, w) && YoungOk(y, lo, ptr, hi, chunks) && Tiled(h, chunks))
    requires Known(w0.loc, m) && IsYoung(Conc(w0.loc, m), lo, hi)
    ensures m.Ptr? && m.a in w.loc && w0.loc[m.a] in y0 && PlaceOk(h, y0, y, w0, w, m.a)
  {
    assert PlaceOk(h, y0, y, w0, w, m.a);
    YoungApart(h, chunks, y, lo, ptr, hi);
  }

  // ----- Storing into a pending field -----

  function Stored(h: Heap, a: int, k: int, v: Value): (h': Heap)
    requires a in h && 0 <= k < |h[a].fields|
  {
    h[a := h[a].(fields := h[a].fields[k := v])]
  }

  /** A pending field gets its value, which is not young. */
  lemma StoredOk(h: Heap, chunks: seq<Chunk>, y0: Heap, y: Heap, lo: int, ptr: int, hi: int, w0: World, w: World,
                 pending: set<Slot>, a: int, k: int, v: Value)
    requires MinorOk(h, chunks, y0, y, lo, ptr, hi, w0, w, pending)
    requires a in h && a in w.at && 0 <= k < |h[a].fields| && w.at[a] in w.mem
    requires |w.mem[w.at[a]].fields| == |h[a].fields|
    requires v == Conc(w.loc, w.mem[w.at[a]].fields[k]) && !IsYoung(v, lo, hi)
    ensures MinorOk(Stored(h, a, k, v), chunks, y0, y, lo, ptr, hi, w0, w, pending - {(a, k)})
  {
    var h', p' := Stored(h, a, k, v), pending - {(a, k)};
    SameSize(h, chunks, a, h[a].(fields := h[a].fields[k := v]));
    forall b | b in h' && b in w.at
      ensures HoldsAt(h', w, p', b)
    {
      assert HoldsAt(h, w, pending, b);
    }
    hide Tiled, YoungOk, HeapHolds, WorldOk;
    forall i | i in w.loc
      ensures PlaceOk(h', y0, y, w0, w, i)
    {
      assert PlaceOk(h, y0, y, w0, w, i);
    }
    forall b, l {:trigger h'[b].fields[l]} | b in h' && b in w.at && 0 <= l < |h'[b].fields| && (b, l) !in p'
      ensures !IsYoung(h'[b].fields[l], lo, hi)
    {
      if (b, l) != (a, k) {
        assert h'[b].fields[l] == h[b].fields[l];
      }
    }
  }

  // ----- Promoting a young object -----

  /** The young block with the forward flag and pointer. */
  function Forward(y: Heap, a: int, b: int): (y': Heap)
    requires a in y && y[a].fields != []
  {
    y[a := Block(y[a].tag, Blue, y[a].fields[0 := Ptr(b)])]
  }

  lemma MovedHolds(h: Heap, h': Heap, w: World, pending: set<Slot>, j: int, hp: int, n: int, tag: int, color: Color,
                   lo: int, hi: int)
    requires WorldOk(w) && HeapHolds(h, w, pending) && SameKept(h, h', w) && OldOnly(h, w, pending, lo, hi)
    requires j in w.loc && j in w.mem && lo <= w.loc[j] < hi && w.loc[j] !in h && hp !in w.at
    requires Allocated(h, h', hp, n, tag, color) && !color.Blue? && n == |w.mem[j].fields| && tag == w.mem[j].tag
    ensures HeapHolds(h', Move(w, j, hp), pending + Slots(hp, n))
    ensures OldOnly(h', Move(w, j, hp), pending + Slots(hp, n), lo, hi)
  {
    var w', p' := Move(w, j, hp), pending + Slots(hp, n);
    var was := w.loc[j];
    assert was in w.at && was !in h';
    forall b | b in h' && b in w'.at
      ensures HoldsAt(h', w', p', b)
    {
      if b != hp {
        assert b in w.at && b in h && h'[b] == h[b];
        assert HoldsAt(h, w, pending, b);
        MovedBlock(h, w, pending, j, hp, b, lo, hi);
      }
    }
    forall b, l {:trigger h'[b].fields[l]} | b in h' && b in w'.at && 0 <= l < |h'[b].fields| && (b, l) !in p'
      ensures !IsYoung(h'[b].fields[l], lo, hi)
    {
      if b != hp {
        assert b in w.at && b in h && h'[b] == h[b] && h[b].fields[l] == h'[b].fields[l];
      }
    }
  }

  /** No settled field points to the object that moves. */
  lemma MovedBlock(h: Heap, w: World, pending: set<Slot>, j: int, hp: int, b: int, lo: int, hi: int)
    requires WorldOk(w) && HoldsAt(h, w, pending, b) && OldOnly(h, w, pending, lo, hi) && j in w.loc
    requires lo <= w.loc[j] < hi
    ensures forall k :: 0 <= k < |h[b].fields| && (b, k) !in pending ==>
              h[b].fields[k] == Conc(w.loc[j := hp], w.mem[w.at[b]].fields[k])
  {
    var i := w.at[b];
    assert i in w.loc && Closed(w, i);
    forall k | 0 <= k < |h[b].fields| && (b, k) !in pending
      ensures h[b].fields[k] == Conc(w.loc[j := hp], w.mem[i].fields[k])
    {
      assert !IsYoung(h[b].fields[k], lo, hi) && Known(w.loc, w.mem[i].fields[k]);
    }
  }

  lemma MovedPlaces(h: Heap, h': Heap, y0: Heap, y: Heap, w0: World, w: World, j: int, hp: int, n: int, tag: int,
                    color: Color)
    requires PlacesOk(h, y0, y, w0, w) && WorldOk(w) && WorldOk(w0) && j in w.loc && w.loc[j] == w0.loc[j]
    requires w0.loc[j] in y0 && y.Keys == y0.Keys
    requires Allocated(h, h', hp, n, tag, color) && !color.Blue? && y0[w0.loc[j]].fields != [] && hp !in y0
    ensures w.loc[j] in y && y[w.loc[j]].fields != []
    ensures PlacesOk(h', y0, Forward(y, w.loc[j], hp), w0, Move(w, j, hp))
  {
    var a := w.loc[j];
    assert PlaceOk(h, y0, y, w0, w, j);
    var y', w' := Forward(y, a, hp), Move(w, j, hp);
    forall i | i in w'.loc
      ensures PlaceOk(h', y0, y', w0, w', i)
    {
      assert PlaceOk(h, y0, y, w0, w, i);
      if i != j {
        OtherPlace(h, h', y0, y, w0, w, i, j, hp, n, tag, color);
      }
    }
  }

  lemma OtherPlace(h: Heap, h': Heap, y0: Heap, y: Heap, w0: World, w: World, i: int, j: int, hp: int, n: int, tag: int,
                   color: Color)
    requires PlaceOk(h, y0, y, w0, w, i) && WorldOk(w) && WorldOk(w0) && i in w.loc && j in w.loc && i != j
    requires w.loc[j] in y
    requires Allocated(h, h', hp, n, tag, color) && y[w.loc[j]].fields != []
    requires j in w0.loc && w.loc[j] == w0.loc[j]
    ensures PlaceOk(h', y0, Forward(y, w.loc[j], hp), w0, Move(w, j, hp), i)
  {
    var a, b := w0.loc[i], w0.loc[j];
    assert w0.at[a] == i && w0.at[b] == j;
    var c := w.loc[i];
    assert Live(h, c) ==> c in h' && h'[c] == h[c];
  }

  lemma MovedKept(h: Heap, h': Heap, y: Heap, w: World, j: int, hp: int, n: int, tag: int, color: Color)
    requires Kept(h, y, w) && SameKept(h, h', w) && j in w.loc && Allocated(h, h', hp, n, tag, color) && !color.Blue?
    requires w.loc[j] in y && y[w.loc[j]].fields != [] && forall a :: a in y ==> a !in h'
    ensures Kept(h', Forward(y, w.loc[j], hp), Move(w, j, hp))
  {
    var w' := Move(w, j, hp);
    forall a | a in w'.at
      ensures Live(h', a) || (a in Forward(y, w.loc[j], hp) && a !in h')
    {
      if a != hp {
        assert a in w.at;
      }
    }
  }

  /** A young object gets a block in the heap, whose fields are pending. */
  lemma PromotedOk(h: Heap, h': Heap, chunks: seq<Chunk>, chunks': seq<Chunk>, y0: Heap, y: Heap, lo: int, ptr: int,
                   hi: int, w0: World, w: World, pending: set<Slot>, j: int, hp: int, n: int, tag: int, color: Color)
    requires MinorOk(h, chunks, y0, y, lo, ptr, hi, w0, w, pending)
    requires j in w.loc && j in w0.loc && w.loc[j] == w0.loc[j] && w0.loc[j] in y0
    requires Allocated(h, h', hp, n, tag, color) && !color.Blue? && Tiled(h', chunks')
    requires YoungOk(y, lo, ptr, hi, chunks')
    requires j in w.mem && n == |w.mem[j].fields| && tag == w.mem[j].tag
    ensures w.loc[j] in y && y[w.loc[j]].fields != []
    ensures MinorOk(h', chunks', y0, Forward(y, w.loc[j], hp), lo, ptr, hi, w0, Move(w, j, hp), pending + Slots(hp, n))
  {
    hide Tiled, HeapHolds, WorldOk, Kept, PlacesOk, OldOnly, Allocated;
    var a := w.loc[j];
    YoungBlock(h, chunks, y0, y, lo, ptr, hi, w0, w, pending, j);
    YoungApart(h, chunks, y, lo, ptr, hi);
    YoungApart(h', chunks', y, lo, ptr, hi);
    AllocatedSameKept(h, h', y, w, hp, n, tag, color);
    assert hp !in y by {
      NewInHeap(h, h', hp, n, tag, color);
    }
    MoveWorld(w, j, hp);
    MovedKept(h, h', y, w, j, hp, n, tag, color);
    MovedPlaces(h, h', y0, y, w0, w, j, hp, n, tag, color);
    MovedHolds(h, h', w, pending, j, hp, n, tag, color, lo, hi);
  }

  lemma NewInHeap(h: Heap, h': Heap, hp: int, n: int, tag: int, color: Color)
    requires Allocated(h, h', hp, n, tag, color)
    ensures hp in h'
  {
  }

  /** What the young block of an object that has not moved holds. */
  lemma YoungBlock(h: Heap, chunks: seq<Chunk>, y0: Heap, y: Heap, lo: int, ptr: int, hi: int, w0: World, w: World,
                   pending: set<Slot>, j: int)
    requires MinorOk(h, chunks, y0, y, lo, ptr, hi, w0, w, pending)
    requires j in w.loc && j in w0.loc && w.loc[j] == w0.loc[j] && w0.loc[j] in y0
    ensures w.loc[j] in y && y[w.loc[j]] == y0[w.loc[j]] && lo <= w.loc[j] < ptr && j in w.mem
    ensures HoldsAt(y0, w0, {}, w.loc[j])
    ensures |y[w.loc[j]].fields| == |w.mem[j].fields| && y[w.loc[j]].tag == w.mem[j].tag
    ensures y[w.loc[j]].fields != [] && !y[w.loc[j]].color.Blue?
    ensures w0.at[w.loc[j]] == j && forall k :: 0 <= k < |w.mem[j].fields| ==> Known(w0.loc, w.mem[j].fields[k])
  {
    var a := w.loc[j];
    assert PlaceOk(h, y0, y, w0, w, j);
    assert a in w0.at && w0.at[a] == j;
    assert HoldsAt(y0, w0, {}, a);
    assert Closed(w0, j);
  }

  /** A block without pointers is copied as a whole. */
  lemma CopiedOk(h: Heap, chunks: seq<Chunk>, y0: Heap, y: Heap, lo: int, ptr: int, hi: int, w0: World, w: World,
                 pending: set<Slot>, hp: int, fs: seq<Value>)
    requires hp in h && MinorOk(h, chunks, y0, y, lo, ptr, hi, w0, w, pending + Slots(hp, |h[hp].fields|))
    requires hp in w.at && w.at[hp] in w.mem && fs == w.mem[w.at[hp]].fields && |fs| == |h[hp].fields|
    requires forall k :: 0 <= k < |fs| ==> fs[k].Imm?
    ensures MinorOk(h[hp := h[hp].(fields := fs)], chunks, y0, y, lo, ptr, hi, w0, w, pending)
  {
    var h', p := h[hp := h[hp].(fields := fs)], pending + Slots(hp, |h[hp].fields|);
    SameSize(h, chunks, hp, h[hp].(fields := fs));
    forall b | b in h' && b in w.at
      ensures HoldsAt(h', w, pending, b)
    {
      assert HoldsAt(h, w, p, b);
    }
    hide Tiled, YoungOk, HeapHolds, WorldOk;
    forall i | i in w.loc
      ensures PlaceOk(h', y0, y, w0, w, i)
    {
      assert PlaceOk(h, y0, y, w0, w, i);
    }
    forall b, l {:trigger h'[b].fields[l]} | b in h' && b in w.at && 0 <= l < |h'[b].fields| && (b, l) !in pending
      ensures !IsYoung(h'[b].fields[l], lo, hi)
    {
      if b != hp {
        assert h'[b].fields[l] == h[b].fields[l];
      }
    }
  }

  // ----- The copy -----

  /** The place that holds a value: a root or a field in the heap. */
  datatype Place = RootAt(k: int) | FieldAt(a: int, k: int)

  /** The place is pending and holds, or is to hold, the mutator's value `m`. */
  ghost predicate PendingAt(h: Heap, w: World, roots: seq<Value>, mroots: seq<Value>, p: Place, m: Value,
                            pendingFields: set<Slot>, pendingRoots: set<int>) {
    match p
    case RootAt(k) => 0 <= k < |roots| == |mroots| && k in pendingRoots && mroots[k] == m
    case FieldAt(a, k) =>
      && a in h && a in w.at && w.at[a] in w.mem && 0 <= k < |h[a].fields| == |w.mem[w.at[a]].fields|
      && (a, k) in pendingFields && w.mem[w.at[a]].fields[k] == m
  }

  ghost predicate PendingPlace(c: Collector, p: Place, m: Value, fields: set<Slot>, roots: set<int>)
    reads c
  {
    PendingAt(c.heap, c.w, c.roots, c.mroots, p, m, fields, roots)
  }

  ghost predicate PendingIn(h: Heap, w: World, fields: set<Slot>) {
    forall s {:trigger s in fields} :: s in fields ==> s.0 in h && s.0 in w.at
  }

  ghost predicate CopyOk(c: Collector, y0: Heap, w0: World, fields: set<Slot>, roots: set<int>)
    reads c
  {
    && MinorOk(c.heap, c.chunks, y0, c.young, c.youngStart, c.youngPtr, c.youngEnd, w0, c.w, fields)
    && RootsBut(c.roots, c.mroots, w0.loc, c.w.loc, roots, c.youngStart, c.youngEnd)
    && PendingIn(c.heap, c.w, fields)
    && PhaseOk(c.phase, c.heap, c.chunks, c.w, c.snap, c.gray, c.graySize, c.pure, c.markHp, c.chunk, c.limit,
               c.sweepHp)
  }

  ghost function FieldsLeft(p: Place, fields: set<Slot>): set<Slot> {
    if p.FieldAt? then fields - {(p.a, p.k)} else fields
  }

  ghost function RootsLeft(p: Place, roots: set<int>): set<int> {
    if p.RootAt? then roots - {p.k} else roots
  }

  /** Writes a value to its place. */
  method Assign(c: Collector, p: Place, v: Value, ghost m: Value, ghost y0: Heap, ghost w0: World,
                ghost fields: set<Slot>, ghost roots: set<int>)
    requires CopyOk(c, y0, w0, fields, roots) && PendingPlace(c, p, m, fields, roots)
    requires v == Conc(c.w.loc, m) && !IsYoung(v, c.youngStart, c.youngEnd)
    modifies c`heap, c`roots
    ensures CopyOk(c, y0, w0, FieldsLeft(p, fields), RootsLeft(p, roots))
    ensures p.RootAt? ==> 0 <= p.k < |old(c.roots)| && c.roots == old(c.roots)[p.k := v] && c.heap == old(c.heap)
    ensures p.FieldAt? ==> p.a in old(c.heap) && 0 <= p.k < |old(c.heap)[p.a].fields|
    ensures p.FieldAt? ==> c.heap == Stored(old(c.heap), p.a, p.k, v) &&
                           c.roots == old(c.roots)
  {
    hide MinorOk, PhaseOk, RootsBut, IsYoung;
    match p {
      case RootAt(k) =>
        RootStored(c.roots, c.mroots, w0.loc, c.w.loc, roots, c.youngStart, c.youngEnd, k, v);
        c.roots := c.roots[k := v];
      case FieldAt(a, k) =>
        StoredOk(c.heap, c.chunks, y0, c.young, c.youngStart, c.youngPtr, c.youngEnd, w0, c.w, fields, a, k, v);
        MinorWorld(c, y0, w0, fields);
        PhaseRewritten(c.phase, c.heap, Stored(c.heap, a, k, v), c.chunks, c.w, c.snap, c.gray, c.graySize, c.pure,
                       c.markHp, c.chunk, c.limit, c.sweepHp);
        c.heap := Stored(c.heap, a, k, v);
    }
  }

  lemma MinorWorld(c: Collector, y0: Heap, w0: World, fields: set<Slot>)
    requires MinorOk(c.heap, c.chunks, y0, c.young, c.youngStart, c.youngPtr, c.youngEnd, w0, c.w, fields)
    ensures WorldOk(c.w) && WorldOk(w0) && c.w.mem == w0.mem && c.w.loc.Keys == w0.loc.Keys
    ensures Tiled(c.heap, c.chunks) && YoungOk(c.young, c.youngStart, c.youngPtr, c.youngEnd, c.chunks)
    ensures Kept(c.heap, c.young, c.w) && PlacesOk(c.heap, y0, c.young, w0, c.w) && c.young.Keys == y0.Keys
  {
  }

  lemma RootStored(roots: seq<Value>, mroots: seq<Value>, loc0: map<int, int>, loc: map<int, int>, pending: set<int>,
                   lo: int, hi: int, k: int, v: Value)
    requires RootsBut(roots, mroots, loc0, loc, pending, lo, hi) && 0 <= k < |roots| && v == Conc(loc, mroots[k])
    requires !IsYoung(v, lo, hi)
    ensures RootsBut(roots[k := v], mroots, loc0, loc, pending - {k}, lo, hi)
  {
  }

  lemma RootsMoved(roots: seq<Value>, mroots: seq<Value>, loc0: map<int, int>, loc: map<int, int>, pending: set<int>,
                   lo: int, hi: int, j: int, hp: int)
    requires RootsBut(roots, mroots, loc0, loc, pending, lo, hi) && j in loc && lo <= loc[j] < hi
    ensures RootsBut(roots, mroots, loc0, loc[j := hp], pending, lo, hi)
  {
  }

  /** Blocks of kept objects are still there; only the place `p` may have got another value. */
  ghost predicate CopyFrame(h: Heap, w: World, roots: seq<Value>, h': Heap, w': World, roots': seq<Value>, p: Place) {
    && w'.mem == w.mem && w'.loc.Keys == w.loc.Keys
    && (forall a {:trigger a in h'} {:trigger h[a]} :: a in h && a in w.at ==>
          a in h' && a in w'.at && w'.at[a] == w.at[a] && |h'[a].fields| == |h[a].fields|)
    && (forall a, k {:trigger h'[a].fields[k]} ::
        a in h && a in w.at && a in h' && 0 <= k < |h[a].fields| == |h'[a].fields| && p != FieldAt(a, k) ==>
          h'[a].fields[k] == h[a].fields[k])
    && |roots'| == |roots| && (forall k {:trigger roots'[k]} ::
                                 0 <= k < |roots| && p != RootAt(k) ==> roots'[k] == roots[k])
    && (forall i {:trigger w'.loc[i]} :: i in w.loc && i in w'.loc && w.loc[i] in h ==> w'.loc[i] == w.loc[i])
  }

  lemma FrameTwice(h: Heap, w: World, r: seq<Value>, h': Heap, w': World, r': seq<Value>, h'': Heap, w'': World,
                   r'': seq<Value>, p: Place, q: Place)
    requires WorldOk(w) && CopyFrame(h, w, r, h', w', r', p) && CopyFrame(h', w', r', h'', w'', r'', q)
    requires q == p || (q.FieldAt? && q.a !in w.at)
    ensures CopyFrame(h, w, r, h'', w'', r'', p)
  {
    forall a, k {:trigger h''[a].fields[k]} | a in h && a in w.at && a in h'' &&
           0 <= k < |h[a].fields| == |h''[a].fields| && p != FieldAt(a, k)
      ensures h''[a].fields[k] == h[a].fields[k]
    {
      assert a in h' && h'[a].fields[k] == h[a].fields[k];
    }
    forall k {:trigger r''[k]} | 0 <= k < |r| && p != RootAt(k)
      ensures r''[k] == r[k]
    {
      assert r'[k] == r[k];
    }
    forall i {:trigger w''.loc[i]} | i in w.loc && i in w''.loc && w.loc[i] in h
      ensures w''.loc[i] == w.loc[i]
    {
      var a := w.loc[i];
      assert a in w.at && a in h' && w'.loc[i] == a;
    }
  }

  ghost function Unforwarded(y: Heap): set<int> {
    set a | a in y && !y[a].color.Blue?
  }

  lemma ForwardedLess(y: Heap, a: int, b: int)
    requires a in y && y[a].fields != [] && !y[a].color.Blue?
    ensures |Unforwarded(Forward(y, a, b))| < |Unforwarded(y)|
  {
    assert Unforwarded(Forward(y, a, b)) == Unforwarded(y) - {a};
  }

  lemma PromotedFrame(h: Heap, h': Heap, y: Heap, w: World, r: seq<Value>, j: int, hp: int, n: int, tag: int,
                      color: Color, p: Place)
    requires WorldOk(w) && Kept(h, y, w) && j in w.loc && w.loc[j] !in h && Allocated(h, h', hp, n, tag, color)
    requires hp !in w.at
    ensures CopyFrame(h, w, r, h', Move(w, j, hp), r, p)
  {
    var w' := Move(w, j, hp);
    forall a | a in h && a in w.at
      ensures a in h' && h'[a] == h[a] && a in w'.at && w'.at[a] == w.at[a]
    {
      assert Live(h, a);
    }
  }

  lemma PromotedPending(h: Heap, h': Heap, w: World, fields: set<Slot>, j: int, hp: int, n: int, tag: int, color: Color)
    requires PendingIn(h, w, fields) && Allocated(h, h', hp, n, tag, color) && j in w.loc && w.loc[j] !in h
    requires hp !in w.at
    ensures PendingIn(h', Move(w, j, hp), fields + Slots(hp, n)) && forall k :: (hp, k) !in fields
  {
  }

  /** Some object is larger than any free block. */
  ghost predicate NoRoom(h: Heap, mem: Memory) {
    exists j {:trigger j in mem} :: j in mem && NoFree(h, |mem[j].fields|)
  }

  lemma NoRoomFor(h: Heap, mem: Memory, j: int)
    requires j in mem && NoFree(h, |mem[j].fields|)
    ensures NoRoom(h, mem)
  {
    hide NoFree;
  }

  /** Only objects of `ids` have moved, and what they point to is in `ids` as well. */
  ghost predicate MovedIn(w0: World, w: World, ids: set<int>) {
    && ClosedSet(w0, ids)
    && forall i {:trigger w.loc[i]} :: i in w.loc && i in w0.loc && w.loc[i] != w0.loc[i] ==> i in ids
  }

  lemma MovesIn(w0: World, w: World, ids: set<int>, j: int, hp: int)
    requires MovedIn(w0, w, ids) && j in w.loc && j in ids
    ensures MovedIn(w0, Move(w, j, hp), ids)
  {
  }

  lemma FieldsIn(w0: World, w: World, ids: set<int>, j: int)
    requires MovedIn(w0, w, ids) && j in ids && j in w0.mem
    ensures forall k :: 0 <= k < |w0.mem[j].fields| ==> In(w0.mem[j].fields[k], ids)
  {
  }

  ghost predicate In(m: Value, ids: set<int>) {
    m.Ptr? ==> m.a in ids
  }

  lemma PtrIn(j: int, ids: set<int>)
    ensures In(Ptr(j), ids) <==> j in ids
  {
  }

  /** Copies the header of a young object to a new block in the heap, and leaves the flag and
      the pointer that tell where it has gone. */
  method Promote(c: Collector, a: int, increment: int, ghost j: int, ghost y0: Heap, ghost w0: World,
                 ghost fields: set<Slot>, ghost roots: set<int>, ghost p: Place, ghost ids: set<int>)
    returns (hp: int, ok: bool)
    requires CopyOk(c, y0, w0, fields, roots) && MovedIn(w0, c.w, ids) && j in ids
    requires j in c.w.loc && j in w0.loc && c.w.loc[j] == w0.loc[j] == a && a in y0 && a in c.young
    modifies c`heap, c`chunks, c`young, c`w
    ensures ok ==> j in old(c.w).mem && CopyOk(c, y0, w0, fields + Slots(hp, |old(c.w).mem[j].fields|), roots)
    ensures ok ==> CopyFrame(old(c.heap), old(c.w), c.roots, c.heap, c.w, c.roots, p)
    ensures ok ==> j in c.w.loc && c.w.loc[j] == hp && hp in c.heap && hp in c.w.at && c.w.at[hp] == j
    ensures ok ==> |c.heap[hp].fields| == |old(c.w).mem[j].fields| && hp !in old(c.w).at
    ensures ok ==> forall k :: (hp, k) !in fields
    ensures ok ==> |Unforwarded(c.young)| < |Unforwarded(old(c.young))| && MovedIn(w0, c.w, ids)
    ensures !ok ==> NoRoom(c.heap, w0.mem)
  {
    hide *;
    ghost var h, w, ch := c.heap, c.w, c.chunks;
    CopyParts(c, y0, w0, fields, roots);
    MinorWorld(c, y0, w0, fields);
    YoungBlock(c.heap, c.chunks, y0, c.young, c.youngStart, c.youngPtr, c.youngEnd, w0, c.w, fields, j);
    YoungApart(c.heap, c.chunks, c.young, c.youngStart, c.youngPtr, c.youngEnd);
    var n, tag := |c.young[a].fields|, c.young[a].tag;
    hp, ok := AllocShr(c, n, tag, increment);
    if !ok {
      NoRoomFor(c.heap, w0.mem, j);
      return;
    }
    MovesIn(w0, w, ids, j, hp);
    ghost var color := NewColor(c.phase, c.sweepHp, hp);
    NewColorIs(c.phase, c.sweepHp, hp);
    YoungApart(c.heap, c.chunks, c.young, c.youngStart, c.youngPtr, c.youngEnd);
    AllocatedSameKept(h, c.heap, c.young, w, hp, n, tag, color);
    PromotedOk(h, c.heap, ch, c.chunks, y0, c.young, c.youngStart, c.youngPtr, c.youngEnd, w0, w, fields, j, hp, n, tag,
               color);
    PhaseMoved(c.phase, h, c.heap, ch, c.chunks, c.young, w, c.snap, c.gray, c.graySize, c.pure, c.markHp, c.chunk,
               c.limit, c.sweepHp, j, hp, n, tag);
    RootsMoved(c.roots, c.mroots, w0.loc, w.loc, roots, c.youngStart, c.youngEnd, j, hp);
    PromotedPending(h, c.heap, w, fields, j, hp, n, tag, color);
    ForwardedLess(c.young, a, hp);
    PromotedFrame(h, c.heap, c.young, w, c.roots, j, hp, n, tag, color, p);
    MovedTo(w, j, hp);
    NewBlock(h, c.heap, hp, n, tag, color);
    c.young := Forward(c.young, a, hp);
    c.w := Move(w, j, hp);
    CopyFrom(c, y0, w0, fields + Slots(hp, n), roots);
  }

  lemma NewColorIs(phase: Phase, sweepHp: int, hp: int)
    ensures !NewColor(phase, sweepHp, hp).Blue?
  {
  }

  lemma MovedTo(w: World, j: int, hp: int)
    requires j in w.loc
    ensures var w' := Move(w, j, hp); w'.loc == w.loc[j := hp] && hp in w'.at && w'.at[hp] == j && w'.mem == w.mem
  {
  }

  lemma NewBlock(h: Heap, h': Heap, hp: int, n: int, tag: int, color: Color)
    requires Allocated(h, h', hp, n, tag, color)
    ensures hp in h' && |h'[hp].fields| == n && h'[hp].tag == tag
  {
  }

  lemma CopyParts(c: Collector, y0: Heap, w0: World, fields: set<Slot>, roots: set<int>)
    requires CopyOk(c, y0, w0, fields, roots)
    ensures MinorOk(c.heap, c.chunks, y0, c.young, c.youngStart, c.youngPtr, c.youngEnd, w0, c.w, fields)
    ensures RootsBut(c.roots, c.mroots, w0.loc, c.w.loc, roots, c.youngStart, c.youngEnd)
    ensures PendingIn(c.heap, c.w, fields)
    ensures PhaseOk(c.phase, c.heap, c.chunks, c.w, c.snap, c.gray, c.graySize, c.pure, c.markHp, c.chunk, c.limit,
                    c.sweepHp)
  {
    hide MinorOk, RootsBut, PendingIn, PhaseOk;
  }

  lemma CopyFrom(c: Collector, y0: Heap, w0: World, fields: set<Slot>, roots: set<int>)
    requires MinorOk(c.heap, c.chunks, y0, c.young, c.youngStart, c.youngPtr, c.youngEnd, w0, c.w, fields)
    requires RootsBut(c.roots, c.mroots, w0.loc, c.w.loc, roots, c.youngStart, c.youngEnd)
    requires PendingIn(c.heap, c.w, fields)
    requires PhaseOk(c.phase, c.heap, c.chunks, c.w, c.snap, c.gray, c.graySize, c.pure, c.markHp, c.chunk, c.limit,
                     c.sweepHp)
    ensures CopyOk(c, y0, w0, fields, roots)
  {
    hide MinorOk, RootsBut, PendingIn, PhaseOk;
  }

  /** What a value to be copied is: it needs no change, or has a new address already, or is
      a young object that has not moved. */
  datatype Case = Stays | Gone(j: int) | ToCopy(j: int)

  /** The value is the old one, or has been taken care of already. */
  ghost predicate OldOrNew(v: Value, m: Value, loc0: map<int, int>, loc: map<int, int>, lo: int, hi: int) {
    Known(loc0, m) && (v == Conc(loc0, m) || (v == Conc(loc, m) && !IsYoung(v, lo, hi)))
  }

  lemma CaseOf(c: Collector, y0: Heap, w0: World, fields: set<Slot>, roots: set<int>, v: Value,
               m: Value) returns (k: Case)
    requires CopyOk(c, y0, w0, fields, roots) && OldOrNew(v, m, w0.loc, c.w.loc, c.youngStart, c.youngEnd)
    ensures k.Stays? <==> !IsYoung(v, c.youngStart, c.youngEnd)
    ensures k.Stays? ==> v == Conc(c.w.loc, m)
    ensures !k.Stays? ==> v.Ptr? && v.a in c.young && m == Ptr(k.j) && k.j in c.w.loc && k.j in w0.loc
    ensures !k.Stays? ==> w0.loc[k.j] == v.a && v.a in y0
    ensures k.Gone? ==> c.young[v.a].color.Blue? && c.young[v.a].fields != []
    ensures k.Gone? ==> c.young[v.a].fields[0] == Conc(c.w.loc, m) &&
                        !IsYoung(c.young[v.a].fields[0], c.youngStart, c.youngEnd)
    ensures k.ToCopy? ==> !c.young[v.a].color.Blue? && c.w.loc[k.j] == v.a
  {
    hide PhaseOk, RootsBut, HeapHolds, Tiled, OldOnly, WorldOk;
    CopyParts(c, y0, w0, fields, roots);
    MinorWorld(c, y0, w0, fields);
    if !IsYoung(v, c.youngStart, c.youngEnd) && v == Conc(c.w.loc, m) {
      k := Stays;
    } else if !IsYoung(v, c.youngStart, c.youngEnd) {
      OldValue(c.heap, y0, c.young, w0, c.w, m, c.youngStart, c.youngPtr, c.youngEnd, c.chunks);
      k := Stays;
    } else {
      YoungValue(c.heap, c.chunks, y0, c.young, w0, c.w, m, c.youngStart, c.youngPtr, c.youngEnd);
      YoungApart(c.heap, c.chunks, c.young, c.youngStart, c.youngPtr, c.youngEnd);
      assert PlaceOk(c.heap, y0, c.young, w0, c.w, m.a);
      if c.w.loc[m.a] == v.a {
        k := ToCopy(m.a);
        YoungBlock(c.heap, c.chunks, y0, c.young, c.youngStart, c.youngPtr, c.youngEnd, w0, c.w, fields, m.a);
      } else {
        k := Gone(m.a);
      }
    }
  }

  /** The new block's fields from `i` on. */
  ghost function SlotsFrom(a: int, i: int, n: int): set<Slot> {
    set k | i <= k < n :: (a, k)
  }

  lemma SlotsSteps(fields: set<Slot>, a: int, n: int)
    requires forall k :: (a, k) !in fields
    ensures fields + Slots(a, n) == fields + SlotsFrom(a, 0, n) && fields + SlotsFrom(a, n, n) == fields
    ensures forall i ::
              0 <= i < n ==> FieldsLeft(FieldAt(a, i), fields + SlotsFrom(a, i, n)) == fields + SlotsFrom(a, i + 1, n)
    ensures forall i :: 0 <= i < n ==> (a, i) in fields + SlotsFrom(a, i, n)
  {
    forall i | 0 <= i < n
      ensures FieldsLeft(FieldAt(a, i), fields + SlotsFrom(a, i, n)) == fields + SlotsFrom(a, i + 1, n)
    {
      assert SlotsFrom(a, i, n) - {(a, i)} == SlotsFrom(a, i + 1, n);
    }
  }

  /** Stores at `p` what the value `v` becomes, after copying the young object that it
      points to and all that follows from it. */
  method Oldify(c: Collector, p: Place, v: Value, increment: int, ghost m: Value, ghost y0: Heap, ghost w0: World,
                ghost fields: set<Slot>, ghost roots: set<int>, ghost ids: set<int>) returns (ok: bool)
    requires CopyOk(c, y0, w0, fields, roots) && PendingPlace(c, p, m, fields, roots) && MovedIn(w0, c.w, ids)
    requires In(m, ids)
    requires OldOrNew(v, m, w0.loc, c.w.loc, c.youngStart, c.youngEnd)
    modifies c`heap, c`chunks, c`young, c`w, c`roots
    ensures ok ==> CopyOk(c, y0, w0, FieldsLeft(p, fields), RootsLeft(p, roots))
    ensures ok ==> CopyFrame(old(c.heap), old(c.w), old(c.roots), c.heap, c.w, c.roots, p)
    ensures ok ==> |Unforwarded(c.young)| <= |Unforwarded(old(c.young))| && MovedIn(w0, c.w, ids)
    ensures !ok ==> NoRoom(c.heap, w0.mem)
    decreases |Unforwarded(c.young)|, 1
  {
    hide *;
    ghost var k := CaseOf(c, y0, w0, fields, roots, v, m);
    YoungTest(v, c.youngStart, c.youngEnd);
    if !(v.Ptr? && c.youngStart <= v.a < c.youngEnd) {
      AssignAndFrame(c, p, v, m, y0, w0, fields, roots);
      return true;
    }
    if c.young[v.a].color.Blue? {
      AssignAndFrame(c, p, c.young[v.a].fields[0], m, y0, w0, fields, roots);
      return true;
    }
    PtrIn(k.j, ids);
    ok := Copy(c, p, v.a, increment, k.j, y0, w0, fields, roots, ids);
  }

  lemma YoungTest(v: Value, lo: int, hi: int)
    ensures IsYoung(v, lo, hi) <==> v.Ptr? && lo <= v.a < hi
  {
  }

  method AssignAndFrame(c: Collector, p: Place, v: Value, ghost m: Value, ghost y0: Heap, ghost w0: World,
                        ghost fields: set<Slot>, ghost roots: set<int>)
    requires CopyOk(c, y0, w0, fields, roots) && PendingPlace(c, p, m, fields, roots)
    requires v == Conc(c.w.loc, m) && !IsYoung(v, c.youngStart, c.youngEnd)
    modifies c`heap, c`roots
    ensures CopyOk(c, y0, w0, FieldsLeft(p, fields), RootsLeft(p, roots))
    ensures CopyFrame(old(c.heap), c.w, old(c.roots), c.heap, c.w, c.roots, p)
  {
    hide CopyOk;
    Assign(c, p, v, m, y0, w0, fields, roots);
  }

  lemma StillPending(h: Heap, w: World, r: seq<Value>, mr: seq<Value>, h': Heap, w': World, r': seq<Value>, p: Place,
                     m: Value, q: Place, fields: set<Slot>, roots: set<int>, fields': set<Slot>)
    requires CopyFrame(h, w, r, h', w', r', q) && fields <= fields' && PendingAt(h, w, r, mr, p, m, fields, roots)
    ensures PendingAt(h', w', r', mr, p, m, fields', roots)
  {
  }

  lemma YoungContents(c: Collector, y0: Heap, w0: World, fields: set<Slot>, roots: set<int>, j: int)
    requires CopyOk(c, y0, w0, fields, roots) && j in c.w.loc && j in w0.loc && c.w.loc[j] == w0.loc[j]
    requires w0.loc[j] in y0
    ensures WorldOk(c.w) && j in c.w.mem && c.w.mem == w0.mem && w0.loc[j] in c.young && c.young[w0.loc[j]].fields != []
    ensures |c.young[w0.loc[j]].fields| == |c.w.mem[j].fields| && c.young[w0.loc[j]].tag == c.w.mem[j].tag
    ensures forall k :: 0 <= k < |c.w.mem[j].fields| ==>
              c.young[w0.loc[j]].fields[k] == Conc(w0.loc, c.w.mem[j].fields[k]) && Known(w0.loc, c.w.mem[j].fields[k])
    ensures c.w.mem[j].tag >= NO_SCAN_TAG ==> c.young[w0.loc[j]].fields == c.w.mem[j].fields
    ensures c.w.mem[j].tag >= NO_SCAN_TAG ==>
              forall k :: 0 <= k < |c.w.mem[j].fields| ==> c.w.mem[j].fields[k].Imm?
  {
    hide PhaseOk, RootsBut, HeapHolds, Tiled, OldOnly;
    CopyParts(c, y0, w0, fields, roots);
    MinorWorld(c, y0, w0, fields);
    YoungBlock(c.heap, c.chunks, y0, c.young, c.youngStart, c.youngPtr, c.youngEnd, w0, c.w, fields, j);
    assert Closed(w0, j);
  }

  lemma NewAddress(c: Collector, y0: Heap, w0: World, fields: set<Slot>, roots: set<int>, j: int, hp: int)
    requires CopyOk(c, y0, w0, fields, roots) && j in c.w.loc && c.w.loc[j] == hp && hp in c.heap
    ensures Conc(c.w.loc, Ptr(j)) == Ptr(hp) && !IsYoung(Ptr(hp), c.youngStart, c.youngEnd)
  {
    hide PhaseOk, RootsBut, HeapHolds, Tiled, OldOnly, WorldOk;
    CopyParts(c, y0, w0, fields, roots);
    MinorWorld(c, y0, w0, fields);
    YoungApart(c.heap, c.chunks, c.young, c.youngStart, c.youngPtr, c.youngEnd);
  }

  /** Copies all fields of a block without pointers. */
  method CopyRaw(c: Collector, hp: int, fs: seq<Value>, ghost y0: Heap, ghost w0: World, ghost fields: set<Slot>,
                 ghost roots: set<int>, ghost h: Heap, ghost w: World, ghost p: Place)
    requires hp in c.heap && CopyOk(c, y0, w0, fields + Slots(hp, |c.heap[hp].fields|), roots)
    requires hp in c.w.at && c.w.at[hp] in c.w.mem && fs == c.w.mem[c.w.at[hp]].fields && |fs| == |c.heap[hp].fields|
    requires forall k :: 0 <= k < |fs| ==> fs[k].Imm?
    requires hp !in w.at && CopyFrame(h, w, c.roots, c.heap, c.w, c.roots, p)
    modifies c`heap
    ensures CopyOk(c, y0, w0, fields, roots) && CopyFrame(h, w, c.roots, c.heap, c.w, c.roots, p) && hp in c.heap
  {
    hide *;
    ghost var before := c.heap;
    CopyParts(c, y0, w0, fields + Slots(hp, |c.heap[hp].fields|), roots);
    MinorWorld(c, y0, w0, fields + Slots(hp, |c.heap[hp].fields|));
    CopiedOk(c.heap, c.chunks, y0, c.young, c.youngStart, c.youngPtr, c.youngEnd, w0, c.w, fields, hp, fs);
    RawRewritten(c.heap, hp, fs, c.w, fields);
    PhaseRewritten(c.phase, c.heap, c.heap[hp := c.heap[hp].(fields := fs)], c.chunks, c.w, c.snap, c.gray, c.graySize,
                   c.pure, c.markHp, c.chunk, c.limit, c.sweepHp);
    RawFrame(h, w, c.roots, c.heap, c.w, hp, fs, p);
    c.heap := c.heap[hp := c.heap[hp].(fields := fs)];
    CopyFrom(c, y0, w0, fields, roots);
  }

  lemma RawRewritten(h: Heap, hp: int, fs: seq<Value>, w: World, fields: set<Slot>)
    requires hp in h && |fs| == |h[hp].fields| && PendingIn(h, w, fields + Slots(hp, |h[hp].fields|))
    ensures Rewritten(h, h[hp := h[hp].(fields := fs)]) && PendingIn(h[hp := h[hp].(fields := fs)], w, fields)
  {
  }

  lemma RawFrame(h: Heap, w: World, r: seq<Value>, h': Heap, w': World, hp: int, fs: seq<Value>, p: Place)
    requires CopyFrame(h, w, r, h', w', r, p) && hp !in w.at && hp in h' && |fs| == |h'[hp].fields|
    ensures CopyFrame(h, w, r, h'[hp := h'[hp].(fields := fs)], w', r, p)
  {
    var h'' := h'[hp := h'[hp].(fields := fs)];
    forall a, k {:trigger h''[a].fields[k]} | a in h && a in w.at && a in h'' &&
           0 <= k < |h[a].fields| == |h''[a].fields| && p != FieldAt(a, k)
      ensures h''[a].fields[k] == h[a].fields[k]
    {
      assert h''[a] == h'[a] && h'[a].fields[k] == h[a].fields[k];
    }
  }

  /** The object of the new block and where it came from. */
  ghost predicate NewObject(c: Collector, hp: int, j: int, a: int, w0: World)
    reads c
  {
    && hp in c.heap && hp in c.w.at && c.w.at[hp] == j && j in c.w.loc && c.w.loc[j] == hp && j in c.w.mem
    && |c.heap[hp].fields| == |c.w.mem[j].fields| && j in w0.loc && w0.loc[j] == a
  }

  lemma OldFields(c: Collector, y0: Heap, w0: World, fields: set<Slot>, roots: set<int>, hp: int, j: int, a: int)
    requires CopyOk(c, y0, w0, fields, roots) && NewObject(c, hp, j, a, w0) && a in y0
    ensures c.w.mem == w0.mem && a in c.young && |c.young[a].fields| == |c.w.mem[j].fields| > 0
    ensures forall k :: 1 <= k < |c.w.mem[j].fields| ==> c.young[a].fields[k] == Conc(w0.loc, c.w.mem[j].fields[k])
    ensures forall k :: 0 <= k < |c.w.mem[j].fields| ==> Known(w0.loc, c.w.mem[j].fields[k])
  {
    hide PhaseOk, RootsBut, Tiled, OldOnly;
    CopyParts(c, y0, w0, fields, roots);
    MinorWorld(c, y0, w0, fields);
    YoungApart(c.heap, c.chunks, c.young, c.youngStart, c.youngPtr, c.youngEnd);
    assert PlaceOk(c.heap, y0, c.young, w0, c.w, j);
    assert a in w0.at && w0.at[a] == j;
    assert HoldsAt(y0, w0, {}, a) && Closed(w0, j);
  }

  lemma NewObjectKept(h: Heap, w: World, r: seq<Value>, c: Collector, q: Place, hp: int, j: int, a: int, w0: World)
    requires CopyFrame(h, w, r, c.heap, c.w, c.roots, q)
    requires hp in h && hp in w.at && w.at[hp] == j && j in w.loc && w.loc[j] == hp && j in w.mem
    requires |h[hp].fields| == |w.mem[j].fields|
    requires j in w0.loc && w0.loc[j] == a
    ensures NewObject(c, hp, j, a, w0)
  {
    assert j in c.w.loc && w.loc[j] in h;
  }

  /** Copies what the fields of a copied object point to. */
  method OldifyFields(c: Collector, a: int, hp: int, field0: Value, increment: int, ghost j: int, ghost y0: Heap,
                      ghost w0: World, ghost fields: set<Slot>, ghost roots: set<int>, ghost p: Place, ghost h: Heap,
                        ghost w: World, ghost r: seq<Value>,
                      ghost ids: set<int>)
    returns (ok: bool)
    requires MovedIn(w0, c.w, ids) && j in ids
    requires NewObject(c, hp, j, a, w0) && a in y0 && CopyOk(c, y0, w0, fields + Slots(hp, |c.heap[hp].fields|), roots)
    requires |c.heap[hp].fields| > 0 && field0 == Conc(w0.loc, c.w.mem[j].fields[0]) && forall k :: (hp, k) !in fields
    requires WorldOk(w) && hp !in w.at && CopyFrame(h, w, r, c.heap, c.w, c.roots, p)
    modifies c`heap, c`chunks, c`young, c`w, c`roots
    ensures ok ==> CopyOk(c, y0, w0, fields, roots) && CopyFrame(h, w, r, c.heap, c.w, c.roots, p)
    ensures ok ==> |Unforwarded(c.young)| <= |Unforwarded(old(c.young))| && MovedIn(w0, c.w, ids)
    ensures !ok ==> NoRoom(c.heap, w0.mem)
    decreases |Unforwarded(c.young)|, 2
  {
    hide CopyOk, CopyFrame, WorldOk, SlotsFrom, FieldsLeft, Unforwarded, Slots, Known, Conc, MovedIn, In, NoRoom;
    var n := |c.heap[hp].fields|;
    SlotsSteps(fields, hp, n);
    ok := true;
    var i := 0;
    while i < n
      invariant 0 <= i <= n && NewObject(c, hp, j, a, w0) && |c.heap[hp].fields| == n && c.w.mem == old(c.w.mem)
      invariant CopyOk(c, y0, w0, fields + SlotsFrom(hp, i, n), roots) && CopyFrame(h, w, r, c.heap, c.w, c.roots, p)
      invariant |Unforwarded(c.young)| <= |Unforwarded(old(c.young))| && MovedIn(w0, c.w, ids)
    {
      OldFields(c, y0, w0, fields + SlotsFrom(hp, i, n), roots, hp, j, a);
      ghost var h1, w1, r1 := c.heap, c.w, c.roots;
      var v := if i == 0 then field0 else c.young[a].fields[i];
      FieldsIn(w0, w1, ids, j);
      ok := Oldify(c, FieldAt(hp, i), v, increment, c.w.mem[j].fields[i], y0, w0, fields + SlotsFrom(hp, i, n), roots,
                   ids);
      if !ok {
        return;
      }
      SameRootsLeft(FieldAt(hp, i), roots);
      NewObjectKept(h1, w1, r1, c, FieldAt(hp, i), hp, j, a, w0);
      SameMemory(h1, w1, r1, c.heap, c.w, c.roots, FieldAt(hp, i));
      FrameTwice(h, w, r, h1, w1, r1, c.heap, c.w, c.roots, p, FieldAt(hp, i));
      i := i + 1;
    }
  }

  lemma SameMemory(h: Heap, w: World, r: seq<Value>, h': Heap, w': World, r': seq<Value>, q: Place)
    requires CopyFrame(h, w, r, h', w', r', q)
    ensures w'.mem == w.mem
  {
  }

  lemma SameRootsLeft(p: Place, roots: set<int>)
    requires p.FieldAt?
    ensures RootsLeft(p, roots) == roots
  {
  }

  lemma LeftOver(p: Place, fields: set<Slot>, hp: int, n: int)
    requires (forall k :: (hp, k) !in fields) && (p.FieldAt? ==> (p.a, p.k) in fields)
    ensures FieldsLeft(p, fields + Slots(hp, n)) == FieldsLeft(p, fields) + Slots(hp, n)
    ensures forall k :: (hp, k) !in FieldsLeft(p, fields)
  {
  }

  /** Copies the young block at `a` and stores its new address at `p`. */
  method Copy(c: Collector, p: Place, a: int, increment: int, ghost j: int, ghost y0: Heap, ghost w0: World,
              ghost fields: set<Slot>, ghost roots: set<int>, ghost ids: set<int>) returns (ok: bool)
    requires MovedIn(w0, c.w, ids) && j in ids
    requires CopyOk(c, y0, w0, fields, roots) && PendingPlace(c, p, Ptr(j), fields, roots)
    requires j in c.w.loc && j in w0.loc && c.w.loc[j] == w0.loc[j] == a && a in y0 && a in c.young
    modifies c`heap, c`chunks, c`young, c`w, c`roots
    ensures ok ==> CopyOk(c, y0, w0, FieldsLeft(p, fields), RootsLeft(p, roots))
    ensures ok ==> CopyFrame(old(c.heap), old(c.w), old(c.roots), c.heap, c.w, c.roots, p)
    ensures ok ==> |Unforwarded(c.young)| <= |Unforwarded(old(c.young))| && MovedIn(w0, c.w, ids)
    ensures !ok ==> NoRoom(c.heap, w0.mem)
    decreases |Unforwarded(c.young)|, 0
  {
    hide CopyOk, CopyFrame, WorldOk, FieldsLeft, RootsLeft, Unforwarded, Slots, Known, Conc, IsYoung, PendingAt,
         MovedIn, NoRoom;
    ghost var h, w, r := c.heap, c.w, c.roots;
    YoungContents(c, y0, w0, fields, roots, j);
    ghost var n := |c.w.mem[j].fields|;
    var fs, tag := c.young[a].fields, c.young[a].tag;
    var hp;
    hp, ok := Promote(c, a, increment, j, y0, w0, fields, roots, p, ids);
    if !ok {
      return;
    }
    ghost var h1, w1 := c.heap, c.w;
    SameMemory(h, w, r, h1, w1, r, p);
    StillPending(h, w, r, c.mroots, h1, w1, r, p, Ptr(j), p, fields, roots, fields + Slots(hp, n));
    NewAddress(c, y0, w0, fields + Slots(hp, n), roots, j, hp);
    PendingSlot(h, w, r, c.mroots, p, Ptr(j), fields, roots);
    LeftOver(p, fields, hp, n);
    if tag >= NO_SCAN_TAG {
      CopyRaw(c, hp, fs, y0, w0, fields, roots, h, w, p);
      ghost var h2 := c.heap;
      StillPending(h, w, r, c.mroots, h2, w1, r, p, Ptr(j), p, fields, roots, fields);
      AssignAndFrame(c, p, Ptr(hp), Ptr(j), y0, w0, fields, roots);
      FrameTwice(h, w, r, h2, w1, r, c.heap, c.w, c.roots, p, p);
    } else {
      AssignAndFrame(c, p, Ptr(hp), Ptr(j), y0, w0, fields + Slots(hp, n), roots);
      FrameTwice(h, w, r, h1, w1, r, c.heap, c.w, c.roots, p, p);
      NewObjectKept(h1, w1, r, c, p, hp, j, a, w0);
      ok := OldifyFields(c, a, hp, fs[0], increment, j, y0, w0, FieldsLeft(p, fields), RootsLeft(p, roots), p, h, w, r,
                         ids);
    }
  }

  lemma PendingSlot(h: Heap, w: World, r: seq<Value>, mr: seq<Value>, p: Place, m: Value, fields: set<Slot>,
                    roots: set<int>)
    requires PendingAt(h, w, r, mr, p, m, fields, roots)
    ensures p.FieldAt? ==> (p.a, p.k) in fields
  {
  }

  // ----- The whole collection -----

  /** The fields of kept blocks that point into the young generation. */
  ghost function YoungSlots(h: Heap, w: World, lo: int, hi: int): (slots: set<Slot>)
    ensures forall a, k {:trigger (a, k) in slots} :: (a, k) in slots <==>
              a in h && a in w.at && 0 <= k < |h[a].fields| && IsYoung(h[a].fields[k], lo, hi)
  {
    set a, k | a in h && a in w.at && 0 <= k < |h[a].fields| && IsYoung(h[a].fields[k], lo, hi) :: (a, k)
  }

  ghost function RootsFrom(i: int, n: int): (ks: set<int>)
    ensures forall k :: k in ks <==> i <= k < n
    decreases n - i
  {
    if i >= n then {} else {i} + RootsFrom(i + 1, n)
  }

  /** What waits in the table still holds the old value. */
  ghost predicate TodoOk(h: Heap, w: World, loc0: map<int, int>, todo: set<Slot>) {
    forall s {:trigger s in todo} :: s in todo ==>
      s.0 in h && s.0 in w.at && w.at[s.0] in w.mem && 0 <= s.1 < |h[s.0].fields| == |w.mem[w.at[s.0]].fields| &&
      h[s.0].fields[s.1] == Conc(loc0, w.mem[w.at[s.0]].fields[s.1])
  }

  lemma MinorStarts(h: Heap, chunks: seq<Chunk>, young: Heap, lo: int, ptr: int, hi: int, w: World,
                    roots: seq<Value>, mroots: seq<Value>, globals: int, globalData: int, refTable: seq<Slot>)
    requires MutOk(h, chunks, young, lo, ptr, hi, w, roots, mroots, globals, globalData, refTable)
    ensures MinorOk(h, chunks, young, young, lo, ptr, hi, w, w, YoungSlots(h, w, lo, hi))
    ensures RootsBut(roots, mroots, w.loc, w.loc, RootsFrom(0, |roots|), lo, hi)
    ensures PendingIn(h, w, YoungSlots(h, w, lo, hi)) && TodoOk(h, w, w.loc, YoungSlots(h, w, lo, hi))
    ensures forall s :: s in YoungSlots(h, w, lo, hi) ==> s in refTable
  {
    var todo := YoungSlots(h, w, lo, hi);
    forall a | a in h && a in w.at
      ensures HoldsAt(h, w, todo, a)
    {
      assert HoldsAt(h, w, {}, a);
    }
    forall i | i in w.loc
      ensures PlaceOk(h, young, young, w, w, i)
    {
      YoungApart(h, chunks, young, lo, ptr, hi);
      var a := w.loc[i];
      assert a in w.at;
    }
    forall s | s in todo
      ensures s in refTable && s.0 in h && s.0 in w.at && w.at[s.0] in w.mem
      ensures 0 <= s.1 < |h[s.0].fields| == |w.mem[w.at[s.0]].fields| &&
              h[s.0].fields[s.1] == Conc(w.loc, w.mem[w.at[s.0]].fields[s.1])
    {
      var a, k := s.0, s.1;
      assert (a, k) in todo;
      assert HoldsAt(h, w, {}, a);
    }
  }

  /** The objects whose blocks are in the heap. */
  ghost function InHeap(h: Heap, w: World): set<int> {
    set i | i in w.loc && w.loc[i] in h
  }

  lemma KeptValue(h: Heap, chunks: seq<Chunk>, y: Heap, lo: int, ptr: int, hi: int, w: World, m: Value)
    requires WorldOk(w) && Kept(h, y, w) && YoungOk(y, lo, ptr, hi, chunks) && Known(w.loc, m)
    requires !IsYoung(Conc(w.loc, m), lo, hi)
    ensures m.Ptr? ==> m.a in InHeap(h, w)
  {
    if m.Ptr? {
      var a := w.loc[m.a];
      assert a in w.at;
    }
  }

  /** When nothing is pending any more, no object in the heap points to a young one, so
      those left behind can be forgotten. */
  lemma MinorEnds(h: Heap, chunks: seq<Chunk>, y0: Heap, y: Heap, lo: int, ptr: int, hi: int, w0: World, w: World,
                  roots: seq<Value>, mroots: seq<Value>, globals: int, globalData: int)
    requires MinorOk(h, chunks, y0, y, lo, ptr, hi, w0, w, {}) && RootsBut(roots, mroots, w0.loc, w.loc, {}, lo, hi)
    requires chunks != []
    requires globals in w.loc && w.loc[globals] == globalData && globalData in h
    ensures InHeap(h, w) <= w.loc.Keys
    ensures MutOk(h, chunks, map[], lo, lo, hi, Restrict(w, InHeap(h, w)), roots, mroots, globals, globalData, [])
  {
    var ids := InHeap(h, w);
    hide Tiled, PlacesOk, HeapHolds, RootsBut;
    forall i, k {:trigger w.mem[i].fields[k]} | i in ids && i in w.mem && 0 <= k < |w.mem[i].fields| &&
           w.mem[i].fields[k].Ptr?
      ensures w.mem[i].fields[k].a in ids
    {
      FieldKept(h, chunks, y, lo, ptr, hi, w, i, k);
    }
    RestrictWorld(w, ids);
    RestrictHolds(h, w, ids, {});
    NothingHeld(Restrict(w, ids));
    RootsKept(h, chunks, y, lo, ptr, hi, w0, w, roots, mroots);
    EndKept(h, y, w);
    EndRefs(h, w, lo, hi);
  }

  lemma NothingHeld(w: World)
    ensures HeapHolds(map[], w, {})
  {
  }

  lemma FieldKept(h: Heap, chunks: seq<Chunk>, y: Heap, lo: int, ptr: int, hi: int, w: World, i: int, k: int)
    requires WorldOk(w) && Kept(h, y, w) && YoungOk(y, lo, ptr, hi, chunks) && HeapHolds(h, w, {})
    requires OldOnly(h, w, {}, lo, hi)
    requires i in InHeap(h, w) && i in w.mem && 0 <= k < |w.mem[i].fields|
    ensures w.mem[i].fields[k].Ptr? ==> w.mem[i].fields[k].a in InHeap(h, w)
  {
    var a := w.loc[i];
    assert a in w.at && HoldsAt(h, w, {}, a) && Closed(w, i);
    assert !IsYoung(h[a].fields[k], lo, hi);
    KeptValue(h, chunks, y, lo, ptr, hi, w, w.mem[i].fields[k]);
  }

  lemma RootsKept(h: Heap, chunks: seq<Chunk>, y: Heap, lo: int, ptr: int, hi: int, w0: World, w: World,
                  roots: seq<Value>, mroots: seq<Value>)
    requires WorldOk(w) && Kept(h, y, w) && YoungOk(y, lo, ptr, hi, chunks)
    requires RootsBut(roots, mroots, w0.loc, w.loc, {}, lo, hi)
    requires InHeap(h, w) <= w.loc.Keys
    ensures RootsOk(roots, mroots, Restrict(w, InHeap(h, w)).loc)
  {
    var w' := Restrict(w, InHeap(h, w));
    forall k | 0 <= k < |roots|
      ensures Known(w'.loc, mroots[k]) && roots[k] == Conc(w'.loc, mroots[k])
    {
      KeptValue(h, chunks, y, lo, ptr, hi, w, mroots[k]);
    }
  }

  lemma EndKept(h: Heap, y: Heap, w: World)
    requires WorldOk(w) && Kept(h, y, w) && InHeap(h, w) <= w.loc.Keys
    ensures Kept(h, map[], Restrict(w, InHeap(h, w)))
  {
    var w' := Restrict(w, InHeap(h, w));
    forall a | a in w'.at
      ensures Live(h, a)
    {
      assert a in w.at && w.at[a] in InHeap(h, w);
    }
  }

  lemma EndRefs(h: Heap, w: World, lo: int, hi: int)
    requires OldOnly(h, w, {}, lo, hi) && InHeap(h, w) <= w.loc.Keys
    ensures RefOk(h, Restrict(w, InHeap(h, w)), [], lo, hi, {})
  {
    var w' := Restrict(w, InHeap(h, w));
    forall a, k {:trigger h[a].fields[k]} | a in h && a in w'.at && 0 <= k < |h[a].fields|
      ensures !IsYoung(h[a].fields[k], lo, hi)
    {
      assert a in w.at;
    }
  }

  /** Forgetting young objects does not matter to the collector. */
  lemma PhaseRestricted(phase: Phase, h: Heap, chunks: seq<Chunk>, w: World, s: Snapshot,
                        gray: seq<int>, size: int, pure: bool, hp: Position, chunk: int, limit: int, sweepHp: int)
    requires PhaseOk(phase, h, chunks, w, s, gray, size, pure, hp, chunk, limit, sweepHp) && WorldOk(w)
    requires InHeap(h, w) <= w.loc.Keys
    ensures PhaseOk(phase, h, chunks, Restrict(w, InHeap(h, w)), s, gray, size, pure, hp, chunk, limit, sweepHp)
  {
    hide GrayInv, InPlace;
    var w' := Restrict(w, InHeap(h, w));
    assert forall a :: a in h ==> (a in w'.at <==> a in w.at) && (a in w.at ==> w'.at[a] == w.at[a]);
    if phase == MarkPhase {
      RestrictMark(h, w, s);
      forall a | NotWhite(h, a)
        ensures a in w'.at
      {
      }
    }
  }

  lemma RestrictMark(h: Heap, w: World, s: Snapshot)
    requires WorldOk(w) && InHeap(h, w) <= w.loc.Keys && MarkInv(h, w, s, -1, 0)
    ensures MarkInv(h, Restrict(w, InHeap(h, w)), s, -1, 0)
  {
    var w' := Restrict(w, InHeap(h, w));
    forall v | Dark(h, w, v)
      ensures Dark(h, w', v)
    {
    }
    hide Dark;
    forall i | i in s.mem
      ensures MarkOk(h, w', s, -1, 0, i)
    {
      assert MarkOk(h, w, s, -1, 0, i);
    }
  }

  /** The entries of the table are fields of kept blocks. */
  ghost predicate EntriesOk(h: Heap, w: World, refTable: seq<Slot>) {
    forall s {:trigger s in refTable} :: s in refTable ==> s.0 in h && s.0 in w.at && 0 <= s.1 < |h[s.0].fields|
  }

  /** What is left to do is kept while something else is done. */
  lemma TodoKept(h: Heap, w: World, r: seq<Value>, h': Heap, w': World, r': seq<Value>, p: Place, loc0: map<int, int>,
                 todo: set<Slot>, todo': set<Slot>, refTable: seq<Slot>)
    requires CopyFrame(h, w, r, h', w', r', p) && TodoOk(h, w, loc0, todo) && EntriesOk(h, w, refTable)
    requires todo' <= todo && (p.FieldAt? ==> (p.a, p.k) !in todo')
    ensures TodoOk(h', w', loc0, todo') && EntriesOk(h', w', refTable)
  {
    forall s | s in todo'
      ensures s.0 in h' && s.0 in w'.at && w'.at[s.0] in w'.mem
      ensures 0 <= s.1 < |h'[s.0].fields| == |w'.mem[w'.at[s.0]].fields|
      ensures h'[s.0].fields[s.1] == Conc(loc0, w'.mem[w'.at[s.0]].fields[s.1])
    {
      var a, k := s.0, s.1;
      assert s in todo && a in h';
      assert h'[a].fields[k] == h[a].fields[k];
    }
    forall s | s in refTable
      ensures s.0 in h' && s.0 in w'.at && 0 <= s.1 < |h'[s.0].fields|
    {
      var a := s.0;
      assert a in h';
    }
  }

  lemma RootWaits(c: Collector, y0: Heap, w0: World, fields: set<Slot>, k: int)
    requires CopyOk(c, y0, w0, fields, RootsFrom(k, |c.roots|)) && 0 <= k < |c.roots|
    ensures |c.roots| == |c.mroots| && PendingPlace(c, RootAt(k), c.mroots[k], fields, RootsFrom(k, |c.roots|))
    ensures OldOrNew(c.roots[k], c.mroots[k], w0.loc, c.w.loc, c.youngStart, c.youngEnd)
    ensures FieldsLeft(RootAt(k), fields) == fields
    ensures RootsLeft(RootAt(k), RootsFrom(k, |c.roots|)) == RootsFrom(k + 1, |c.roots|)
  {
    hide MinorOk, PhaseOk, PendingIn;
    CopyParts(c, y0, w0, fields, RootsFrom(k, |c.roots|));
    MinorWorld(c, y0, w0, fields);
  }

  /** Copies what the roots point to. */
  method OldifyRoots(c: Collector, increment: int, ghost y0: Heap, ghost w0: World, ghost fields: set<Slot>,
                     ghost ids: set<int>)
    returns (ok: bool)
    requires MovedIn(w0, c.w, ids) && RootsIn(c.mroots, ids) && EntriesIn(c.w, c.refTable, ids)
    requires CopyOk(c, y0, w0, fields, RootsFrom(0, |c.roots|)) && TodoOk(c.heap, c.w, w0.loc, fields)
    requires EntriesOk(c.heap, c.w, c.refTable)
    modifies c`heap, c`chunks, c`young, c`w, c`roots
    ensures ok ==> CopyOk(c, y0, w0, fields, {}) && TodoOk(c.heap, c.w, w0.loc, fields)
    ensures ok ==> EntriesOk(c.heap, c.w, c.refTable) && EntriesIn(c.w, c.refTable, ids) && MovedIn(w0, c.w, ids)
    ensures !ok ==> NoRoom(c.heap, w0.mem)
  {
    hide *;
    ghost var n := |c.roots|;
    var sp := 0;
    while sp < |c.roots|
      invariant 0 <= sp <= |c.roots| == n && CopyOk(c, y0, w0, fields, RootsFrom(sp, n))
      invariant TodoOk(c.heap, c.w, w0.loc, fields) && EntriesOk(c.heap, c.w, c.refTable)
      invariant EntriesIn(c.w, c.refTable, ids) && MovedIn(w0, c.w, ids)
    {
      ghost var h, w, r := c.heap, c.w, c.roots;
      RootWaits(c, y0, w0, fields, sp);
      RootIn(c.mroots, ids, sp);
      ok := Oldify(c, RootAt(sp), c.roots[sp], increment, c.mroots[sp], y0, w0, fields, RootsFrom(sp, n), ids);
      if !ok {
        return;
      }
      EntriesStay(h, w, r, c.heap, c.w, c.roots, RootAt(sp), c.refTable, ids);
      TodoKept(h, w, r, c.heap, c.w, c.roots, RootAt(sp), w0.loc, fields, fields, c.refTable);
      SameRoots(h, w, r, c.heap, c.w, c.roots, RootAt(sp));
      sp := sp + 1;
    }
    NoRoots(n);
    ok := true;
  }

  ghost predicate RootsIn(mroots: seq<Value>, ids: set<int>) {
    forall k :: 0 <= k < |mroots| ==> In(mroots[k], ids)
  }

  lemma RootIn(mroots: seq<Value>, ids: set<int>, k: int)
    requires RootsIn(mroots, ids) && 0 <= k < |mroots|
    ensures In(mroots[k], ids)
  {
  }

  /** What the fields named by the table hold is in `ids`. */
  ghost predicate EntriesIn(w: World, refTable: seq<Slot>, ids: set<int>) {
    forall s {:trigger s in refTable} :: s in refTable ==>
      s.0 in w.at && w.at[s.0] in w.mem &&
        (0 <= s.1 < |w.mem[w.at[s.0]].fields| ==> In(w.mem[w.at[s.0]].fields[s.1], ids))
  }

  lemma EntriesStay(h: Heap, w: World, r: seq<Value>, h': Heap, w': World, r': seq<Value>, p: Place,
                    refTable: seq<Slot>, ids: set<int>)
    requires CopyFrame(h, w, r, h', w', r', p) && EntriesOk(h, w, refTable) && EntriesIn(w, refTable, ids)
    ensures EntriesIn(w', refTable, ids)
  {
    hide In;
    forall s | s in refTable
      ensures s.0 in w'.at && w'.at[s.0] == w.at[s.0]
    {
      var a := s.0;
      assert a in h';
    }
  }

  lemma EntryIn(w: World, refTable: seq<Slot>, ids: set<int>, s: Slot)
    requires EntriesIn(w, refTable, ids) && s in refTable
    ensures s.0 in w.at && w.at[s.0] in w.mem
    ensures 0 <= s.1 < |w.mem[w.at[s.0]].fields| ==> In(w.mem[w.at[s.0]].fields[s.1], ids)
  {
  }

  lemma NoRoots(n: int)
    ensures RootsFrom(n, n) == {}
  {
  }

  lemma SameRoots(h: Heap, w: World, r: seq<Value>, h': Heap, w': World, r': seq<Value>, p: Place)
    requires CopyFrame(h, w, r, h', w', r', p)
    ensures |r'| == |r|
  {
  }

  /** A field named by the table may be written again, whether it still waits or not. */
  lemma EntryWaits(c: Collector, y0: Heap, w0: World, fields: set<Slot>, s: Slot)
    requires CopyOk(c, y0, w0, fields, {}) && TodoOk(c.heap, c.w, w0.loc, fields) && EntriesOk(c.heap, c.w, c.refTable)
    requires s in c.refTable
    ensures s.0 in c.heap && s.0 in c.w.at && c.w.at[s.0] in c.w.mem
    ensures 0 <= s.1 < |c.heap[s.0].fields| == |c.w.mem[c.w.at[s.0]].fields|
    ensures CopyOk(c, y0, w0, fields + {s}, {})
    ensures PendingPlace(c, FieldAt(s.0, s.1), c.w.mem[c.w.at[s.0]].fields[s.1], fields + {s}, {})
    ensures OldOrNew(c.heap[s.0].fields[s.1], c.w.mem[c.w.at[s.0]].fields[s.1], w0.loc, c.w.loc, c.youngStart,
                     c.youngEnd)
    ensures FieldsLeft(FieldAt(s.0, s.1), fields + {s}) == fields - {s} && RootsLeft(FieldAt(s.0, s.1), {}) == {}
  {
    hide PhaseOk, RootsBut, Tiled, PlacesOk, YoungOk, Kept;
    CopyParts(c, y0, w0, fields, {});
    MinorWorld(c, y0, w0, fields);
    var a, k := s.0, s.1;
    assert HoldsAt(c.heap, c.w, fields, a);
    MorePending(c.heap, c.w, fields, s, c.youngStart, c.youngEnd);
    var i := c.w.at[a];
    assert i in w0.loc && Closed(w0, i);
  }

  lemma MorePending(h: Heap, w: World, fields: set<Slot>, s: Slot, lo: int, hi: int)
    requires HeapHolds(h, w, fields) && OldOnly(h, w, fields, lo, hi)
    ensures HeapHolds(h, w, fields + {s}) && OldOnly(h, w, fields + {s}, lo, hi)
  {
    forall a | a in h && a in w.at
      ensures HoldsAt(h, w, fields + {s}, a)
    {
      assert HoldsAt(h, w, fields, a);
    }
  }

  /** The fields that wait are in the rest of the table. */
  ghost predicate InRest(fields: set<Slot>, refTable: seq<Slot>, r: int) {
    0 <= r <= |refTable| && forall s {:trigger s in fields} :: s in fields ==> s in refTable[r..]
  }

  lemma RestStep(fields: set<Slot>, refTable: seq<Slot>, r: int)
    requires InRest(fields, refTable, r) && r < |refTable|
    ensures InRest(fields - {refTable[r]}, refTable, r + 1) && refTable[r] in refTable
  {
    assert refTable[r..] == [refTable[r]] + refTable[r + 1..];
  }

  lemma RestEnd(fields: set<Slot>, refTable: seq<Slot>)
    requires InRest(fields, refTable, |refTable|)
    ensures fields == {}
  {
    assert refTable[|refTable|..] == [];
  }

  /** Copies what the fields in the table point to: then no field waits any more. */
  method OldifyTable(c: Collector, increment: int, ghost y0: Heap, ghost w0: World, ghost todo: set<Slot>,
                     ghost ids: set<int>)
    returns (ok: bool)
    requires MovedIn(w0, c.w, ids) && EntriesIn(c.w, c.refTable, ids)
    requires CopyOk(c, y0, w0, todo, {}) && TodoOk(c.heap, c.w, w0.loc, todo)
    requires EntriesOk(c.heap, c.w, c.refTable) && forall s :: s in todo ==> s in c.refTable
    modifies c`heap, c`chunks, c`young, c`w, c`roots
    ensures ok ==> CopyOk(c, y0, w0, {}, {}) && MovedIn(w0, c.w, ids)
    ensures !ok ==> NoRoom(c.heap, w0.mem)
  {
    hide *;
    ghost var fields := todo;
    var r := 0;
    assert InRest(fields, c.refTable, 0) by {
      RestStart(todo, c.refTable);
    }
    while r < |c.refTable|
      invariant 0 <= r <= |c.refTable| && CopyOk(c, y0, w0, fields, {}) && InRest(fields, c.refTable, r)
      invariant TodoOk(c.heap, c.w, w0.loc, fields) && EntriesOk(c.heap, c.w, c.refTable)
      invariant EntriesIn(c.w, c.refTable, ids) && MovedIn(w0, c.w, ids)
    {
      ghost var h, w, rs := c.heap, c.w, c.roots;
      RestStep(fields, c.refTable, r);
      var s := c.refTable[r];
      EntryWaits(c, y0, w0, fields, s);
      EntryIn(c.w, c.refTable, ids, s);
      ok := Oldify(c, FieldAt(s.0, s.1), c.heap[s.0].fields[s.1], increment, c.w.mem[c.w.at[s.0]].fields[s.1], y0, w0,
                   fields + {s}, {}, ids);
      if !ok {
        return;
      }
      EntriesStay(h, w, rs, c.heap, c.w, c.roots, FieldAt(s.0, s.1), c.refTable, ids);
      TodoKept(h, w, rs, c.heap, c.w, c.roots, FieldAt(s.0, s.1), w0.loc, fields, fields - {s}, c.refTable);
      fields := fields - {s};
      r := r + 1;
    }
    RestEnd(fields, c.refTable);
    ok := true;
  }

  lemma RestStart(todo: set<Slot>, refTable: seq<Slot>)
    requires forall s :: s in todo ==> s in refTable
    ensures InRest(todo, refTable, 0)
  {
    assert refTable[0..] == refTable;
  }

  /** A root or an object in the heap points to object `i`. */
  ghost predicate PointedTo(h: Heap, w: World, mroots: seq<Value>, i: int) {
    Ptr(i) in mroots || exists x {:trigger w.loc[x]} ::
                          x in w.loc && x in w.mem && w.loc[x] in h && Ptr(i) in w.mem[x].fields
  }

  /** The objects that a root or an object in the heap points to. */
  ghost function Sources(h: Heap, w: World, mroots: seq<Value>): set<int> {
    set i | i in w.mem && PointedTo(h, w, mroots, i)
  }

  /** What a minor collection does to the kept objects: those in the heap stay where they
      are; the others move there if they can be reached from a root or from an object in the
      heap, and only then. */
  ghost predicate Promoted(h: Heap, w: World, mroots: seq<Value>, h': Heap, w': World) {
    && w'.mem == w.mem
    && forall i {:trigger w'.loc[i]} {:trigger i in w'.loc} :: i in w'.loc ==>
         && i in w.loc && w'.loc[i] in h'
         && if w.loc[i] in h then w'.loc[i] == w.loc[i] else i in ReachSet(w.mem, Sources(h, w, mroots))
  }

  /** All that minor collections start from is among the objects that can be reached. */
  lemma SourcesIn(h: Heap, chunks: seq<Chunk>, young: Heap, lo: int, ptr: int, hi: int, w: World,
                  roots: seq<Value>, mroots: seq<Value>, globals: int, globalData: int, refTable: seq<Slot>)
    requires MutOk(h, chunks, young, lo, ptr, hi, w, roots, mroots, globals, globalData, refTable)
    ensures var ids := ReachSet(w.mem, Sources(h, w, mroots));
            MovedIn(w, w, ids) && RootsIn(mroots, ids) && EntriesIn(w, refTable, ids)
  {
    hide Tiled, YoungOk, RootsOk, SnapReached;
    var sources := Sources(h, w, mroots);
    var ids := ReachSet(w.mem, sources);
    SourcesKept(h, w, roots, mroots);
    ReachClosed(w, sources);
    forall k | 0 <= k < |mroots|
      ensures In(mroots[k], ids)
    {
      RootKnown(w, roots, mroots, k);
      if mroots[k].Ptr? {
        assert PointedTo(h, w, mroots, mroots[k].a);
        ReachRoot(w.mem, sources, mroots[k].a);
      }
    }
    forall s | s in refTable
      ensures s.0 in w.at && w.at[s.0] in w.mem
      ensures (0 <= s.1 < |w.mem[w.at[s.0]].fields| ==> In(w.mem[w.at[s.0]].fields[s.1], ids))
    {
      var x := w.at[s.0];
      assert x in w.loc && w.loc[x] == s.0 && Closed(w, x);
      if 0 <= s.1 < |w.mem[x].fields| && w.mem[x].fields[s.1].Ptr? {
        var i := w.mem[x].fields[s.1].a;
        assert Known(w.loc, w.mem[x].fields[s.1]) && Ptr(i) in w.mem[x].fields;
        assert PointedTo(h, w, mroots, i);
        ReachRoot(w.mem, sources, i);
      }
    }
  }

  lemma RootKnown(w: World, roots: seq<Value>, mroots: seq<Value>, k: int)
    requires WorldOk(w) && RootsOk(roots, mroots, w.loc) && 0 <= k < |mroots|
    ensures mroots[k].Ptr? ==> mroots[k].a in w.loc && mroots[k].a in w.mem
  {
  }

  lemma SourcesKept(h: Heap, w: World, roots: seq<Value>, mroots: seq<Value>)
    requires WorldOk(w) && RootsOk(roots, mroots, w.loc)
    ensures forall i :: i in Sources(h, w, mroots) ==> i in w.loc
  {
    forall i | i in Sources(h, w, mroots)
      ensures i in w.loc
    {
      if Ptr(i) in mroots {
        var k :| 0 <= k < |mroots| && mroots[k] == Ptr(i);
        RootKnown(w, roots, mroots, k);
      } else {
        var x :| x in w.loc && x in w.mem && w.loc[x] in h && Ptr(i) in w.mem[x].fields;
        var k :| 0 <= k < |w.mem[x].fields| && w.mem[x].fields[k] == Ptr(i);
        assert Closed(w, x) && Known(w.loc, w.mem[x].fields[k]);
      }
    }
  }

  lemma PromotedAtEnd(h0: Heap, chunks0: seq<Chunk>, h: Heap, chunks: seq<Chunk>, y0: Heap, y: Heap, lo: int, ptr: int,
                      hi: int, w0: World, w: World, mroots: seq<Value>, globals: int, globalData: int)
    requires Tiled(h0, chunks0) && YoungOk(y0, lo, ptr, hi, chunks0)
    requires MinorOk(h, chunks, y0, y, lo, ptr, hi, w0, w, {}) && Kept(h0, y0, w0)
    requires MovedIn(w0, w, ReachSet(w0.mem, Sources(h0, w0, mroots)))
    requires globals in w0.loc && w0.loc[globals] == globalData && globalData in h0
    ensures InHeap(h, w) <= w.loc.Keys && Promoted(h0, w0, mroots, h, Restrict(w, InHeap(h, w)))
    ensures globals in w.loc && w.loc[globals] == globalData && globalData in h
  {
    hide HeapHolds, OldOnly, Tiled, WorldOk, Kept, YoungOk, ReachSet, Sources;
    YoungApart(h0, chunks0, y0, lo, ptr, hi);
    YoungStaysOut(h, chunks, y0, y, lo, ptr, hi);
    assert PlaceOk(h, y0, y, w0, w, globals);
    forall i | i in InHeap(h, w)
      ensures i in w0.loc
      ensures if w0.loc[i] in h0 then w.loc[i] == w0.loc[i] else i in ReachSet(w0.mem, Sources(h0, w0, mroots))
    {
      assert PlaceOk(h, y0, y, w0, w, i);
      OldPlace(h0, y0, w0, i);
    }
  }

  lemma OldPlace(h: Heap, y: Heap, w: World, i: int)
    requires WorldOk(w) && Kept(h, y, w) && i in w.loc
    ensures w.loc[i] in h || w.loc[i] in y
  {
    var a := w.loc[i];
    assert a in w.at;
  }

  /** No block of the heap is where a young one was. */
  lemma YoungStaysOut(h: Heap, chunks: seq<Chunk>, y0: Heap, y: Heap, lo: int, ptr: int, hi: int)
    requires Tiled(h, chunks) && YoungOk(y, lo, ptr, hi, chunks) && y.Keys == y0.Keys
    ensures forall a :: a in y0 ==> a !in h
  {
    YoungApart(h, chunks, y, lo, ptr, hi);
  }

  lemma PromotedFewer(h: Heap, w: World, mroots: seq<Value>, h': Heap, w': World, h'': Heap, w'': World)
    requires Promoted(h, w, mroots, h', w') && Fewer(w'', w') && Kept(h'', map[], w'') && WorldOk(w'')
    ensures Promoted(h, w, mroots, h'', w'')
  {
    hide ReachSet, Sources;
    forall i | i in w''.loc
      ensures i in w.loc && w''.loc[i] in h''
      ensures if w.loc[i] in h then w''.loc[i] == w.loc[i] else i in ReachSet(w.mem, Sources(h, w, mroots))
    {
      assert i in w'.loc && w''.loc[i] == w'.loc[i];
      var a := w''.loc[i];
      assert a in w''.at;
    }
  }

  lemma StartOk(c: Collector)
    requires c.Valid()
    ensures var todo := YoungSlots(c.heap, c.w, c.youngStart, c.youngEnd);
            CopyOk(c, c.young, c.w, todo, RootsFrom(0, |c.roots|)) && TodoOk(c.heap, c.w, c.w.loc, todo)
    ensures forall s :: s in YoungSlots(c.heap, c.w, c.youngStart, c.youngEnd) ==> s in c.refTable
    ensures var ids := ReachSet(c.w.mem, Sources(c.heap, c.w, c.mroots));
            MovedIn(c.w, c.w, ids) && RootsIn(c.mroots, ids) && EntriesIn(c.w, c.refTable, ids)
    ensures Kept(c.heap, c.young, c.w)
    ensures EntriesOk(c.heap, c.w, c.refTable) && YoungOk(c.young, c.youngStart, c.youngPtr, c.youngEnd, c.chunks)
    ensures Tiled(c.heap, c.chunks)
    ensures c.globals in c.w.loc && c.w.loc[c.globals] == c.globalData && c.globalData in c.heap
  {
    hide MinorOk, PhaseOk, RootsBut, PendingIn, TodoOk, Tiled, WorldOk, HeapHolds, Kept, YoungSlots, RootsFrom, MovedIn,
         RootsIn, EntriesIn;
    SourcesIn(c.heap, c.chunks, c.young, c.youngStart, c.youngPtr, c.youngEnd, c.w, c.roots, c.mroots, c.globals,
              c.globalData, c.refTable);
    MinorStarts(c.heap, c.chunks, c.young, c.youngStart, c.youngPtr, c.youngEnd, c.w, c.roots, c.mroots, c.globals,
                c.globalData, c.refTable);
  }

  /** Empties the young generation into the heap.  It fails only when there is no more memory. */
  method EmptyYoung(c: Collector, increment: int) returns (ok: bool)
    requires c.Valid()
    modifies c`heap, c`chunks, c`young, c`youngPtr, c`refTable, c`roots, c`w
    ensures ok ==> c.Valid() && c.young == map[] && c.youngPtr == c.youngStart && c.refTable == []
    ensures ok ==> Promoted(old(c.heap), old(c.w), c.mroots, c.heap, c.w)
    ensures !ok ==> NoRoom(c.heap, old(c.w).mem)
  {
    hide *;
    ghost var y0, w0, h0, ch0 := c.young, c.w, c.heap, c.chunks;
    ghost var todo := YoungSlots(c.heap, c.w, c.youngStart, c.youngEnd);
    StartOk(c);
    ghost var ids := ReachSet(w0.mem, Sources(h0, w0, c.mroots));
    ok := OldifyRoots(c, increment, y0, w0, todo, ids);
    if !ok {
      return;
    }
    ok := OldifyTable(c, increment, y0, w0, todo, ids);
    if !ok {
      return;
    }
    Forget(c, h0, ch0, y0, w0);
  }

  /** Whatever is left in the young generation is forgotten. */
  method Forget(c: Collector, ghost h0: Heap, ghost chunks0: seq<Chunk>, ghost y0: Heap, ghost w0: World)
    requires CopyOk(c, y0, w0, {}, {}) && Tiled(h0, chunks0)
    requires YoungOk(y0, c.youngStart, c.youngPtr, c.youngEnd, chunks0)
    requires MovedIn(w0, c.w, ReachSet(w0.mem, Sources(h0, w0, c.mroots))) && Kept(h0, y0, w0)
    requires c.globals in w0.loc && w0.loc[c.globals] == c.globalData && c.globalData in h0
    modifies c`young, c`youngPtr, c`refTable, c`w
    ensures c.Valid() && c.young == map[] && c.youngPtr == c.youngStart && c.refTable == []
    ensures Promoted(h0, w0, c.mroots, c.heap, c.w)
  {
    hide *;
    EmptyEnds(c, h0, chunks0, y0, w0);
    c.w := Restrict(c.w, InHeap(c.heap, c.w));
    c.young := map[];
    c.youngPtr := c.youngStart;
    c.refTable := [];
    ValidFrom(c);
  }

  lemma EmptyEnds(c: Collector, h0: Heap, chunks0: seq<Chunk>, y0: Heap, w0: World)
    requires CopyOk(c, y0, w0, {}, {}) && Tiled(h0, chunks0)
    requires YoungOk(y0, c.youngStart, c.youngPtr, c.youngEnd, chunks0)
    requires MovedIn(w0, c.w, ReachSet(w0.mem, Sources(h0, w0, c.mroots))) && Kept(h0, y0, w0)
    requires c.globals in w0.loc && w0.loc[c.globals] == c.globalData && c.globalData in h0
    ensures InHeap(c.heap, c.w) <= c.w.loc.Keys
    ensures Promoted(h0, w0, c.mroots, c.heap, Restrict(c.w, InHeap(c.heap, c.w)))
    ensures MutOk(c.heap, c.chunks, map[], c.youngStart, c.youngStart, c.youngEnd, Restrict(c.w, InHeap(c.heap, c.w)),
                  c.roots, c.mroots, c.globals, c.globalData, [])
    ensures PhaseOk(c.phase, c.heap, c.chunks, Restrict(c.w, InHeap(c.heap, c.w)), c.snap, c.gray, c.graySize, c.pure,
                    c.markHp, c.chunk, c.limit, c.sweepHp)
  {
    hide *;
    CopyParts(c, y0, w0, {}, {});
    MinorWorld(c, y0, w0, {});
    PromotedAtEnd(h0, chunks0, c.heap, c.chunks, y0, c.young, c.youngStart, c.youngPtr, c.youngEnd, w0, c.w, c.mroots,
                  c.globals, c.globalData);
    TopChunk(c.heap, c.chunks, c.globalData);
    MinorEnds(c.heap, c.chunks, y0, c.young, c.youngStart, c.youngPtr, c.youngEnd, w0, c.w, c.roots, c.mroots,
              c.globals, c.globalData);
    PhaseRestricted(c.phase, c.heap, c.chunks, c.w, c.snap, c.gray, c.graySize, c.pure, c.markHp, c.chunk, c.limit,
                    c.sweepHp);
  }

  /** Empties the young generation, which makes of the heap `h`, and does a slice of the major
      collection. */
  method MinorCollection(c: Collector, work: int, increment: int, statHeapSize: int)
    returns (ok: bool, ghost h: Heap, ghost v: World)
    requires c.Valid()
    modifies c`heap, c`chunks, c`young, c`youngPtr, c`refTable, c`roots, c`w, c`gray, c`graySize, c`pure, c`phase,
             c`markHp, c`snap, c`chunk, c`limit, c`sweepHp
    ensures ok ==> c.Valid() && c.young == map[] && c.youngPtr == c.youngStart && c.refTable == []
    ensures ok ==> Promoted(old(c.heap), old(c.w), c.mroots, c.heap, c.w)
    ensures ok ==> Promoted(old(c.heap), old(c.w), c.mroots, h, v) && Fewer(c.w, v)
    ensures ok ==> SliceDone(old(c.phase), Unmarked(h), old(c.sweepHp), work, c.phase, Unmarked(c.heap), c.sweepHp,
                             c.Bottom())
    ensures !ok ==> NoRoom(c.heap, old(c.w).mem)
  {
    hide *;
    ok := EmptyYoung(c, increment);
    h, v := c.heap, c.w;
    if ok {
      c.MajorCollectionSlice(work, statHeapSize);
      c.ValidParts();
      c.Facts();
      PromotedFewer(old(c.heap), old(c.w), c.mroots, h, v, c.heap, c.w);
    }
  }

  lemma TopChunk(h: Heap, chunks: seq<Chunk>, a: int)
    requires Tiled(h, chunks) && a in h
    ensures chunks != []
  {
    assert TileAt(h, chunks, a);
  }

  lemma ValidFrom(c: Collector)
    requires MutOk(c.heap, c.chunks, c.young, c.youngStart, c.youngPtr, c.youngEnd, c.w, c.roots, c.mroots, c.globals,
                   c.globalData, c.refTable)
    requires PhaseOk(c.phase, c.heap, c.chunks, c.w, c.snap, c.gray, c.graySize, c.pure, c.markHp, c.chunk, c.limit,
                     c.sweepHp)
    ensures c.Valid()
  {
    hide MutOk, PhaseOk;
  }
}
