/** Objects as the mutator sees them, where they are kept, and the colours of the
    incremental snapshot-at-start marker (src/runtime/major_gc.c). */
module Tricolor {
  import opened Heaps

  /** An object in a memory that never moves or frees anything; `Ptr` holds an identity. */
  datatype Obj = Obj(tag: int, fields: seq<Value>)

  type Memory = map<int, Obj>

  /** Objects have fields, and those of a tag that is not scanned hold no pointers. */
  ghost predicate ObjOk(o: Obj) {
    o.fields != [] && (o.tag >= NO_SCAN_TAG ==> forall k :: 0 <= k < |o.fields| ==> o.fields[k].Imm?)
  }

  /** The objects that the collector keeps: where each is, and what is at an address. */
  datatype World = World(mem: Memory, loc: map<int, int>, at: map<int, int>)

  /** A value of the memory as it is stored. */
  function Conc(loc: map<int, int>, v: Value): Value {
    match v
    case Imm(_) => v
    case Ptr(i) => if i in loc then Ptr(loc[i]) else Imm(-1)
  }

  ghost predicate Known(loc: map<int, int>, v: Value) {
    v.Ptr? ==> v.a in loc
  }

  ghost predicate Closed(w: World, i: int)
    requires i in w.mem
  {
    ObjOk(w.mem[i]) && forall k :: 0 <= k < |w.mem[i].fields| ==> Known(w.loc, w.mem[i].fields[k])
  }

  ghost predicate WorldOk(w: World) {
    && (forall i {:trigger w.loc[i]} {:trigger i in w.loc} ::
          i in w.loc ==> i in w.mem && w.loc[i] in w.at && w.at[w.loc[i]] == i)
    && (forall a {:trigger w.at[a]} {:trigger a in w.at} :: a in w.at ==> w.at[a] in w.loc && w.loc[w.at[a]] == a)
    && (forall i {:trigger Closed(w, i)} :: i in w.loc && i in w.mem ==> Closed(w, i))
  }

  /** The block has the shape of the object. */
  ghost predicate Shaped(b: Block, o: Obj) {
    !b.color.Blue? && b.tag == o.tag && |b.fields| == |o.fields|
  }

  /** A field of a block. */
  type Slot = (int, int)

  /** The block at `a` stores its object, except for the pending fields. */
  ghost predicate HoldsAt(h: Heap, w: World, pending: set<Slot>, a: int) {
    && a in h && a in w.at && w.at[a] in w.mem && Shaped(h[a], w.mem[w.at[a]])
    && forall k ::
         0 <= k < |h[a].fields| && (a, k) !in pending ==> h[a].fields[k] == Conc(w.loc, w.mem[w.at[a]].fields[k])
  }

  /** Every kept object that is in the heap is stored there. */
  ghost predicate HeapHolds(h: Heap, w: World, pending: set<Slot>) {
    forall a {:trigger HoldsAt(h, w, pending, a)} :: a in h && a in w.at ==> HoldsAt(h, w, pending, a)
  }

  // ----- Free blocks and kept blocks -----

  /** Kept objects are in blocks in use, or in the young generation. */
  ghost predicate Kept(h: Heap, young: Heap, w: World) {
    forall a {:trigger a in w.at} :: a in w.at ==> Live(h, a) || (a in young && a !in h)
  }

  /** Kept blocks are the same in both heaps. */
  ghost predicate SameKept(h: Heap, h': Heap, w: World) {
    forall a {:trigger h'[a]} {:trigger a in w.at} ::
      a in w.at ==> if a in h then a in h' && h'[a] == h[a] else a !in h'
  }

  // ----- Marking -----

  ghost predicate NotWhite(h: Heap, a: int) {
    a in h && (h[a].color.Gray? || h[a].color.Black?)
  }

  ghost predicate Dark(h: Heap, w: World, v: Value) {
    v.Ptr? ==> v.a in w.loc && NotWhite(h, w.loc[v.a])
  }

  /** The objects that were reachable when the cycle started, as they were then. */
  datatype Snapshot = Snapshot(mem: Memory, roots: set<int>)

  ghost predicate SnapPath(s: Snapshot, p: seq<int>) {
    && p != [] && p[0] in s.roots
    && (forall k :: 0 <= k < |p| ==> p[k] in s.mem)
    && (forall k :: 0 <= k < |p| - 1 ==> Ptr(p[k + 1]) in s.mem[p[k]].fields)
  }

  ghost predicate SnapReached(s: Snapshot, i: int) {
    exists p :: SnapPath(s, p) && p[|p| - 1] == i
  }

  /** What is known of an object of the snapshot while its fields from `m` on have been
      darkened: each field it had then is dark or, unless the object is done with, still there. */
  ghost predicate MarkAt(h: Heap, w: World, s: Snapshot, i: int, m: int) {
    && i in s.mem && i in w.loc && i in w.mem && w.loc[i] in h && |w.mem[i].fields| == |s.mem[i].fields|
    && forall k :: 0 <= k < |s.mem[i].fields| ==>
         Dark(h, w, s.mem[i].fields[k]) ||
         (w.mem[i].fields[k] == s.mem[i].fields[k] && (k < m || !h[w.loc[i]].color.Black?))
  }

  ghost predicate MarkOk(h: Heap, w: World, s: Snapshot, x: int, m: int, i: int) {
    MarkAt(h, w, s, i, if i == x then m else 0)
  }

  /** The invariant of marking, where object `x` is being worked on and its fields below
      `m` remain. */
  ghost predicate MarkInv(h: Heap, w: World, s: Snapshot, x: int, m: int) {
    && (forall i {:trigger MarkOk(h, w, s, x, m, i)} :: i in s.mem ==> MarkOk(h, w, s, x, m, i))
    && (forall r {:trigger r in s.roots} :: r in s.roots ==> r in s.mem && Dark(h, w, Ptr(r)))
    && (forall i {:trigger SnapReached(s, i)} :: i in s.mem ==> SnapReached(s, i))
    && SnapClosed(s)
  }

  ghost predicate SnapClosed(s: Snapshot) {
    forall i, k {:trigger s.mem[i].fields[k]} :: i in s.mem && 0 <= k < |s.mem[i].fields| && s.mem[i].fields[k].Ptr? ==>
      s.mem[i].fields[k].a in s.mem
  }

  /** Only kept blocks are gray or black, and those allocated since the snapshot are black. */
  ghost predicate ShadesOk(h: Heap, w: World, s: Snapshot) {
    && (forall a {:trigger NotWhite(h, a)} :: NotWhite(h, a) ==> a in w.at)
    && (forall a {:trigger w.at[a]} :: a in h && a in w.at && w.at[a] !in s.mem ==> h[a].color.Black?)
  }

  /** Same blocks but for colours; what is free stays free. */
  ghost predicate Recolored(h: Heap, h': Heap) {
    && h'.Keys == h.Keys
    && (forall a {:trigger h'[a]} {:trigger a in h'} :: a in h ==> h'[a] == h[a].(color := h'[a].color))
    && (forall a {:trigger h'[a]} :: a in h ==> (h'[a].color.Blue? <==> h[a].color.Blue?))
  }

  /** Also, nothing has turned white. */
  ghost predicate Darker(h: Heap, h': Heap) {
    Recolored(h, h') && forall a {:trigger NotWhite(h', a)} :: NotWhite(h, a) ==> NotWhite(h', a)
  }

  /** Colours do not change what is stored. */
  lemma RecoloredHolds(h: Heap, h': Heap, w: World, pending: set<Slot>)
    requires Recolored(h, h') && HeapHolds(h, w, pending)
    ensures HeapHolds(h', w, pending)
  {
    forall a | a in h' && a in w.at
      ensures HoldsAt(h', w, pending, a)
    {
      assert HoldsAt(h, w, pending, a) && h'[a] == h[a].(color := h'[a].color);
    }
  }

  lemma DarkerDark(h: Heap, h': Heap, w: World, v: Value)
    requires Darker(h, h') && Dark(h, w, v)
    ensures Dark(h', w, v)
  {
    if v.Ptr? {
      assert NotWhite(h', w.loc[v.a]);
    }
  }

  /** Darkening without blackening keeps the invariant. */
  lemma DarkerMark(h: Heap, h': Heap, w: World, s: Snapshot, x: int, m: int)
    requires Darker(h, h') && MarkInv(h, w, s, x, m)
    requires forall a {:trigger h'[a]} :: a in h ==> (h'[a].color.Black? ==> h[a].color.Black?)
    ensures MarkInv(h', w, s, x, m)
  {
    hide Dark, Darker;
    forall i | i in s.mem
      ensures MarkOk(h', w, s, x, m, i)
    {
      assert MarkOk(h, w, s, x, m, i);
      MarkAtKept(h, h', w, s, i, if i == x then m else 0);
    }
    forall r | r in s.roots
      ensures Dark(h', w, Ptr(r))
    {
      DarkerDark(h, h', w, Ptr(r));
    }
  }

  lemma MarkAtKept(h: Heap, h': Heap, w: World, s: Snapshot, i: int, m: int)
    requires Darker(h, h') && MarkAt(h, w, s, i, m)
    requires forall a {:trigger h'[a]} :: a in h ==> (h'[a].color.Black? ==> h[a].color.Black?)
    ensures MarkAt(h', w, s, i, m)
  {
    hide Dark;
    var f, a := s.mem[i].fields, w.loc[i];
    assert h'[a].color.Black? ==> h[a].color.Black?;
    forall k | 0 <= k < |f|
      ensures Dark(h', w, f[k]) || (w.mem[i].fields[k] == f[k] && (k < m || !h'[w.loc[i]].color.Black?))
    {
      if Dark(h, w, f[k]) {
        DarkerDark(h, h', w, f[k]);
      }
    }
  }

  // ----- The end of marking -----

  ghost predicate NoGray(h: Heap) {
    forall a {:trigger h[a]} :: a in h ==> !h[a].color.Gray?
  }

  lemma {:induction false} PathBlack(h: Heap, w: World, s: Snapshot, p: seq<int>, k: nat)
    requires MarkInv(h, w, s, -1, 0) && NoGray(h) && SnapPath(s, p) && k < |p|
    ensures p[k] in w.loc && w.loc[p[k]] in h && h[w.loc[p[k]]].color.Black?
    decreases k
  {
    if k == 0 {
      assert p[0] in s.roots;
    } else {
      PathBlack(h, w, s, p, k - 1);
      assert MarkOk(h, w, s, -1, 0, p[k - 1]);
      assert Ptr(p[k - 1 + 1]) in s.mem[p[k - 1]].fields;
      var j :| 0 <= j < |s.mem[p[k - 1]].fields| && s.mem[p[k - 1]].fields[j] == Ptr(p[k]);
      assert Dark(h, w, s.mem[p[k - 1]].fields[j]);
    }
  }

  /** When no block is gray any more, every kept block in the heap is black: whatever was
      reachable when the cycle started has been marked, and what came later is black. */
  lemma MarkingDone(h: Heap, w: World, s: Snapshot)
    requires WorldOk(w) && MarkInv(h, w, s, -1, 0) && ShadesOk(h, w, s) && NoGray(h)
    ensures forall a :: a in h && a in w.at ==> h[a].color.Black?
    ensures forall a :: a in h && a !in w.at ==> !h[a].color.Black? && !h[a].color.Gray?
  {
    forall a | a in h && a in w.at
      ensures h[a].color.Black?
    {
      var i := w.at[a];
      if i in s.mem {
        assert SnapReached(s, i);
        var p :| SnapPath(s, p) && p[|p| - 1] == i;
        hide MarkInv, ShadesOk, SnapPath;
        PathBlack(h, w, s, p, |p| - 1);
      }
    }
    forall a | a in h && a !in w.at
      ensures !NotWhite(h, a)
    {
    }
  }

  // ----- Blackening a block and darkening its fields -----

  /** The block at `a`, gray so far, is black: its object now is the one worked on. */
  lemma Blackened(h: Heap, w: World, s: Snapshot, a: int)
    requires WorldOk(w) && MarkInv(h, w, s, -1, 0) && ShadesOk(h, w, s) && a in h && h[a].color.Gray?
    ensures var h' := h[a := h[a].(color := Black)];
            a in w.at && w.at[a] in w.mem && MarkInv(h', w, s, w.at[a], |w.mem[w.at[a]].fields|) &&
              ShadesOk(h', w, s) && Darker(h, h')
  {
    var h' := h[a := h[a].(color := Black)];
    assert NotWhite(h, a);
    var x := w.at[a];
    var m := |w.mem[x].fields|;
    assert Darker(h, h');
    forall b | NotWhite(h', b)
      ensures b in w.at
    {
      assert NotWhite(h, b);
    }
    hide Dark, Darker;
    forall i | i in s.mem
      ensures MarkOk(h', w, s, x, m, i)
    {
      assert MarkOk(h, w, s, -1, 0, i);
      BlackenedAt(h, h', w, s, a, i);
    }
    forall r | r in s.roots
      ensures Dark(h', w, Ptr(r))
    {
      DarkerDark(h, h', w, Ptr(r));
    }
  }

  lemma BlackenedAt(h: Heap, h': Heap, w: World, s: Snapshot, a: int, i: int)
    requires WorldOk(w) && a in h && a in w.at && Darker(h, h') && h' == h[a := h[a].(color := Black)] && i in s.mem
    requires MarkAt(h, w, s, i, 0)
    ensures MarkAt(h', w, s, i, if i == w.at[a] then |w.mem[i].fields| else 0)
  {
    hide Dark;
    var f := s.mem[i].fields;
    forall k | 0 <= k < |f|
      ensures Dark(h, w, f[k]) ==> Dark(h', w, f[k])
    {
      if Dark(h, w, f[k]) {
        DarkerDark(h, h', w, f[k]);
      }
    }
  }

  /** One more field of the object worked on has been darkened; what is not in the heap
      was not in the snapshot. */
  lemma FieldDarkened(h: Heap, w: World, s: Snapshot, x: int, m: int)
    requires WorldOk(w) && MarkInv(h, w, s, x, m) && x in w.loc && x in w.mem && 0 < m <= |w.mem[x].fields|
    requires var v := w.mem[x].fields[m - 1];
             Dark(h, w, v) || (v.Ptr? && v.a in w.loc && w.loc[v.a] !in h)
    ensures MarkInv(h, w, s, x, m - 1)
  {
    hide Dark;
    forall i | i in s.mem
      ensures MarkOk(h, w, s, x, m - 1, i)
    {
      assert MarkOk(h, w, s, x, m, i);
      if i == x && w.mem[x].fields[m - 1] == s.mem[x].fields[m - 1] && s.mem[x].fields[m - 1].Ptr? {
        assert MarkOk(h, w, s, x, m, s.mem[x].fields[m - 1].a);
      }
    }
  }

  /** All fields have been darkened. */
  lemma ObjectDone(h: Heap, w: World, s: Snapshot, x: int)
    requires MarkInv(h, w, s, x, 0)
    ensures MarkInv(h, w, s, -1, 0)
  {
    hide Dark;
    forall i | i in s.mem
      ensures MarkOk(h, w, s, -1, 0, i)
    {
      assert MarkOk(h, w, s, x, 0, i);
    }
  }

  /** A block without pointers needs no darkening. */
  lemma NoPointers(h: Heap, w: World, s: Snapshot, x: int, m: int)
    requires WorldOk(w) && MarkInv(h, w, s, x, m) && x in w.loc && x in w.mem && w.mem[x].tag >= NO_SCAN_TAG
    ensures MarkInv(h, w, s, -1, 0)
  {
    assert Closed(w, x);
    forall i | i in s.mem
      ensures MarkOk(h, w, s, -1, 0, i)
    {
      assert MarkOk(h, w, s, x, m, i);
    }
  }

  // ----- Changes to other blocks -----

  lemma SameKeptHolds(h: Heap, h': Heap, w: World, pending: set<Slot>)
    requires SameKept(h, h', w) && HeapHolds(h, w, pending)
    ensures HeapHolds(h', w, pending)
  {
    forall a | a in h' && a in w.at
      ensures HoldsAt(h', w, pending, a)
    {
      assert HoldsAt(h, w, pending, a);
    }
  }

  lemma SameKeptMark(h: Heap, h': Heap, w: World, s: Snapshot)
    requires WorldOk(w) && SameKept(h, h', w) && MarkInv(h, w, s, -1, 0)
    ensures MarkInv(h', w, s, -1, 0)
  {
    forall v | Dark(h, w, v)
      ensures Dark(h', w, v)
    {
      assert v.Ptr? ==> w.loc[v.a] in w.at;
    }
    hide Dark;
    forall i | i in s.mem
      ensures MarkOk(h', w, s, -1, 0, i)
    {
      assert MarkOk(h, w, s, -1, 0, i);
      var f, a := s.mem[i].fields, w.loc[i];
      assert a in w.at;
      assert a in h;
      assert a in h' && h'[a] == h[a];
      forall k | 0 <= k < |f|
        ensures Dark(h', w, f[k]) || (w.mem[i].fields[k] == f[k] && !h'[w.loc[i]].color.Black?)
      {
        assert Dark(h, w, f[k]) || (w.mem[i].fields[k] == f[k] && !h[w.loc[i]].color.Black?);
      }
    }
  }

  // ----- New objects -----

  function Add(w: World, i: int, o: Obj, a: int): World {
    World(w.mem[i := o], w.loc[i := a], w.at[a := i])
  }

  /** All fields of the block. */
  ghost function Slots(a: int, n: int): set<Slot> {
    set k | 0 <= k < n :: (a, k)
  }

  lemma AddWorld(w: World, i: int, o: Obj, a: int)
    requires WorldOk(w) && i !in w.mem && a !in w.at && ObjOk(o)
    requires forall k :: 0 <= k < |o.fields| ==> Known(w.loc, o.fields[k])
    ensures WorldOk(Add(w, i, o, a)) && i !in w.loc
  {
    var w' := Add(w, i, o, a);
    forall j | j in w'.loc && j in w'.mem
      ensures Closed(w', j)
    {
      assert j != i ==> Closed(w, j);
    }
  }

  lemma AddMark(h: Heap, w: World, s: Snapshot, i: int, o: Obj, a: int)
    requires WorldOk(w) && MarkInv(h, w, s, -1, 0) && i !in w.mem && a !in w.at
    ensures MarkInv(h, Add(w, i, o, a), s, -1, 0) && i !in s.mem
  {
    var w' := Add(w, i, o, a);
    assert i in s.mem ==> MarkOk(h, w, s, -1, 0, i);
    forall v | Dark(h, w, v)
      ensures Dark(h, w', v)
    {
    }
    hide Dark;
    forall j | j in s.mem
      ensures MarkOk(h, w', s, -1, 0, j)
    {
      assert MarkOk(h, w, s, -1, 0, j);
    }
  }

  /** Allocation and registration in the marking phase, where the new block is black. */
  lemma AddShades(h: Heap, h': Heap, w: World, s: Snapshot, i: int, o: Obj, a: int)
    requires ShadesOk(h, w, s) && Allocated(h, h', a, |o.fields|, o.tag, Black) && i !in w.mem && i !in s.mem
    requires a !in w.at
    requires SameKept(h, h', w) && forall b :: b in w.at ==> w.at[b] in w.mem
    ensures ShadesOk(h', Add(w, i, o, a), s)
  {
    var w' := Add(w, i, o, a);
    forall b | NotWhite(h', b)
      ensures b in w'.at
    {
      assert b != a ==> Live(h', b);
      assert b != a ==> NotWhite(h, b);
    }
    forall b | b in h' && b in w'.at && w'.at[b] !in s.mem
      ensures h'[b].color.Black?
    {
    }
  }

  /** What an allocation does to the kept blocks: nothing. */
  lemma AllocatedSameKept(h: Heap, h': Heap, young: Heap, w: World, hp: int, wosize: int, tag: int, color: Color)
    requires Allocated(h, h', hp, wosize, tag, color) && Kept(h, young, w)
    requires forall a :: a in young ==> a !in h'
    ensures SameKept(h, h', w) && hp !in w.at && Kept(h', young, w)
  {
    assert hp in h';
    forall a | a in w.at
      ensures if a in h then a in h' && h'[a] == h[a] else a !in h'
    {
    }
  }

  // ----- The start of a cycle -----

  ghost function RootIds(roots: seq<Value>, global: int): set<int> {
    {global} + set k | 0 <= k < |roots| && roots[k].Ptr? :: roots[k].a
  }

  /** The objects that can be reached from the given ones. */
  ghost function ReachSet(mem: Memory, roots: set<int>): (ids: set<int>)
    ensures forall i :: i in ids <==> i in mem && SnapReached(Snapshot(mem, roots), i)
  {
    set i | i in mem && SnapReached(Snapshot(mem, roots), i)
  }

  lemma ReachRoot(mem: Memory, roots: set<int>, i: int)
    requires i in mem && i in roots
    ensures i in ReachSet(mem, roots)
  {
    assert SnapPath(Snapshot(mem, roots), [i]);
  }

  lemma ReachField(mem: Memory, roots: set<int>, i: int, j: int)
    requires i in ReachSet(mem, roots) && Ptr(j) in mem[i].fields && j in mem
    ensures j in ReachSet(mem, roots)
  {
    var s := Snapshot(mem, roots);
    var p :| SnapPath(s, p) && p[|p| - 1] == i;
    var q := p + [j];
    forall k | 0 <= k < |q| - 1
      ensures Ptr(q[k + 1]) in s.mem[q[k]].fields
    {
      if k < |p| - 1 {
        assert Ptr(p[k + 1]) in s.mem[p[k]].fields;
      }
    }
    assert SnapPath(s, q);
  }

  /** Everything that can be reached is kept. */
  lemma {:induction false} ReachKept(w: World, roots: set<int>, p: seq<int>, k: nat)
    requires WorldOk(w) && (forall i :: i in roots ==> i in w.loc) && SnapPath(Snapshot(w.mem, roots), p) && k < |p|
    ensures p[k] in w.loc
    decreases k
  {
    if k > 0 {
      ReachKept(w, roots, p, k - 1);
      assert Closed(w, p[k - 1]);
      assert Ptr(p[k - 1 + 1]) in w.mem[p[k - 1]].fields;
    }
  }

  lemma ReachInLoc(w: World, roots: set<int>)
    requires WorldOk(w) && forall i :: i in roots ==> i in w.loc
    ensures ReachSet(w.mem, roots) <= w.loc.Keys
  {
    forall i | i in ReachSet(w.mem, roots)
      ensures i in w.loc
    {
      var p :| SnapPath(Snapshot(w.mem, roots), p) && p[|p| - 1] == i;
      ReachKept(w, roots, p, |p| - 1);
    }
  }

  /** Only some objects are kept any longer. */
  ghost function Restrict(w: World, ids: set<int>): World
    requires ids <= w.loc.Keys
  {
    World(w.mem, map i | i in ids :: w.loc[i], map a | a in w.at && w.at[a] in ids :: w.at[a])
  }

  ghost predicate ClosedSet(w: World, ids: set<int>) {
    forall i, k {:trigger w.mem[i].fields[k]} ::
      i in ids && i in w.mem && 0 <= k < |w.mem[i].fields| && w.mem[i].fields[k].Ptr? ==>
      w.mem[i].fields[k].a in ids
  }

  lemma RestrictWorld(w: World, ids: set<int>)
    requires WorldOk(w) && ids <= w.loc.Keys && ClosedSet(w, ids)
    ensures WorldOk(Restrict(w, ids))
  {
    var w' := Restrict(w, ids);
    forall i | i in w'.loc && i in w'.mem
      ensures Closed(w', i)
    {
      assert Closed(w, i);
    }
  }

  lemma RestrictHolds(h: Heap, w: World, ids: set<int>, pending: set<Slot>)
    requires WorldOk(w) && ids <= w.loc.Keys && ClosedSet(w, ids) && HeapHolds(h, w, pending)
    ensures HeapHolds(h, Restrict(w, ids), pending)
  {
    var w' := Restrict(w, ids);
    forall a | a in h && a in w'.at
      ensures HoldsAt(h, w', pending, a)
    {
      assert HoldsAt(h, w, pending, a) && Closed(w, w.at[a]);
    }
  }

  lemma ReachClosed(w: World, roots: set<int>)
    requires WorldOk(w) && forall i :: i in roots ==> i in w.loc
    ensures ReachSet(w.mem, roots) <= w.loc.Keys && ClosedSet(w, ReachSet(w.mem, roots))
  {
    ReachInLoc(w, roots);
    var ids := ReachSet(w.mem, roots);
    forall i, k {:trigger w.mem[i].fields[k]} | i in ids && i in w.mem && 0 <= k < |w.mem[i].fields| &&
           w.mem[i].fields[k].Ptr?
      ensures w.mem[i].fields[k].a in ids
    {
      assert Closed(w, i) && w.mem[i].fields[k] in w.mem[i].fields;
      ReachField(w.mem, roots, i, w.mem[i].fields[k].a);
    }
  }

  /** What was reachable is the snapshot. */
  ghost function TakeSnapshot(mem: Memory, roots: set<int>): Snapshot {
    Snapshot(map i | i in ReachSet(mem, roots) :: mem[i], roots)
  }

  lemma SnapshotClosed(w: World, roots: set<int>)
    requires WorldOk(w) && ReachSet(w.mem, roots) <= w.loc.Keys && ClosedSet(w, ReachSet(w.mem, roots))
    ensures SnapClosed(TakeSnapshot(w.mem, roots))
  {
    var s := TakeSnapshot(w.mem, roots);
    forall i, k {:trigger s.mem[i].fields[k]} | i in s.mem && 0 <= k < |s.mem[i].fields| && s.mem[i].fields[k].Ptr?
      ensures s.mem[i].fields[k].a in s.mem
    {
      assert s.mem[i].fields[k] == w.mem[i].fields[k];
    }
  }

  lemma SnapshotReached(mem: Memory, roots: set<int>, i: int)
    requires i in ReachSet(mem, roots)
    ensures SnapReached(TakeSnapshot(mem, roots), i)
  {
    var s := Snapshot(mem, roots);
    var p :| SnapPath(s, p) && p[|p| - 1] == i;
    forall k | 0 <= k < |p|
      ensures p[k] in ReachSet(mem, roots)
    {
      PrefixReached(s, p, k);
    }
    assert SnapPath(TakeSnapshot(mem, roots), p);
  }

  lemma PrefixReached(s: Snapshot, p: seq<int>, k: nat)
    requires SnapPath(s, p) && k < |p|
    ensures SnapReached(s, p[k])
  {
    assert SnapPath(s, p[..k + 1]);
  }

  /** With the roots darkened and nothing black, marking can start. */
  lemma MarkStarts(h: Heap, w: World, roots: set<int>)
    requires WorldOk(w) && (forall i :: i in roots ==> i in w.loc) && (forall a :: a in w.at ==> a in h)
    requires forall r :: r in roots ==> Dark(h, w, Ptr(r))
    requires forall a {:trigger h[a]} :: a in h ==> !h[a].color.Black?
    requires forall a {:trigger NotWhite(h, a)} :: NotWhite(h, a) ==> a in w.at && w.at[a] in roots
    ensures ReachSet(w.mem, roots) <= w.loc.Keys
    ensures var w', s := Restrict(w, ReachSet(w.mem, roots)), TakeSnapshot(w.mem, roots);
            WorldOk(w') && MarkInv(h, w', s, -1, 0) && ShadesOk(h, w', s)
  {
    ReachClosed(w, roots);
    RestrictWorld(w, ReachSet(w.mem, roots));
    var w', s := Restrict(w, ReachSet(w.mem, roots)), TakeSnapshot(w.mem, roots);
    assert SnapClosed(s) by {
      SnapshotClosed(w, roots);
    }
    forall r | r in roots
      ensures r in s.mem && Dark(h, w', Ptr(r))
    {
      assert Dark(h, w, Ptr(r));
      ReachRoot(w.mem, roots, r);
    }
    forall i | i in s.mem
      ensures SnapReached(s, i) && MarkOk(h, w', s, -1, 0, i)
    {
      SnapshotReached(w.mem, roots, i);
      var a := w.loc[i];
      assert a in w.at && a in h && !h[a].color.Black?;
      assert s.mem[i] == w.mem[i];
    }
    forall a | NotWhite(h, a)
      ensures a in w'.at
    {
      var r := w.at[a];
      assert r in roots && r in s.mem;
    }
  }
}
