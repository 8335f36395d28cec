/** Whole runs: the mutator on the collected heap behaves as on a memory in which nothing is
    ever moved or freed (src/runtime/memory.h, src/runtime/memory.c, src/runtime/gc_ctrl.c). */
module Mutators {
  import opened Options
  import opened Heaps
  import opened Tricolor
  import opened Marking
  import opened Collectors
  import opened Allocation
  import opened Minor
  import opened Barrier
  import opened Objects

  // ----- The memory that is never collected -----

  /** The objects ever made, the roots, the global data, and the identity of the next object. */
  datatype Ideal = Ideal(mem: Memory, roots: seq<Value>, globals: int, next: int)

  /** What a program does with its roots; it may ask for a collection at any time. */
  datatype Op =
    | Constant(dst: int, n: int)
    | CopyRoot(dst: int, src: int)
    | GetGlobals(dst: int)
    | GetField(dst: int, src: int, k: int)
    | SetField(dst: int, k: int, src: int)
    | NewSmall(dst: int, tag: int, srcs: seq<int>)
    | NewLarge(dst: int, tag: int, srcs: seq<int>)
    | Push
    | Pop
    | CollectMinor
    | CollectFull

  ghost predicate HasField(s: Ideal, src: int, k: int) {
    && 0 <= src < |s.roots| && s.roots[src].Ptr? && s.roots[src].a in s.mem
    && 0 <= k < |s.mem[s.roots[src].a].fields|
  }

  ghost predicate CanMake(s: Ideal, dst: int, tag: int, srcs: seq<int>) {
    && 0 <= dst < |s.roots| && 1 <= |srcs| && (forall k :: 0 <= k < |srcs| ==> 0 <= srcs[k] < |s.roots|)
    && ObjOk(Obj(tag, Pick(s.roots, srcs)))
  }

  ghost function Made(s: Ideal, dst: int, tag: int, srcs: seq<int>): Ideal
    requires CanMake(s, dst, tag, srcs)
  {
    Ideal(s.mem[s.next := Obj(tag, Pick(s.roots, srcs))], s.roots[dst := Ptr(s.next)], s.globals, s.next + 1)
  }

  /** One operation; where an object is made cannot be told, and collections do nothing.
      `None` when the program does something wrong. */
  ghost function Step(s: Ideal, op: Op): Option<Ideal> {
    match op
    case Constant(dst, n) => if 0 <= dst < |s.roots| then Some(s.(roots := s.roots[dst := Imm(n)])) else None
    case CopyRoot(dst, src) =>
      if 0 <= dst < |s.roots| && 0 <= src < |s.roots| then Some(s.(roots := s.roots[dst := s.roots[src]])) else None
    case GetGlobals(dst) => if 0 <= dst < |s.roots| then Some(s.(roots := s.roots[dst := Ptr(s.globals)])) else None
    case GetField(dst, src, k) =>
      if 0 <= dst < |s.roots| && HasField(s, src, k) then
        Some(s.(roots := s.roots[dst := s.mem[s.roots[src].a].fields[k]]))
      else None
    case SetField(dst, k, src) =>
      if HasField(s, dst, k) && 0 <= src < |s.roots| && s.mem[s.roots[dst].a].tag < NO_SCAN_TAG then
        var i := s.roots[dst].a;
        Some(s.(mem := s.mem[i := Obj(s.mem[i].tag, s.mem[i].fields[k := s.roots[src]])]))
      else None
    case NewSmall(dst, tag, srcs) =>
      if CanMake(s, dst, tag, srcs) && |srcs| <= MAX_YOUNG_WOSIZE then Some(Made(s, dst, tag, srcs)) else None
    case NewLarge(dst, tag, srcs) => if CanMake(s, dst, tag, srcs) then Some(Made(s, dst, tag, srcs)) else None
    case Push => Some(s.(roots := s.roots + [Imm(0)]))
    case Pop => if |s.roots| > 0 then Some(s.(roots := s.roots[..|s.roots| - 1])) else None
    case CollectMinor => Some(s)
    case CollectFull => Some(s)
  }

  ghost function Steps(s: Ideal, ops: seq<Op>): Option<Ideal>
    decreases |ops|
  {
    if ops == [] then Some(s)
    else match Step(s, ops[0])
         case None => None
         case Some(s') => Steps(s', ops[1..])
  }

  /** What a program finds in field `j` of the object that root `from` holds. */
  ghost predicate Loads(s: Ideal, from: int, j: int, v: Value) {
    forall d :: 0 <= d < |s.roots| ==> Step(s, GetField(d, from, j)) == Some(s.(roots := s.roots[d := v]))
  }

  /** After a store into field `k` of an object, that field of it holds the value, whatever root the
      object is reached from, and every other field of any object holds what it held. */
  lemma StoreThenLoad(s: Ideal, dst: int, k: int, src: int, from: int, j: int, v: Value)
    requires Step(s, SetField(dst, k, src)).Some? && HasField(s, from, j) && Loads(s, from, j, v)
    ensures 0 <= from < |s.roots| && 0 <= dst < |s.roots| && 0 <= src < |s.roots|
    ensures Loads(Step(s, SetField(dst, k, src)).value, from, j,
                  if s.roots[from] == s.roots[dst] && j == k then s.roots[src] else v)
  {
    assert Step(s, GetField(from, from, j)) == Some(s.(roots := s.roots[from := v]));
    assert s.roots[from := v][from] == v;
  }

  /** A new object is different from all others, and its fields hold the roots it was made from. */
  lemma NewThenLoad(s: Ideal, op: Op, k: int)
    requires (op.NewSmall? || op.NewLarge?) && Step(s, op).Some? && 0 <= k < |op.srcs|
    ensures 0 <= op.srcs[k] < |s.roots| && Loads(Step(s, op).value, op.dst, k, s.roots[op.srcs[k]])
    ensures forall i :: i in s.mem && i != s.next ==> i in Step(s, op).value.mem && Step(s, op).value.mem[i] == s.mem[i]
  {
    assert Made(s, op.dst, op.tag, op.srcs).mem[s.next].fields[k] == s.roots[op.srcs[k]];
  }

  // ----- The collected heap stands for that memory -----

  ghost predicate Unused(mem: Memory, next: int) {
    forall i {:trigger i in mem} :: i in mem ==> i < next
  }

  ghost predicate Represents(c: Collector, s: Ideal)
    reads c
  {
    c.Valid() && c.w.mem == s.mem && c.mroots == s.roots && c.globals == s.globals && Unused(s.mem, s.next) &&
      MAX_YOUNG_WOSIZE < c.youngEnd - c.youngStart
  }

  lemma Root(c: Collector, s: Ideal, k: int)
    requires Represents(c, s)
    ensures |c.roots| == |s.roots| && c.mroots == s.roots && c.globals == s.globals && c.w.mem == s.mem && c.Valid()
    ensures 0 <= k < |s.roots| ==> Known(c.w.loc, s.roots[k]) && c.roots[k] == Conc(c.w.loc, s.roots[k])
  {
    hide PhaseOk, Tiled, YoungOk, WorldOk, Kept, HeapHolds, RefOk;
  }

  /** The block in which an object is. */
  ghost predicate FoundAt(c: Collector, s: Ideal, i: int, a: int)
    reads c
  {
    && i in s.mem && i in c.w.loc && c.w.loc[i] == a && (a in c.heap || a in c.young)
    && var b := if a in c.heap then c.heap[a] else c.young[a];
       b.tag == s.mem[i].tag && |b.fields| == |s.mem[i].fields| && a in c.w.at && c.w.at[a] == i &&
       forall k {:trigger b.fields[k]} {:trigger s.mem[i].fields[k]} :: 0 <= k < |b.fields| ==>
         b.fields[k] == Conc(c.w.loc, s.mem[i].fields[k]) && Known(c.w.loc, s.mem[i].fields[k])
  }

  lemma Found(c: Collector, s: Ideal, i: int)
    requires Represents(c, s) && i in c.w.loc
    ensures FoundAt(c, s, i, c.w.loc[i])
  {
    hide PhaseOk, Tiled, YoungOk, RefOk, RootsOk;
    var a := c.w.loc[i];
    assert a in c.w.at;
    hide WorldOk, HeapHolds;
    WorldAt(c.w, i);
    SizeAt(if a in c.heap then c.heap else c.young, c.w, i);
  }

  method FieldToRoot(c: Collector, dst: int, src: int, k: int, ghost s: Ideal)
    requires Represents(c, s) && 0 <= dst < |s.roots| && HasField(s, src, k)
    modifies c`roots, c`mroots
    ensures Represents(c, Step(s, GetField(dst, src, k)).value)
  {
    hide *;
    RootValue(c, s, src, k);
    Root(c, s, dst);
    Spaces(c, s);
    var a := c.roots[src].a;
    var v := if a in c.heap then c.heap[a].fields[k] else c.young[a].fields[k];
    SetRoot(c, dst, v, c.w.mem[c.mroots[src].a].fields[k]);
    GotField(s, dst, src, k);
    Again(c, Step(s, GetField(dst, src, k)).value);
  }

  lemma GotField(s: Ideal, dst: int, src: int, k: int)
    requires 0 <= dst < |s.roots| && HasField(s, src, k)
    ensures s.roots[src].Ptr? && s.roots[src].a in s.mem && 0 <= k < |s.mem[s.roots[src].a].fields|
    ensures Step(s, GetField(dst, src, k)) == Some(s.(roots := s.roots[dst := s.mem[s.roots[src].a].fields[k]]))
  {
  }

  lemma RootValue(c: Collector, s: Ideal, src: int, k: int)
    requires Represents(c, s) && HasField(s, src, k)
    ensures |c.roots| == |c.mroots| == |s.roots| && 0 <= src < |c.roots| && c.roots[src].Ptr? && c.mroots[src].Ptr?
    ensures c.mroots[src] == s.roots[src]
    ensures var a, i := c.roots[src].a, c.mroots[src].a;
            i in c.w.mem && i in c.w.loc && c.w.loc[i] == a && 0 <= k < |c.w.mem[i].fields| &&
              (a in c.heap || a in c.young) &&
            var b := if a in c.heap then c.heap[a] else c.young[a];
            k < |b.fields| && b.fields[k] == Conc(c.w.loc, c.w.mem[i].fields[k]) && Known(c.w.loc, c.w.mem[i].fields[k])
  {
    hide Represents;
    Root(c, s, src);
    Found(c, s, s.roots[src].a);
  }

  /** What does not depend on the roots. */
  lemma Spaces(c: Collector, s: Ideal)
    requires Represents(c, s)
    ensures MAX_YOUNG_WOSIZE < c.youngEnd - c.youngStart && Unused(s.mem, s.next) && s.next !in c.w.mem
  {
  }

  lemma StillUnused(mem: Memory, next: int, i: int, o: Obj)
    requires Unused(mem, next) && (i in mem || i == next)
    ensures Unused(mem[i := o], if i == next then next + 1 else next)
  {
  }

  lemma Again(c: Collector, s: Ideal)
    requires c.Valid() && c.w.mem == s.mem && c.mroots == s.roots && c.globals == s.globals && Unused(s.mem, s.next)
    requires MAX_YOUNG_WOSIZE < c.youngEnd - c.youngStart
    ensures Represents(c, s)
  {
  }

  method RootToField(c: Collector, dst: int, k: int, src: int, statHeapSize: int, ghost s: Ideal)
    requires Represents(c, s) && Step(s, SetField(dst, k, src)).Some?
    modifies c`heap, c`young, c`gray, c`graySize, c`pure, c`refTable, c`w
    ensures Represents(c, Step(s, SetField(dst, k, src)).value)
  {
    hide *;
    CanSet(s, dst, k, src);
    RootValue(c, s, dst, k);
    Root(c, s, src);
    Spaces(c, s);
    ghost var i, m := c.mroots[dst].a, c.mroots[src];
    PutMemory(c.w, i, k, m);
    StillUnused(s.mem, s.next, i, Obj(s.mem[i].tag, s.mem[i].fields[k := m]));
    NotNext(s.mem, s.next, i);
    Modify(c, c.roots[dst].a, k, c.roots[src], statHeapSize, i, m);
    Again(c, Step(s, SetField(dst, k, src)).value);
  }

  lemma NotNext(mem: Memory, next: int, i: int)
    requires Unused(mem, next) && i in mem
    ensures i != next
  {
  }

  lemma CanSet(s: Ideal, dst: int, k: int, src: int)
    requires Step(s, SetField(dst, k, src)).Some?
    ensures HasField(s, dst, k) && 0 <= src < |s.roots| && s.roots[dst].Ptr?
    ensures var i := s.roots[dst].a;
            i in s.mem && 0 <= k < |s.mem[i].fields| && s.mem[i].tag < NO_SCAN_TAG &&
            Step(s, SetField(dst, k, src)).value == s.(mem := s.mem[i := Obj(s.mem[i].tag,
                                                                             s.mem[i].fields[k := s.roots[src]])])
  {
  }

  lemma PutMemory(w: World, i: int, k: int, m: Value)
    requires i in w.mem && 0 <= k < |w.mem[i].fields|
    ensures Put(w, i, k, m).mem == w.mem[i := Obj(w.mem[i].tag, w.mem[i].fields[k := m])]
  {
  }

  method MakeSmall(c: Collector, dst: int, tag: int, srcs: seq<int>, work: int, increment: int, statHeapSize: int,
                   ghost s: Ideal)
    returns (ok: bool)
    requires Represents(c, s) && Step(s, NewSmall(dst, tag, srcs)).Some?
    modifies c
    ensures ok ==> Represents(c, Step(s, NewSmall(dst, tag, srcs)).value)
    ensures !ok ==> NoRoom(c.heap, s.mem)
    ensures c.youngStart == old(c.youngStart) && c.youngEnd == old(c.youngEnd) && c.globals == old(c.globals)
  {
    hide *;
    CanNew(s, dst, tag, srcs);
    Root(c, s, dst);
    Spaces(c, s);
    StillUnused(s.mem, s.next, s.next, Obj(tag, Pick(s.roots, srcs)));
    ok := AllocSmall(c, dst, tag, srcs, work, increment, statHeapSize, s.next);
    if ok {
      Again(c, Step(s, NewSmall(dst, tag, srcs)).value);
    }
  }

  lemma CanNew(s: Ideal, dst: int, tag: int, srcs: seq<int>)
    ensures Step(s, NewSmall(dst, tag, srcs)).Some? ==> CanMake(s, dst, tag, srcs) && |srcs| <= MAX_YOUNG_WOSIZE
    ensures Step(s, NewSmall(dst, tag, srcs)).Some? ==>
              Step(s, NewSmall(dst, tag, srcs)).value == Made(s, dst, tag, srcs)
    ensures Step(s, NewLarge(dst, tag, srcs)).Some? ==> CanMake(s, dst, tag, srcs)
    ensures Step(s, NewLarge(dst, tag, srcs)).Some? ==>
              Step(s, NewLarge(dst, tag, srcs)).value == Made(s, dst, tag, srcs)
    ensures CanMake(s, dst, tag, srcs) ==> 0 <= dst < |s.roots| && 1 <= |srcs|
    ensures CanMake(s, dst, tag, srcs) ==> forall k :: 0 <= k < |srcs| ==> 0 <= srcs[k] < |s.roots|
    ensures CanMake(s, dst, tag, srcs) ==> ObjOk(Obj(tag, Pick(s.roots, srcs)))
    ensures CanMake(s, dst, tag, srcs) ==>
              Made(s, dst, tag, srcs) == Ideal(s.mem[s.next := Obj(tag, Pick(s.roots, srcs))],
                                               s.roots[dst := Ptr(s.next)], s.globals, s.next + 1)
  {
  }

  method MakeLarge(c: Collector, dst: int, tag: int, srcs: seq<int>, increment: int, ghost s: Ideal) returns (ok: bool)
    requires Represents(c, s) && Step(s, NewLarge(dst, tag, srcs)).Some?
    modifies c`heap, c`chunks, c`refTable, c`roots, c`mroots, c`w
    ensures if ok then Represents(c, Step(s, NewLarge(dst, tag, srcs)).value)
            else Represents(c, s) && NoFree(c.heap, |srcs|)
  {
    hide *;
    CanNew(s, dst, tag, srcs);
    Root(c, s, dst);
    Spaces(c, s);
    StillUnused(s.mem, s.next, s.next, Obj(tag, Pick(s.roots, srcs)));
    ok := AllocLarge(c, dst, tag, srcs, increment, s.next);
    Again(c, if ok then Step(s, NewLarge(dst, tag, srcs)).value else s);
  }

  /** `gc_minor`, or a collection that the runtime itself decides on. */
  method DoMinor(c: Collector, work: int, increment: int, statHeapSize: int, ghost s: Ideal) returns (ok: bool)
    requires Represents(c, s)
    modifies c
    ensures ok ==> Represents(c, s) && c.young == map[] && c.refTable == []
    ensures !ok ==> NoRoom(c.heap, s.mem)
    ensures c.youngStart == old(c.youngStart) && c.youngEnd == old(c.youngEnd) && c.globals == old(c.globals)
  {
    hide *;
    Root(c, s, 0);
    Spaces(c, s);
    ghost var between, kept;
    ok, between, kept := MinorCollection(c, work, increment, statHeapSize);
    if ok {
      PromotedMemory(old(c.heap), old(c.w), c.mroots, c.heap, c.w);
      Again(c, s);
    }
  }

  /** `gc_full_major`: afterwards every block in use, empty ones aside, holds an object that
      can still be reached. */
  method DoFull(c: Collector, work: int, increment: int, statHeapSize: int, ghost s: Ideal) returns (ok: bool)
    requires Represents(c, s)
    modifies c
    ensures ok ==> Represents(c, s) && c.young == map[]
    ensures !ok ==> NoRoom(c.heap, s.mem)
    ensures ok ==> forall a {:trigger Live(c.heap, a)} :: Live(c.heap, a) && c.heap[a].fields != [] ==>
                     exists i :: i in ReachSet(s.mem, RootIds(s.roots, c.globals)) && FoundAt(c, s, i, a)
    ensures c.youngStart == old(c.youngStart) && c.youngEnd == old(c.youngEnd) && c.globals == old(c.globals)
  {
    hide *;
    ok := DoMinor(c, work, increment, statHeapSize, s);
    if ok {
      Spaces(c, s);
      Root(c, s, 0);
      ghost var w := c.w;
      c.FullMajor(statHeapSize);
      FewerMemory(c.w, w);
      Again(c, s);
      OnlyReached(c, s);
    }
  }

  lemma OnlyReached(c: Collector, s: Ideal)
    requires Represents(c, s)
    requires forall a {:trigger Live(c.heap, a)} :: Live(c.heap, a) && c.heap[a].fields != [] ==>
               exists i :: i in ReachSet(c.w.mem, RootIds(c.mroots, c.globals)) && i in c.w.loc && c.w.loc[i] == a
    ensures forall a {:trigger Live(c.heap, a)} :: Live(c.heap, a) && c.heap[a].fields != [] ==>
              exists i :: i in ReachSet(s.mem, RootIds(s.roots, c.globals)) && FoundAt(c, s, i, a)
  {
    hide ReachSet, RootIds, FoundAt, Collector.Valid;
    forall a {:trigger Live(c.heap, a)} | Live(c.heap, a) && c.heap[a].fields != []
      ensures exists i :: i in ReachSet(s.mem, RootIds(s.roots, c.globals)) && FoundAt(c, s, i, a)
    {
      var i :| i in ReachSet(c.w.mem, RootIds(c.mroots, c.globals)) && i in c.w.loc && c.w.loc[i] == a;
      Found(c, s, i);
    }
  }

  lemma FewerMemory(w': World, w: World)
    requires Fewer(w', w)
    ensures w'.mem == w.mem
  {
  }

  // ----- Runs -----

  /** The operation cannot be done: some object that is to be copied, or the one to be made,
      is larger than every free block, and no memory could be added. */
  ghost predicate OutOfMemory(h: Heap, s: Ideal, op: Op) {
    match op
    case NewSmall(_, _, _) => NoRoom(h, s.mem)
    case NewLarge(_, _, srcs) => NoFree(h, |srcs|)
    case CollectMinor => NoRoom(h, s.mem)
    case CollectFull => NoRoom(h, s.mem)
    case _ => false
  }

  /** One operation of the program on the collected heap, with slices and extensions of any size. */
  method Perform(c: Collector, op: Op, work: int, increment: int, statHeapSize: int, ghost s: Ideal) returns (ok: bool)
    requires Represents(c, s) && Step(s, op).Some?
    modifies c
    ensures ok ==> Represents(c, Step(s, op).value)
    ensures !ok ==> OutOfMemory(c.heap, s, op)
  {
    hide NoRoom, NoFree, Represents, Steps, HasField, CanMake, Made, Collector.Valid, WorldOk, Known, Conc;
    Root(c, s, 0);
    Spaces(c, s);
    ok := true;
    match op {
      case Constant(dst, n) =>
        Immediate(c.w.loc, n);
        SetRoot(c, dst, Imm(n), Imm(n));
        Again(c, Step(s, op).value);
      case CopyRoot(dst, src) =>
        Root(c, s, src);
        SetRoot(c, dst, c.roots[src], c.mroots[src]);
        Again(c, Step(s, op).value);
      case GetGlobals(dst) =>
        GlobalsStored(c);
        SetRoot(c, dst, Ptr(c.globalData), Ptr(c.globals));
        Again(c, Step(s, op).value);
      case GetField(dst, src, k) => FieldToRoot(c, dst, src, k, s);
      case SetField(dst, k, src) => RootToField(c, dst, k, src, statHeapSize, s);
      case NewSmall(dst, tag, srcs) => ok := MakeSmall(c, dst, tag, srcs, work, increment, statHeapSize, s);
      case NewLarge(dst, tag, srcs) => ok := MakeLarge(c, dst, tag, srcs, increment, s);
      case Push =>
        PushRoot(c);
        Again(c, Step(s, op).value);
      case Pop =>
        PopRoot(c);
        Again(c, Step(s, op).value);
      case CollectMinor => ok := DoMinor(c, work, increment, statHeapSize, s);
      case CollectFull => ok := DoFull(c, work, increment, statHeapSize, s);
    }
  }

  lemma GlobalsStored(c: Collector)
    requires c.Valid()
    ensures Known(c.w.loc, Ptr(c.globals)) && Conc(c.w.loc, Ptr(c.globals)) == Ptr(c.globalData)
  {
    hide PhaseOk, Tiled, YoungOk, WorldOk, Kept, HeapHolds, RefOk;
  }

  lemma Immediate(loc: map<int, int>, n: int)
    ensures Known(loc, Imm(n)) && Conc(loc, Imm(n)) == Imm(n)
  {
  }

  /** A whole run: it stands for what the ideal memory becomes, unless memory runs out on
      the way. */
  method Run(c: Collector, ops: seq<Op>, ghost s: Ideal) returns (ok: bool, done: int)
    requires Represents(c, s) && Steps(s, ops).Some?
    modifies c
    ensures 0 <= done <= |ops| && (ok <==> done == |ops|)
    ensures ok ==> Represents(c, Steps(s, ops).value)
    ensures !ok ==> Steps(s, ops[..done]).Some? && OutOfMemory(c.heap, Steps(s, ops[..done]).value, ops[done])
  {
    hide *;
    ghost var t := s;
    done := 0;
    StepsNone(s, ops);
    while done < |ops|
      invariant 0 <= done <= |ops| && Represents(c, t) && Steps(s, ops[..done]) == Some(t)
    {
      StepsNext(s, ops, done);
      var work: int, increment: int, statHeapSize: int := *, *, *;
      ok := Perform(c, ops[done], work, increment, statHeapSize, t);
      if !ok {
        return;
      }
      t := Step(t, ops[done]).value;
      done := done + 1;
    }
    assert ops[..done] == ops;
    ok := true;
  }

  lemma {:induction false} StepsSplit(s: Ideal, ops: seq<Op>, n: int)
    requires 0 <= n <= |ops|
    ensures Steps(s, ops) == match Steps(s, ops[..n])
                             case None => None
                             case Some(t) => Steps(t, ops[n..])
    decreases n
  {
    hide Step;
    if n == 0 {
      assert ops[n..] == ops && ops[..n] == [];
    } else if Step(s, ops[0]).Some? {
      StepsSplit(Step(s, ops[0]).value, ops[1..], n - 1);
      assert ops[..n][1..] == ops[1..][..n - 1] && ops[1..][n - 1..] == ops[n..];
    }
  }

  /** When all operations can be done, so can the next one. */
  lemma StepsNext(s: Ideal, ops: seq<Op>, n: int)
    requires 0 <= n < |ops| && Steps(s, ops).Some? && Steps(s, ops[..n]).Some?
    ensures Step(Steps(s, ops[..n]).value, ops[n]).Some?
    ensures Steps(s, ops[..n + 1]) == Step(Steps(s, ops[..n]).value, ops[n])
  {
    hide Step;
    StepsSplit(s, ops, n);
    assert ops[n..] != [] && ops[n..][0] == ops[n];
    StepsSplit(s, ops[..n + 1], n);
    assert ops[..n + 1][..n] == ops[..n] && ops[..n + 1][n..] == [ops[n]];
    StepsOne(Steps(s, ops[..n]).value, ops[n]);
  }

  lemma StepsOne(s: Ideal, op: Op)
    ensures Steps(s, [op]) == Step(s, op)
  {
    hide Step;
    if Step(s, op).Some? {
      assert [op][1..] == [];
    }
  }

  lemma StepsNone(s: Ideal, ops: seq<Op>)
    ensures Steps(s, ops[..0]) == Some(s)
  {
  }

  // ----- What a program can see -----

  /** Where a path of field numbers leads in the heap and the young generation. */
  ghost function Walk(h: Heap, young: Heap, v: Value, path: seq<int>): Option<Value>
    decreases |path|
  {
    if path == [] then Some(v)
    else if v.Ptr? && (v.a in h || v.a in young) then
      var b := if v.a in h then h[v.a] else young[v.a];
      if 0 <= path[0] < |b.fields| then Walk(h, young, b.fields[path[0]], path[1..]) else None
    else None
  }

  ghost function IdealWalk(mem: Memory, v: Value, path: seq<int>): Option<Value>
    decreases |path|
  {
    if path == [] then Some(v)
    else if v.Ptr? && v.a in mem && 0 <= path[0] < |mem[v.a].fields| then
      IdealWalk(mem, mem[v.a].fields[path[0]], path[1..])
    else None
  }

  /** Every path leads to the same place in both memories. */
  lemma {:induction false} SameWalk(c: Collector, s: Ideal, m: Value, path: seq<int>)
    requires Represents(c, s) && Known(c.w.loc, m)
    ensures match IdealWalk(s.mem, m, path)
            case Some(r) => Known(c.w.loc, r) && Walk(c.heap, c.young, Conc(c.w.loc, m), path) == Some(Conc(c.w.loc, r))
            case None => Walk(c.heap, c.young, Conc(c.w.loc, m), path) == None
    decreases |path|
  {
    hide Represents;
    if path != [] && m.Ptr? {
      Found(c, s, m.a);
      if 0 <= path[0] < |s.mem[m.a].fields| {
        SameWalk(c, s, s.mem[m.a].fields[path[0]], path[1..]);
      }
    }
  }

  /** What a program finds from its roots is the same in both memories: immediate values,
      tags and sizes of blocks, and whether two paths end in the same block. */
  lemma Indistinguishable(c: Collector, s: Ideal, j: int, p: seq<int>, k: int, q: seq<int>)
    requires Represents(c, s) && 0 <= j < |s.roots| && 0 <= k < |s.roots|
    ensures |c.roots| == |s.roots|
    ensures var x, y := IdealWalk(s.mem, s.roots[j], p), IdealWalk(s.mem, s.roots[k], q);
            var u, v := Walk(c.heap, c.young, c.roots[j], p), Walk(c.heap, c.young, c.roots[k], q);
            && (u.Some? <==> x.Some?) && (v.Some? <==> y.Some?)
            && (x.Some? && x.value.Imm? ==> u == x)
            && (x.Some? && x.value.Ptr? ==> u.value.Ptr? && FoundAt(c, s, x.value.a, u.value.a))
            && (x.Some? && y.Some? ==> (x == y <==> u == v))
  {
    hide Represents, FoundAt, WorldOk;
    Root(c, s, j);
    Root(c, s, k);
    SameWalk(c, s, s.roots[j], p);
    SameWalk(c, s, s.roots[k], q);
    var x, y := IdealWalk(s.mem, s.roots[j], p), IdealWalk(s.mem, s.roots[k], q);
    if x.Some? && x.value.Ptr? {
      Found(c, s, x.value.a);
    }
    if x.Some? && y.Some? && x.value.Ptr? && y.value.Ptr? {
      Found(c, s, y.value.a);
      FoundOnce(c, s, x.value.a, y.value.a);
    }
  }

  lemma FoundOnce(c: Collector, s: Ideal, i: int, j: int)
    requires i in c.w.loc && j in c.w.loc && FoundAt(c, s, i, c.w.loc[i]) && FoundAt(c, s, j, c.w.loc[j])
    ensures c.w.loc[i] == c.w.loc[j] <==> i == j
  {
  }

  /** A block that is not kept, and so may be freed, cannot be reached from a root. */
  lemma FreedUnreachable(c: Collector, s: Ideal, bp: int, k: int, path: seq<int>)
    requires Represents(c, s) && bp !in c.w.at && 0 <= k < |s.roots|
    ensures |c.roots| == |s.roots| && Walk(c.heap, c.young, c.roots[k], path) != Some(Ptr(bp))
  {
    hide Represents, Walk, IdealWalk;
    Root(c, s, k);
    SameWalk(c, s, s.roots[k], path);
    var x := IdealWalk(s.mem, s.roots[k], path);
    if x.Some? && x.value.Ptr? {
      Found(c, s, x.value.a);
    }
  }

  // ----- The start -----

  /** With the global data in the heap and nothing else, all holds. */
  lemma Begins(h: Heap, h1: Heap, chunks: seq<Chunk>, lo: int, hi: int, o: Obj, a: int, size: int)
    requires Allocated(h, h1, a, |o.fields|, o.tag, Black) && Tiled(h1, chunks) && YoungOk(map[], lo, lo, hi, chunks)
    requires chunks != []
    requires (forall x :: x in h ==> h[x].color.Blue?) && size >= 2 && ObjOk(o)
    requires forall k :: 0 <= k < |o.fields| ==> o.fields[k].Imm?
    ensures a in h1
    ensures var h', w := h1[a := h1[a].(fields := o.fields)], World(map[0 := o], map[0 := a], map[a := 0]);
            MutOk(h', chunks, map[], lo, lo, hi, w, [], [], 0, a, []) &&
            forall chunk, limit, sweepHp {:trigger PhaseOk(MarkPhase, h', chunks, w, Snapshot(map[], {}), [], size,
                                                           true, Null, chunk, limit, sweepHp)} ::
              PhaseOk(MarkPhase, h', chunks, w, Snapshot(map[], {}), [], size, true, Null, chunk, limit, sweepHp)
  {
    var h', w := h1[a := h1[a].(fields := o.fields)], World(map[0 := o], map[0 := a], map[a := 0]);
    SameSize(h1, chunks, a, h1[a].(fields := o.fields));
    hide Tiled;
    assert WorldOk(w) by {
      assert Closed(w, 0);
    }
    assert HeapHolds(h', w, {}) by {
      assert HoldsAt(h', w, {}, a);
    }
    forall x | x in h' && x != a
      ensures !NotWhite(h', x) && !h'[x].color.Gray?
    {
      assert Live(h1, x) ==> h1[x] == Block(0, White, []);
    }
  }

  /** The heap is set up, marking has just started with nothing to mark, and the global
      data, `n` words, is loaded.  It fails only when the heap is too small for that and cannot
      grow. */
  method Start(heapSize: int, minorSize: int, n: int, increment: int) returns (c: Collector, ok: bool)
    requires heapSize >= 2 && minorSize > MAX_YOUNG_WOSIZE && n >= 1
    ensures fresh(c)
    ensures ok ==> Represents(c, Ideal(map[0 := Obj(0, seq(n, _ => Imm(0)))], [], 0, 1))
    ensures !ok ==> heapSize <= n
  {
    hide *;
    SomePlaces(minorSize, heapSize);
    var young: int, mem: int :| Separate(young, minorSize, mem, heapSize);
    AreSeparate(young, minorSize, mem, heapSize);
    c := new Collector(mem, heapSize, young, minorSize);
    Sizes();
    OneFree(Chunk(mem, mem + heapSize), young, young + minorSize);
    ok := LoadGlobals(c, n, increment);
    if !ok {
      FreeWords(Chunk(mem, mem + heapSize), n);
    }
  }

  /** Two areas given out by `malloc`. */
  predicate Separate(a: int, n: int, b: int, m: int) {
    a + n <= b || b + m <= a
  }

  lemma SomePlaces(n: int, m: int)
    ensures Separate(0, n, n, m)
  {
  }

  lemma AreSeparate(a: int, n: int, b: int, m: int)
    requires Separate(a, n, b, m)
    ensures a + n <= b || b + m <= a
  {
  }

  lemma FreeWords(k: Chunk, n: int)
    requires k.start < k.end && NoFree(Grown(map[], k), n)
    ensures k.end - k.start - 1 < n
  {
    assert Grown(map[], k)[k.start].color.Blue?;
  }

  /** The global data gets the first block. */
  method LoadGlobals(c: Collector, n: int, increment: int) returns (ok: bool)
    requires n >= 1 && Tiled(c.heap, c.chunks) && YoungOk(map[], c.youngStart, c.youngStart, c.youngEnd, c.chunks)
    requires c.young == map[]
    requires c.youngPtr == c.youngStart && MAX_YOUNG_WOSIZE < c.youngEnd - c.youngStart
    requires forall x :: x in c.heap ==> c.heap[x].color.Blue?
    requires c.phase == MarkPhase && c.gray == [] && c.graySize == INITIAL_GRAY_SIZE && c.pure && c.markHp == Null
    requires c.refTable == [] && c.roots == c.mroots == []
    modifies c`heap, c`chunks, c`refTable, c`globalData, c`w, c`snap, c`globals
    ensures ok ==> Represents(c, Ideal(map[0 := Obj(0, seq(n, _ => Imm(0)))], [], 0, 1))
    ensures !ok ==> c.heap == old(c.heap) && NoFree(c.heap, n)
  {
    hide *;
    ghost var h := c.heap;
    var a;
    a, ok := AllocShr(c, n, 0, increment);
    if !ok {
      return;
    }
    ghost var h1 := c.heap;
    var zeros := seq(n, _ => Imm(0));
    NewBlock(h, h1, a, n, 0, NewColor(c.phase, c.sweepHp, a));
    InitializeAll(c, a, zeros);
    NoYoungEntries(a, zeros, |zeros|, c.youngStart, c.youngEnd);
    TopChunk(h1, c.chunks, a);
    Sizes();
    Zeros(n);
    MarkColor(c.phase, c.sweepHp, a);
    Begins(h, h1, c.chunks, c.youngStart, c.youngEnd, Obj(0, zeros), a, INITIAL_GRAY_SIZE);
    First(c, a, Obj(0, zeros));
  }

  /** Names the global data, the only object. */
  method First(c: Collector, a: int, ghost o: Obj)
    requires MutOk(c.heap, c.chunks, c.young, c.youngStart, c.youngPtr, c.youngEnd,
                   World(map[0 := o], map[0 := a], map[a := 0]), c.roots, c.mroots, 0, a, c.refTable)
    requires PhaseOk(c.phase, c.heap, c.chunks, World(map[0 := o], map[0 := a], map[a := 0]), Snapshot(map[], {}),
                     c.gray, c.graySize, c.pure, c.markHp, c.chunk, c.limit, c.sweepHp)
    requires MAX_YOUNG_WOSIZE < c.youngEnd - c.youngStart && c.mroots == []
    modifies c`globalData, c`w, c`snap, c`globals
    ensures Represents(c, Ideal(map[0 := o], [], 0, 1))
  {
    hide *;
    c.globalData := a;
    c.w := World(map[0 := o], map[0 := a], map[a := 0]);
    c.snap := Snapshot(map[], {});
    c.globals := 0;
    ValidFrom(c);
    FirstUnused(o);
    Again(c, Ideal(map[0 := o], [], 0, 1));
  }

  lemma OneFree(k: Chunk, lo: int, hi: int)
    requires k.start + 2 <= k.end && lo <= hi && (hi <= k.start || k.end <= lo)
    ensures Tiled(Grown(map[], k), [k]) && YoungOk(map[], lo, lo, hi, [k])
    ensures forall x :: x in Grown(map[], k) ==> Grown(map[], k)[x].color.Blue?
  {
    hide Tiled;
    OneChunk(k);
  }

  lemma {:induction false} NoYoungEntries(a: int, vs: seq<Value>, n: nat, lo: int, hi: int)
    requires n <= |vs| && forall k :: 0 <= k < |vs| ==> vs[k].Imm?
    ensures YoungEntries(a, vs, n, lo, hi) == []
  {
    if n > 0 {
      NoYoungEntries(a, vs, n - 1, lo, hi);
    }
  }

  lemma Sizes()
    ensures MAX_YOUNG_WOSIZE >= 0 && INITIAL_GRAY_SIZE >= 2
  {
  }

  lemma Zeros(n: int)
    requires n >= 1
    ensures var o := Obj(0, seq(n, _ => Imm(0))); ObjOk(o) && forall k :: 0 <= k < |o.fields| ==> o.fields[k].Imm?
  {
  }

  lemma MarkColor(phase: Phase, sweepHp: int, a: int)
    requires phase == MarkPhase
    ensures NewColor(phase, sweepHp, a) == Black
  {
  }

  lemma FirstUnused(o: Obj)
    ensures Unused(map[0 := o], 1)
  {
  }
}
