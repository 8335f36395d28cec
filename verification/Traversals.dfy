/** The traversal of src/mosmlyac/lalr.c (`digraph` and `traverse`) with its arrays of shorts, as it
    runs for any number of vertices. `Digraph` shows when it computes closures. */
module Traversals {
  import opened Relations

  /** What is left of a number in a short. */
  function Short(x: int): int {
    (x + 0x8000) % 0x1_0000 - 0x8000
  }

  /** The arrays of the traversal, as values. */
  datatype Tables = Tables(f: seq<set<int>>, index: seq<int>, vertices: seq<int>, top: int)

  ghost function Unvisited(s: Tables): set<int> {
    set v | 0 <= v < |s.index| && s.index[v] == 0
  }

  /** There is room on the stack for all vertices that have not been visited. */
  ghost predicate Safe(r: Relation, s: Tables) {
    && IsRelation(r, |r|) && |s.f| == |s.index| == |r| && |s.vertices| == |r| + 1 && 0 <= s.top
    && s.top + |Unvisited(s)| <= |r|
    && forall p :: 1 <= p <= s.top && p < |s.vertices| ==> 0 <= s.vertices[p] < |r|
  }

  /** Vertex `i` goes on the stack. */
  ghost function Pushed(s: Tables, i: int): Tables
    requires 0 <= i < |s.index| && 0 <= s.top && s.top + 1 < |s.vertices|
  {
    s.(index := s.index[i := s.top + 1], vertices := s.vertices[s.top + 1 := i], top := s.top + 1)
  }

  /** Vertex `i` has taken its successor `j` into account. */
  ghost function Joined(s: Tables, i: int, j: int): Tables
    requires 0 <= i < |s.f| == |s.index| && 0 <= j < |s.f|
  {
    s.(index := if s.index[i] > s.index[j] then s.index[i := s.index[j]] else s.index,
       f := s.f[i := s.f[i] + s.f[j]])
  }

  /** The vertex on top leaves the stack and gets the row of `i`. */
  ghost function Dropped(s: Tables, inf: int, i: int): Tables
    requires 0 <= i < |s.f| == |s.index| && 1 <= s.top < |s.vertices| && 0 <= s.vertices[s.top] < |s.f|
  {
    var j := s.vertices[s.top];
    var t := s.(index := s.index[j := inf], top := s.top - 1);
    if j == i then t else t.(f := s.f[j := s.f[i]])
  }

  lemma PushSafe(r: Relation, s: Tables, i: int)
    requires Safe(r, s) && 0 <= i < |r| && s.index[i] == 0
    ensures s.top + 1 < |s.vertices| && Safe(r, Pushed(s, i)) && Unvisited(Pushed(s, i)) == Unvisited(s) - {i}
    ensures Unvisited(Pushed(s, i)) < Unvisited(s)
  {
    assert i in Unvisited(s);
    assert Unvisited(Pushed(s, i)) == Unvisited(s) - {i} by {
      assert 0 < |Unvisited(s)|;
    }
  }

  lemma JoinSafe(r: Relation, s: Tables, i: int, j: int)
    requires Safe(r, s) && 0 <= i < |r| && 0 <= j < |r| && s.index[i] != 0 && s.index[j] != 0
    ensures Safe(r, Joined(s, i, j)) && Unvisited(Joined(s, i, j)) == Unvisited(s) && Joined(s, i, j).index[i] != 0
  {
    assert Unvisited(Joined(s, i, j)) == Unvisited(s);
  }

  lemma DropSafe(r: Relation, s: Tables, inf: int, i: int)
    requires Safe(r, s) && 0 <= i < |r| && 1 <= s.top && inf != 0
    ensures s.top < |s.vertices| && 0 <= s.vertices[s.top] < |r|
    ensures Safe(r, Dropped(s, inf, i)) && Unvisited(Dropped(s, inf, i)) <= Unvisited(s)
  {
    var t := Dropped(s, inf, i);
    assert Unvisited(t) <= Unvisited(s);
    SubsetSize(Unvisited(t), Unvisited(s));
  }

  lemma {:induction false} SubsetSize(a: set<int>, b: set<int>)
    requires a <= b
    ensures |a| <= |b|
  {
    assert b == a + (b - a);
  }

  ghost function Range(n: nat): (s: set<int>)
    ensures |s| == n && forall v :: v in s <==> 0 <= v < n
  {
    if n == 0 then {} else Range(n - 1) + {n - 1}
  }

  /** The vertices down to `i` leave the stack. */
  ghost function DropAll(r: Relation, inf: int, s: Tables, i: int): (t: Tables)
    requires Safe(r, s) && 0 <= i < |r| && inf != 0
    ensures Safe(r, t) && Unvisited(t) <= Unvisited(s) && (s.index[i] != 0 ==> t.index[i] != 0)
    decreases s.top
  {
    if s.top <= 0 then s
    else
      DropSafe(r, s, inf, i);
      var t := Dropped(s, inf, i);
      if s.vertices[s.top] == i then t else DropAll(r, inf, t, i)
  }

  /** The traversal of `i`, which has not been visited. */
  ghost function Visited(r: Relation, inf: int, s: Tables, i: int): (t: Tables)
    requires Safe(r, s) && 0 <= i < |r| && s.index[i] == 0 && inf != 0
    ensures Safe(r, t) && Unvisited(t) < Unvisited(s) && t.index[i] != 0
    decreases Unvisited(s), 0
  {
    PushSafe(r, s, i);
    Continued(r, inf, Pushed(s, i), i, s.top + 1, 0)
  }

  /** The traversal of `i`, which was pushed at `height`, from its successor number `e` on. */
  ghost function Continued(r: Relation, inf: int, s: Tables, i: int, height: int, e: int): (t: Tables)
    requires Safe(r, s) && 0 <= i < |r| && s.index[i] != 0 && inf != 0 && 0 <= e <= |r[i]|
    ensures Safe(r, t) && Unvisited(t) <= Unvisited(s) && t.index[i] != 0
    decreases Unvisited(s), |r[i]| - e + 1
  {
    if e == |r[i]| then if s.index[i] == height then DropAll(r, inf, s, i) else s
    else
      var j := r[i][e];
      var t := if s.index[j] == 0 then Visited(r, inf, s, j) else s;
      StillVisited(s, t, i);
      JoinSafe(r, t, i, j);
      Continued(r, inf, Joined(t, i, j), i, height, e + 1)
  }

  lemma StillVisited(s: Tables, t: Tables, i: int)
    requires |s.index| == |t.index| && Unvisited(t) <= Unvisited(s) && 0 <= i < |s.index| && s.index[i] != 0
    ensures t.index[i] != 0
  {
    assert i !in Unvisited(s);
  }

  /** All vertices from `i` on that have successors are traversed. */
  ghost function Finished(r: Relation, inf: int, s: Tables, i: int): (t: Tables)
    requires Safe(r, s) && 0 <= i <= |r| && inf != 0
    ensures Safe(r, t)
    decreases |r| - i
  {
    if i == |r| then s
    else Finished(r, inf, if s.index[i] == 0 && r[i] != [] then Visited(r, inf, s, i) else s, i + 1)
  }

  ghost function Start(f: seq<set<int>>): Tables {
    Tables(f, seq(|f|, _ => 0), seq(|f| + 1, _ => 0), 0)
  }

  lemma StartSafe(r: Relation, f: seq<set<int>>)
    requires IsRelation(r, |f|)
    ensures Safe(r, Start(f))
  {
    assert Unvisited(Start(f)) == Range(|f|);
  }

  /** The rows that the traversal leaves; `inf` marks finished vertices. */
  ghost function Rows(r: Relation, inf: int, f: seq<set<int>>): (f': seq<set<int>>)
    requires IsRelation(r, |f|) && inf != 0
    ensures |f'| == |f|
  {
    StartSafe(r, f);
    Finished(r, inf, Start(f), 0).f
  }

  // ----- Rows only get what other rows have -----

  ghost predicate Within(f: seq<set<int>>, all: set<int>) {
    forall v :: 0 <= v < |f| ==> f[v] <= all
  }

  lemma {:induction false} DropWithin(r: Relation, inf: int, s: Tables, i: int, all: set<int>)
    requires Safe(r, s) && 0 <= i < |r| && inf != 0 && Within(s.f, all)
    ensures Within(DropAll(r, inf, s, i).f, all)
    decreases s.top
  {
    hide Unvisited;
    if s.top > 0 {
      DropSafe(r, s, inf, i);
      var t := Dropped(s, inf, i);
      if s.vertices[s.top] != i {
        DropWithin(r, inf, t, i, all);
      }
    }
  }

  lemma {:induction false} VisitWithin(r: Relation, inf: int, s: Tables, i: int, all: set<int>)
    requires Safe(r, s) && 0 <= i < |r| && s.index[i] == 0 && inf != 0 && Within(s.f, all)
    ensures Within(Visited(r, inf, s, i).f, all)
    decreases Unvisited(s), 0
  {
    PushSafe(r, s, i);
    ContinueWithin(r, inf, Pushed(s, i), i, s.top + 1, 0, all);
  }

  lemma {:induction false} ContinueWithin(r: Relation, inf: int, s: Tables, i: int, height: int, e: int, all: set<int>)
    requires Safe(r, s) && 0 <= i < |r| && s.index[i] != 0 && inf != 0 && 0 <= e <= |r[i]| && Within(s.f, all)
    ensures Within(Continued(r, inf, s, i, height, e).f, all)
    decreases Unvisited(s), |r[i]| - e + 1
  {
    hide Unvisited;
    if e == |r[i]| {
      if s.index[i] == height {
        DropWithin(r, inf, s, i, all);
      }
    } else {
      var j := r[i][e];
      if s.index[j] == 0 {
        VisitWithin(r, inf, s, j, all);
      }
      var t := if s.index[j] == 0 then Visited(r, inf, s, j) else s;
      StillVisited(s, t, i);
      JoinSafe(r, t, i, j);
      ContinueWithin(r, inf, Joined(t, i, j), i, height, e + 1, all);
    }
  }

  lemma {:induction false} FinishWithin(r: Relation, inf: int, s: Tables, i: int, all: set<int>)
    requires Safe(r, s) && 0 <= i <= |r| && inf != 0 && Within(s.f, all)
    ensures Within(Finished(r, inf, s, i).f, all)
    decreases |r| - i
  {
    if i < |r| {
      if s.index[i] == 0 && r[i] != [] {
        VisitWithin(r, inf, s, i, all);
      }
      FinishWithin(r, inf, if s.index[i] == 0 && r[i] != [] then Visited(r, inf, s, i) else s, i + 1, all);
    }
  }

  lemma RowsWithin(r: Relation, inf: int, f: seq<set<int>>, all: set<int>)
    requires IsRelation(r, |f|) && inf != 0 && Within(f, all)
    ensures Within(Rows(r, inf, f), all)
  {
    StartSafe(r, f);
    FinishWithin(r, inf, Start(f), 0, all);
  }

  class Traversal {
    const n: nat
    const relation: Relation
    const infinity: int
    const f: array<set<int>>
    const index: array<int>
    const vertices: array<int>
    var top: int

    ghost function State(): Tables
      reads this, f, index, vertices
    {
      Tables(f[..], index[..], vertices[..], top)
    }

    ghost predicate Valid()
      reads this, f, index, vertices
    {
      && index != vertices && infinity != 0 && |relation| == n == f.Length == index.Length
      && vertices.Length == n + 1 && IsRelation(relation, n) && Safe(relation, State())
    }

    /** Starts a traversal of `relation` over the rows in `f`. */
    constructor (relation: Relation, f: array<set<int>>, infinity: int)
      requires IsRelation(relation, f.Length) && infinity != 0
      ensures Valid() && this.f == f && this.relation == relation && n == f.Length && this.infinity == infinity
      ensures State() == Start(f[..]) && fresh(index) && fresh(vertices)
    {
      this.n := f.Length;
      this.relation := relation;
      this.infinity := infinity;
      this.f := f;
      index := new int[f.Length](_ => 0);
      vertices := new int[f.Length + 1](_ => 0);
      top := 0;
      new;
      assert index[..] == seq(f.Length, _ => 0) && vertices[..] == seq(f.Length + 1, _ => 0);
      StartSafe(relation, f[..]);
    }

    method Push(i: int)
      requires Valid() && 0 <= i < n && index[i] == 0
      modifies this`top, index, vertices
      ensures Valid() && 0 <= old(top) && index[i] == top == old(top) + 1 < vertices.Length
      ensures State() == Pushed(old(State()), i)
      ensures Unvisited(State()) < Unvisited(old(State()))
    {
      hide Safe, Unvisited;
      ghost var s := State();
      PushSafe(relation, s, i);
      PushRoom(relation, s, i);
      top := top + 1;
      vertices[top] := i;
      index[i] := top;
      assert State() == Pushed(s, i);
    }

    /** Takes the visited successor `j` of `i` into account. */
    method Join(i: int, j: int)
      requires Valid() && 0 <= i < n && 0 <= j < n && index[i] != 0 && index[j] != 0
      modifies index, f
      ensures Valid() && State() == Joined(old(State()), i, j) && index[i] != 0
      ensures Unvisited(State()) == Unvisited(old(State()))
    {
      hide Safe, Unvisited;
      ghost var s := State();
      JoinSafe(relation, s, i, j);
      if index[i] > index[j] {
        index[i] := index[j];
      }
      f[i] := f[i] + f[j];
      assert State() == Joined(s, i, j);
    }

    /** Takes the vertex on top off the stack and gives it the row of `i`. */
    method DropTop(i: int) returns (done: bool)
      requires Valid() && 0 <= i < n && top > 0
      modifies this`top, index, f
      ensures Valid() && top == old(top) - 1 && top + 1 < vertices.Length
      ensures State() == Dropped(old(State()), infinity, i) && (done <==> i == old(vertices[top]))
    {
      hide Safe, Unvisited;
      ghost var s := State();
      DropSafe(relation, s, infinity, i);
      var j := vertices[top];
      top := top - 1;
      index[j] := infinity;
      done := i == j;
      if !done {
        f[j] := f[i];
      }
      assert State() == Dropped(s, infinity, i);
    }

    /** Takes the vertices down to `i` off the stack, copying the row of `i` to them. */
    method Drop(i: int)
      requires Valid() && 0 <= i < n
      modifies this`top, index, f
      ensures Valid() && State() == DropAll(relation, infinity, old(State()), i)
    {
      hide Safe, Unvisited, Dropped;
      ghost var s := State();
      while top > 0
        invariant Valid() && DropAll(relation, infinity, State(), i) == DropAll(relation, infinity, s, i)
        decreases top
      {
        var done := DropTop(i);
        if done {
          return;
        }
      }
    }

    method Traverse(i: int)
      requires Valid() && 0 <= i < n && index[i] == 0
      modifies this`top, f, index, vertices
      ensures Valid() && State() == Visited(relation, infinity, old(State()), i)
      decreases Unvisited(State())
    {
      hide Safe, Unvisited, DropAll, Pushed, Joined;
      ghost var s0 := State();
      Push(i);
      var height := top;
      var e := 0;
      while e < |relation[i]|
        invariant Valid() && 0 <= e <= |relation[i]| && index[i] != 0 && Unvisited(State()) < Unvisited(s0)
        invariant Visited(relation, infinity, s0, i) == Continued(relation, infinity, State(), i, height, e)
      {
        var j := relation[i][e];
        InRange(relation, i, e);
        ghost var s := State();
        if index[j] == 0 {
          Traverse(j);
        }
        StillVisited(s, State(), i);
        Join(i, j);
        e := e + 1;
      }
      if index[i] == height {
        Drop(i);
      }
    }
  }

  lemma PushRoom(r: Relation, s: Tables, i: int)
    requires Safe(r, s) && 0 <= i < |r| && s.index[i] == 0
    ensures 0 <= s.top && s.top + 1 < |s.vertices|
  {
    PushSafe(r, s, i);
  }

  lemma InRange(r: Relation, i: int, e: int)
    requires IsRelation(r, |r|) && 0 <= i < |r| && 0 <= e < |r[i]|
    ensures 0 <= r[i][e] < |r|
  {
  }
}
