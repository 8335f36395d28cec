/** The relation closure of src/mosmlyac/lalr.c (`digraph` and `traverse`): each vertex
    carries a row of tokens, and every row is replaced by the union of the rows of all
    vertices reachable from it, whatever cycles there are. */
module Digraph {
  import opened Relations
  import T = Traversals
  import G = Grammars

  /** What the traversal works from (`f0`, the rows it was given) and what it is to
      compute (`star`, one closed row per vertex). */
  datatype Rows = Rows(f0: seq<set<int>>, star: seq<set<int>>)

  ghost function ClosedRows(r: Relation, f0: seq<set<int>>): (rows: Rows)
    requires |f0| == |r|
    ensures rows.f0 == f0 && |rows.star| == |r|
    ensures forall v :: 0 <= v < |r| ==> rows.star[v] == Star(r, f0, v)
  {
    Rows(f0, seq(|r|, v requires 0 <= v < |r| => Star(r, f0, v)))
  }

  /** The arrays of the traversal, as values. `num[v]` is the stack position at
      which `v` was pushed. */
  datatype Snap = Snap(f: seq<set<int>>, index: seq<int>, num: seq<int>, vertices: seq<int>, top: int) {
    ghost predicate Sized(n: nat) {
      |f| == n && |index| == n && |num| == n && |vertices| == n + 1 && 0 <= top <= n
    }

    ghost predicate Done(v: int)
      requires 0 <= v < |index|
    {
      index[v] == |index| + 2
    }

    ghost predicate OnStack(v: int)
      requires 0 <= v < |index|
    {
      0 < index[v] <= |index|
    }

    /** The stack holds each visited, unfinished vertex once, and `index` points
        at or below a vertex's own position. */
    ghost predicate StackOk(n: nat)
      requires Sized(n)
    {
      && (forall v :: 0 <= v < n ==> index[v] == 0 || OnStack(v) || Done(v))
      && (forall v :: 0 <= v < n && OnStack(v) ==>
            1 <= index[v] <= num[v] <= top && vertices[num[v]] == v)
      && (forall p :: 1 <= p <= top ==>
            0 <= vertices[p] < n && OnStack(vertices[p]) && num[vertices[p]] == p)
    }

    /** Finished rows are closed, rows on the stack are on their way. */
    ghost predicate RowsOk(rows: Rows, n: nat)
      requires Sized(n) && |rows.f0| == n == |rows.star|
    {
      && (forall v :: 0 <= v < n && index[v] == 0 ==> f[v] == rows.f0[v])
      && (forall v :: 0 <= v < n && Done(v) ==> f[v] == rows.star[v])
      && (forall v :: 0 <= v < n && OnStack(v) ==> rows.f0[v] <= f[v] <= rows.star[v])
    }

    /** Finished vertices have finished successors only. */
    ghost predicate DoneClosed(r: Relation, n: nat)
      requires Sized(n) && IsRelation(r, n)
    {
      forall v, e :: 0 <= v < n && Done(v) && 0 <= e < |r[v]| ==> Done(r[v][e])
    }

    /** The vertex that the index of `v` points at. */
    ghost function Low(v: int): int
      requires 0 <= v < |index| && 0 <= index[v] < |vertices|
    {
      vertices[index[v]]
    }

    /** A vertex on the stack reaches the vertex its index points at. */
    ghost predicate LinksOk(r: Relation, n: nat)
      requires Sized(n) && StackOk(n)
    {
      forall v {:trigger Low(v)} :: 0 <= v < n && OnStack(v) ==> Reaches(r, v, Low(v))
    }

    ghost predicate Ok(r: Relation, rows: Rows, n: nat) {
      && IsRelation(r, n) && |rows.f0| == n == |rows.star| && Sized(n) && StackOk(n) && RowsOk(rows, n) &&
           DoneClosed(r, n) && LinksOk(r, n)
    }

    /** The edge from `v` to `w` has been taken into account in `v`'s row and index. */
    ghost predicate EdgeSeen(v: int, w: int)
      requires 0 <= v < |index| == |num| == |f| && 0 <= w < |index|
    {
      && index[w] != 0
      && (Done(w) ==> f[w] <= f[v])
      && (OnStack(w) ==> index[v] <= num[w])
    }

    /** `v` is finished but still on the stack, above the active vertex `i`. */
    ghost predicate Settled(r: Relation, i: int, v: int)
      requires 0 <= i < |index| == |num| == |f| && 0 <= v < |index|
      requires IsRelation(r, |index|)
    {
      && index[i] <= index[v] && f[v] <= f[i]
      && (forall e :: 0 <= e < |r[v]| ==> EdgeSeen(v, r[v][e]))
    }

    /** Everything above position `k` is settled below `i` and can be lowered. */
    ghost predicate Above(r: Relation, n: nat, i: int, k: int)
      requires Sized(n) && StackOk(n) && 0 <= i < n && IsRelation(r, n) && 0 <= k
    {
      forall p :: k < p <= top ==> index[vertices[p]] < p && Settled(r, i, vertices[p])
    }
  }

  /** What a traversal never changes: vertices already on the stack keep their
      place, index and row; finished vertices stay finished. */
  ghost predicate Kept(a: Snap, b: Snap, n: nat)
    requires a.Sized(n) && b.Sized(n) && a.StackOk(n)
  {
    && a.top <= b.top
    && (forall p :: 1 <= p <= a.top ==> b.vertices[p] == a.vertices[p])
    && (forall v :: 0 <= v < n && a.OnStack(v) ==>
          b.index[v] == a.index[v] && b.num[v] == a.num[v] && b.f[v] == a.f[v])
    && (forall v :: 0 <= v < n && a.Done(v) ==> b.Done(v))
    && (forall v :: 0 <= v < n && a.index[v] != 0 ==> b.index[v] != 0)
  }

  /** A vertex above `k` reaches the root at `k`, because each index leads to a
      lower position and none leads below `k`. */
  lemma {:induction false} SegmentReachesRoot(s: Snap, r: Relation, rows: Rows, n: nat, i: int, k: int, p: int)
    requires s.Ok(r, rows, n) && 0 <= i < n && 1 <= k <= p <= s.top
    requires s.vertices[k] == i && s.index[i] == k && s.Above(r, n, i, k)
    ensures Reaches(r, s.vertices[p], i)
    decreases p
  {
    var v := s.vertices[p];
    if p == k {
      ReachesSelf(r, i);
    } else {
      var q := s.index[v];
      assert s.Settled(r, i, v) && s.Low(v) == s.vertices[q];
      SegmentReachesRoot(s, r, rows, n, i, k, q);
      ReachesTransitive(r, v, s.vertices[q], i);
    }
  }

  ghost predicate InSegment(s: Snap, n: nat, k: int, u: int)
    requires s.Sized(n)
  {
    0 <= u < n && s.OnStack(u) && k <= s.num[u]
  }

  lemma SegmentMember(s: Snap, r: Relation, n: nat, i: int, k: int, u: int)
    requires IsRelation(r, n) && s.Sized(n) && s.StackOk(n) && 0 <= i < n && 1 <= k <= s.top
    requires s.vertices[k] == i && s.index[i] == k && s.Above(r, n, i, k) && s.Settled(r, i, i)
    requires InSegment(s, n, k, u)
    ensures s.f[u] <= s.f[i]
    ensures forall w :: Edge(r, u, w) ==> InSegment(s, n, k, w) || (s.Done(w) && s.f[w] <= s.f[i])
  {
    var p := s.num[u];
    assert u == s.vertices[p];
    assert s.Settled(r, i, u);
    forall w | Edge(r, u, w)
      ensures InSegment(s, n, k, w) || (s.Done(w) && s.f[w] <= s.f[i])
    {
      var e :| 0 <= e < |r[u]| && r[u][e] == w;
      assert s.EdgeSeen(u, r[u][e]);
    }
  }

  /** When the root of a component is complete, its row is the closure of every
      member of the segment. */
  lemma RootRow(s: Snap, r: Relation, rows: Rows, n: nat, i: int, k: int, p: int)
    requires s.Ok(r, rows, n) && 0 <= i < n && 1 <= k <= p <= s.top
    requires s.vertices[k] == i && s.index[i] == k && s.Above(r, n, i, k) && s.Settled(r, i, i)
    requires rows == ClosedRows(r, rows.f0)
    ensures s.f[i] == rows.star[s.vertices[p]]
  {
    var v := s.vertices[p];
    SegmentReachesRoot(s, r, rows, n, i, k, p);
    StarMonotone(r, rows.f0, v, i);
    var closed := set u | 0 <= u < n && (InSegment(s, n, k, u) || s.Done(u));
    var x := map u | u in closed :: if s.Done(u) then s.f[u] else s.f[i];
    forall u, w | u in closed && Edge(r, u, w)
      ensures w in closed && x[w] <= x[u]
    {
      if s.Done(u) {
        StarEdge(r, rows.f0, u, w);
      } else {
        SegmentMember(s, r, n, i, k, u);
      }
    }
    forall u | u in closed
      ensures rows.f0[u] <= x[u]
    {
      if s.Done(u) {
        StarOwnRow(r, rows.f0, u);
      } else {
        SegmentMember(s, r, n, i, k, u);
      }
    }
    StarLeast(r, rows.f0, closed, x, v);
  }

  lemma {:induction false} PrefixSize(vs: seq<int>, t: nat)
    requires t < |vs| && forall p, q :: 1 <= p < q <= t ==> vs[p] != vs[q]
    ensures |set p | 1 <= p <= t :: vs[p]| == t
  {
    var members := set p | 1 <= p <= t :: vs[p];
    if t == 0 {
      assert members == {};
    } else {
      PrefixSize(vs, t - 1);
      var rest := set p | 1 <= p <= t - 1 :: vs[p];
      assert vs[t] !in rest;
      assert members == rest + {vs[t]};
    }
  }

  lemma StackPrefixSize(s: Snap, n: nat, t: nat)
    requires s.Sized(n) && s.StackOk(n) && t <= s.top
    ensures |set p | 1 <= p <= t :: s.vertices[p]| == t
  {
    PrefixSize(s.vertices, t);
  }

  /** There is room on the stack for an unvisited vertex. */
  lemma RoomForUnvisited(s: Snap, n: nat, i: int)
    requires s.Sized(n) && s.StackOk(n) && 0 <= i < n && s.index[i] == 0
    ensures s.top < n
  {
    var members := set p | 1 <= p <= s.top :: s.vertices[p];
    StackPrefixSize(s, n, s.top);
    var others := T.Range(n) - {i};
    assert members <= others;
    T.SubsetSize(members, others);
  }

  /** The traversal of `i`, entered with `k - 1` vertices on the stack, has looked
      at the first `e` successors of `i`. */
  ghost predicate Visiting(s0: Snap, s: Snap, r: Relation, rows: Rows, n: nat, i: int, k: int, e: int) {
    && s0.Ok(r, rows, n) && s.Ok(r, rows, n) && Kept(s0, s, n)
    && 0 <= i < n && s0.index[i] == 0 && 0 <= e <= |r[i]| && k == s0.top + 1 <= s.top
    && s.OnStack(i) && s.num[i] == k && s.Above(r, n, i, k)
    && (forall d :: 0 <= d < e ==> s.EdgeSeen(i, r[i][d]))
  }

  /** How a traversal of `i` ends: its component is finished, or `i` stays on the
      stack with its index pointing below its own position. */
  ghost predicate Landed(s0: Snap, s: Snap, r: Relation, rows: Rows, n: nat, i: int) {
    && s0.Ok(r, rows, n) && s.Ok(r, rows, n) && Kept(s0, s, n) && 0 <= i < n
    && (s.Done(i) ==> s.top == s0.top)
    && (!s.Done(i) ==>
          && s.OnStack(i) && s.num[i] == s0.top + 1 && s.index[i] <= s0.top
          && s.Above(r, n, i, s0.top + 1) && s.Settled(r, i, i))
  }

  ghost function Pushed(s: Snap, n: nat, i: int): Snap
    requires s.Sized(n) && 0 <= i < n && s.top < n
  {
    s.(index := s.index[i := s.top + 1], num := s.num[i := s.top + 1],
       vertices := s.vertices[s.top + 1 := i], top := s.top + 1)
  }

  lemma PushStackOk(s: Snap, r: Relation, rows: Rows, n: nat, i: int)
    requires s.Sized(n) && s.StackOk(n) && 0 <= i < n && s.index[i] == 0 && s.top < n
    ensures Pushed(s, n, i).StackOk(n) && Kept(s, Pushed(s, n, i), n)
  {
    PushKept(s, n, i);
    hide Kept;
  }

  lemma PushKept(s: Snap, n: nat, i: int)
    requires s.Sized(n) && s.StackOk(n) && 0 <= i < n && s.index[i] == 0 && s.top < n
    ensures Kept(s, Pushed(s, n, i), n)
  {
  }

  lemma PushRowsOk(s: Snap, r: Relation, rows: Rows, n: nat, i: int)
    requires s.Ok(r, rows, n) && 0 <= i < n && s.index[i] == 0 && s.top < n
    requires rows.f0[i] <= rows.star[i] && Reaches(r, i, i)
    requires Pushed(s, n, i).StackOk(n) && Kept(s, Pushed(s, n, i), n)
    ensures Pushed(s, n, i).RowsOk(rows, n) && Pushed(s, n, i).DoneClosed(r, n) && Pushed(s, n, i).LinksOk(r, n)
  {
    hide Reaches, Snap.LinksOk;
    PushLinks(s, r, rows, n, i);
  }

  lemma PushLinks(s: Snap, r: Relation, rows: Rows, n: nat, i: int)
    requires s.Ok(r, rows, n) && 0 <= i < n && s.index[i] == 0 && s.top < n && Reaches(r, i, i)
    requires Pushed(s, n, i).StackOk(n) && Kept(s, Pushed(s, n, i), n)
    ensures Pushed(s, n, i).LinksOk(r, n)
  {
    hide Reaches, Snap.RowsOk, Snap.DoneClosed;
    var t := Pushed(s, n, i);
    forall v | 0 <= v < n && t.OnStack(v)
      ensures Reaches(r, v, t.Low(v))
    {
      if v != i {
        assert s.OnStack(v) && t.Low(v) == s.Low(v);
      }
    }
  }

  lemma PushVisits(s: Snap, r: Relation, rows: Rows, n: nat, i: int)
    requires s.Ok(r, rows, n) && 0 <= i < n && s.index[i] == 0 && s.top < n
    requires rows.f0[i] <= rows.star[i] && Reaches(r, i, i)
    ensures Visiting(s, Pushed(s, n, i), r, rows, n, i, s.top + 1, 0)
  {
    PushStackOk(s, r, rows, n, i);
    PushRowsOk(s, r, rows, n, i);
  }

  /** The state after `i` has taken its successor `j` into account. */
  ghost function Joined(s: Snap, i: int, j: int): Snap
    requires 0 <= i < |s.f| == |s.index| && 0 <= j < |s.f|
  {
    s.(index := if s.index[i] > s.index[j] then s.index[i := s.index[j]] else s.index,
       f := s.f[i := s.f[i] + s.f[j]])
  }

  /** A successor that was already visited, or that the traversal of has just landed. */
  ghost predicate Arrived(s: Snap, r: Relation, n: nat, i: int, k: int, j: int)
    requires s.Sized(n) && s.StackOk(n) && IsRelation(r, n) && 0 <= i < n && 0 <= j < n && 1 <= k
  {
    && s.index[j] != 0
    && (forall p :: k < p <= s.top ==>
          var v := s.vertices[p];
          && s.index[v] < p
          && (s.index[i] <= s.index[v] || (s.OnStack(j) && s.index[j] <= s.index[v]))
          && (s.f[v] <= s.f[i] || s.f[v] <= s.f[j])
          && (forall e :: 0 <= e < |r[v]| ==> s.EdgeSeen(v, r[v][e])))
  }

  lemma JoinStackOk(s: Snap, n: nat, i: int, j: int)
    requires s.Sized(n) && s.StackOk(n) && 0 <= i < n && s.OnStack(i) && 0 <= j < n && s.index[j] != 0
    ensures Joined(s, i, j).Sized(n) && Joined(s, i, j).StackOk(n)
  {
  }

  lemma JoinRowsOk(s: Snap, rows: Rows, n: nat, i: int, j: int)
    requires s.Sized(n) && s.StackOk(n) && |rows.f0| == n == |rows.star| && s.RowsOk(rows, n)
    requires 0 <= i < n && s.OnStack(i) && 0 <= j < n && s.index[j] != 0
    requires Joined(s, i, j).StackOk(n)
    requires rows.star[j] <= rows.star[i]
    ensures Joined(s, i, j).RowsOk(rows, n)
  {
    assert s.f[j] <= rows.star[j] by {
      assert s.OnStack(j) || s.Done(j);
    }
  }

  lemma JoinLinksOk(s: Snap, r: Relation, n: nat, i: int, j: int)
    requires s.Sized(n) && s.StackOk(n) && s.LinksOk(r, n)
    requires 0 <= i < n && s.OnStack(i) && 0 <= j < n && s.index[j] != 0
    requires Joined(s, i, j).StackOk(n)
    requires s.OnStack(j) ==> Reaches(r, i, s.Low(j))
    ensures Joined(s, i, j).LinksOk(r, n)
  {
    var t := Joined(s, i, j);
    forall v | 0 <= v < n && t.OnStack(v)
      ensures Reaches(r, v, t.Low(v))
    {
      assert t.Low(v) == if v == i && s.index[i] > s.index[j] then s.Low(j) else s.Low(v);
    }
  }

  lemma JoinDoneClosed(s: Snap, r: Relation, n: nat, i: int, j: int)
    requires IsRelation(r, n) && s.Sized(n) && s.DoneClosed(r, n)
    requires 0 <= i < n && s.OnStack(i) && 0 <= j < n && s.index[j] != 0
    ensures Joined(s, i, j).DoneClosed(r, n)
  {
  }

  lemma JoinOk(s: Snap, r: Relation, rows: Rows, n: nat, i: int, j: int)
    requires s.Ok(r, rows, n) && 0 <= i < n && s.OnStack(i) && 0 <= j < n && s.index[j] != 0
    requires Edge(r, i, j) && rows == ClosedRows(r, rows.f0)
    ensures Joined(s, i, j).Ok(r, rows, n)
  {
    JoinStackOk(s, n, i, j);
    StarEdge(r, rows.f0, i, j);
    if s.OnStack(j) {
      ReachesStep(r, i, j, s.Low(j));
    }
    JoinRowsOk(s, rows, n, i, j);
    JoinLinksOk(s, r, n, i, j);
    JoinDoneClosed(s, r, n, i, j);
  }

  lemma JoinKeepsEdge(s: Snap, n: nat, i: int, j: int, v: int, w: int)
    requires s.Sized(n) && s.StackOk(n) && 0 <= i < n && s.OnStack(i) && 0 <= j < n && s.index[j] != 0
    requires 0 <= v < n && 0 <= w < n && s.EdgeSeen(v, w)
    ensures Joined(s, i, j).EdgeSeen(v, w)
  {
  }

  lemma JoinAbove(s: Snap, r: Relation, n: nat, i: int, k: int, j: int)
    requires IsRelation(r, n) && s.Sized(n) && s.StackOk(n)
    requires 0 <= i < n && s.OnStack(i) && s.num[i] == k && 0 <= j < n
    requires Joined(s, i, j).StackOk(n)
    requires Arrived(s, r, n, i, k, j)
    ensures Joined(s, i, j).Above(r, n, i, k)
  {
    var t := Joined(s, i, j);
    forall p | k < p <= t.top
      ensures t.index[t.vertices[p]] < p && t.Settled(r, i, t.vertices[p])
    {
      var v := t.vertices[p];
      assert s.num[v] == p;
      assert t.f[v] <= t.f[i] && t.index[i] <= t.index[v];
      forall d | 0 <= d < |r[v]|
        ensures t.EdgeSeen(v, r[v][d])
      {
        assert s.EdgeSeen(v, r[v][d]);
        JoinKeepsEdge(s, n, i, j, v, r[v][d]);
      }
    }
  }

  lemma JoinKept(s0: Snap, s: Snap, n: nat, i: int, j: int)
    requires s0.Sized(n) && s0.StackOk(n) && s.Sized(n) && s.StackOk(n) && Kept(s0, s, n)
    requires 0 <= i < n && s0.index[i] == 0 && s.index[i] != 0 && 0 <= j < n && s.index[j] != 0
    ensures Kept(s0, Joined(s, i, j), n)
  {
  }

  lemma JoinVisits(s0: Snap, s: Snap, r: Relation, rows: Rows, n: nat, i: int, k: int, e: int)
    requires s0.Ok(r, rows, n) && s.Ok(r, rows, n) && Kept(s0, s, n) && rows == ClosedRows(r, rows.f0)
    requires 0 <= i < n && s0.index[i] == 0 && 0 <= e < |r[i]| && k == s0.top + 1 <= s.top
    requires s.OnStack(i) && s.num[i] == k
    requires s.index[r[i][e]] != 0 && Arrived(s, r, n, i, k, r[i][e])
    requires forall d :: 0 <= d < e ==> s.EdgeSeen(i, r[i][d])
    ensures Visiting(s0, Joined(s, i, r[i][e]), r, rows, n, i, k, e + 1)
  {
    hide Snap.RowsOk, Snap.DoneClosed, Snap.LinksOk, Kept, Snap.Above, Arrived;
    var j := r[i][e];
    var t := Joined(s, i, j);
    JoinOk(s, r, rows, n, i, j);
    JoinAbove(s, r, n, i, k, j);
    JoinKept(s0, s, n, i, j);
    forall d | 0 <= d < e + 1
      ensures t.EdgeSeen(i, r[i][d])
    {
      if d < e {
        JoinKeepsEdge(s, n, i, j, i, r[i][d]);
      } else {
        assert t.index[i] <= s.index[j];
      }
    }
  }

  lemma KeptTransitive(a: Snap, b: Snap, c: Snap, n: nat)
    requires a.Sized(n) && a.StackOk(n) && b.Sized(n) && b.StackOk(n) && c.Sized(n)
    requires Kept(a, b, n) && Kept(b, c, n)
    ensures Kept(a, c, n)
  {
  }

  lemma KeptEdge(a: Snap, b: Snap, rows: Rows, n: nat, v: int, w: int)
    requires a.Sized(n) && a.StackOk(n) && b.Sized(n) && b.StackOk(n) && Kept(a, b, n)
    requires |rows.f0| == n == |rows.star| && a.RowsOk(rows, n) && b.RowsOk(rows, n)
    requires 0 <= v < n && 0 <= w < n && a.OnStack(v) && a.EdgeSeen(v, w)
    ensures b.EdgeSeen(v, w)
  {
  }

  /** Coming back from the traversal of the unvisited successor `r[i][e]`. */
  lemma ReturnArrives(s: Snap, t: Snap, r: Relation, rows: Rows, n: nat, i: int, k: int, j: int)
    requires IsRelation(r, n) && |rows.f0| == n == |rows.star|
    requires s.Sized(n) && s.StackOk(n) && s.RowsOk(rows, n)
    requires t.Sized(n) && t.StackOk(n) && t.RowsOk(rows, n)
    requires 0 <= i < n && 0 <= j < n && 1 <= k <= s.top && s.OnStack(i) && s.num[i] == k && s.Above(r, n, i, k)
    requires Landed(s, t, r, rows, n, j)
    ensures t.index[j] != 0 && Arrived(t, r, n, i, k, j)
  {
    forall p | k < p <= t.top
      ensures
        var v := t.vertices[p];
        && t.index[v] < p
        && (t.index[i] <= t.index[v] || (t.OnStack(j) && t.index[j] <= t.index[v]))
        && (t.f[v] <= t.f[i] || t.f[v] <= t.f[j])
        && (forall e :: 0 <= e < |r[v]| ==> t.EdgeSeen(v, r[v][e]))
    {
      var v := t.vertices[p];
      if p <= s.top {
        assert v == s.vertices[p] && s.Settled(r, i, v);
        forall e | 0 <= e < |r[v]|
          ensures t.EdgeSeen(v, r[v][e])
        {
          KeptEdge(s, t, rows, n, v, r[v][e]);
        }
      } else {
        assert t.OnStack(j);
        assert t.Settled(r, j, v) by {
          assert p == s.top + 1 ==> v == j;
        }
      }
    }
  }

  lemma ReturnKeepsEdges(s: Snap, t: Snap, r: Relation, rows: Rows, n: nat, i: int, e: int)
    requires IsRelation(r, n) && |rows.f0| == n == |rows.star|
    requires s.Sized(n) && s.StackOk(n) && s.RowsOk(rows, n)
    requires t.Sized(n) && t.StackOk(n) && t.RowsOk(rows, n) && Kept(s, t, n)
    requires 0 <= i < n && s.OnStack(i) && 0 <= e <= |r[i]|
    requires forall d :: 0 <= d < e ==> s.EdgeSeen(i, r[i][d])
    ensures forall d :: 0 <= d < e ==> t.EdgeSeen(i, r[i][d])
  {
    forall d | 0 <= d < e
      ensures t.EdgeSeen(i, r[i][d])
    {
      KeptEdge(s, t, rows, n, i, r[i][d]);
    }
  }

  /** One successor of `i` handled: `t` is the state in which it is known to be
      visited, either already or because its traversal has landed. */
  lemma SuccessorVisits(s0: Snap, s: Snap, t: Snap, r: Relation, rows: Rows, n: nat, i: int, k: int, e: int)
    requires Visiting(s0, s, r, rows, n, i, k, e) && e < |r[i]| && rows == ClosedRows(r, rows.f0)
    requires if s.index[r[i][e]] == 0 then Landed(s, t, r, rows, n, r[i][e]) else t == s
    ensures Visiting(s0, Joined(t, i, r[i][e]), r, rows, n, i, k, e + 1)
  {
    var j := r[i][e];
    if s.index[j] == 0 {
      assert t.Ok(r, rows, n);
      ReturnArrives(s, t, r, rows, n, i, k, j);
      ReturnKeepsEdges(s, t, r, rows, n, i, e);
      KeptTransitive(s0, s, t, n);
    } else {
      assert Arrived(s, r, n, i, k, j) by {
        assert s.Above(r, n, i, k);
      }
    }
    JoinVisits(s0, t, r, rows, n, i, k, e);
  }

  lemma NonRootLands(s0: Snap, s: Snap, r: Relation, rows: Rows, n: nat, i: int, k: int)
    requires 0 <= i < |r| && Visiting(s0, s, r, rows, n, i, k, |r[i]|) && s.index[i] != k
    ensures Landed(s0, s, r, rows, n, i)
  {
    hide Snap.RowsOk, Snap.DoneClosed, Snap.LinksOk, Kept, Snap.Above;
  }

  /** The component of root `i` popped down to position `q`. */
  ghost function Popped(s: Snap, n: nat, i: int, q: int): Snap
    requires s.Sized(n) && 0 <= i < n && 0 <= q <= s.top
  {
    Snap(seq(n, v requires 0 <= v < n => if s.OnStack(v) && s.num[v] > q then s.f[i] else s.f[v]),
         seq(n, v requires 0 <= v < n => if s.OnStack(v) && s.num[v] > q then n + 2 else s.index[v]),
         s.num, s.vertices, q)
  }

  lemma PopStackOk(s0: Snap, s: Snap, n: nat, i: int, k: int)
    requires s0.Sized(n) && s0.StackOk(n) && s.Sized(n) && s.StackOk(n) && Kept(s0, s, n)
    requires 0 <= i < n && s0.index[i] == 0 && k == s0.top + 1 <= s.top
    requires s.OnStack(i) && s.num[i] == k
    ensures Popped(s, n, i, k - 1).Sized(n) && Popped(s, n, i, k - 1).StackOk(n)
    ensures Kept(s0, Popped(s, n, i, k - 1), n)
  {
    forall v | 0 <= v < n && s0.OnStack(v)
      ensures s.num[v] < k
    {
      assert s0.num[v] <= s0.top;
    }
  }

  lemma PopRowsOk(s: Snap, r: Relation, rows: Rows, n: nat, i: int, k: int)
    requires s.Ok(r, rows, n) && rows == ClosedRows(r, rows.f0)
    requires 0 <= i < n && 1 <= k <= s.top && s.vertices[k] == i && s.index[i] == k
    requires s.Above(r, n, i, k) && s.Settled(r, i, i)
    ensures Popped(s, n, i, k - 1).RowsOk(rows, n)
  {
    forall v | 0 <= v < n && s.OnStack(v) && s.num[v] >= k
      ensures s.f[i] == rows.star[v]
    {
      RootRow(s, r, rows, n, i, k, s.num[v]);
    }
  }

  lemma PopDoneClosed(s: Snap, r: Relation, n: nat, i: int, k: int)
    requires IsRelation(r, n) && s.Sized(n) && s.StackOk(n) && s.DoneClosed(r, n)
    requires 0 <= i < n && 1 <= k <= s.top && s.vertices[k] == i && s.index[i] == k
    requires s.Above(r, n, i, k) && s.Settled(r, i, i)
    ensures Popped(s, n, i, k - 1).DoneClosed(r, n)
  {
    var t := Popped(s, n, i, k - 1);
    forall v, e | 0 <= v < n && t.Done(v) && 0 <= e < |r[v]|
      ensures t.Done(r[v][e])
    {
      if !s.Done(v) {
        assert InSegment(s, n, k, v) && Edge(r, v, r[v][e]);
        SegmentMember(s, r, n, i, k, v);
      }
    }
  }

  lemma PopLinksOk(s: Snap, r: Relation, n: nat, i: int, k: int)
    requires s.Sized(n) && s.StackOk(n) && s.LinksOk(r, n)
    requires 0 <= i < n && 1 <= k <= s.top
    requires Popped(s, n, i, k - 1).StackOk(n)
    ensures Popped(s, n, i, k - 1).LinksOk(r, n)
  {
    var t := Popped(s, n, i, k - 1);
    forall v | 0 <= v < n && t.OnStack(v)
      ensures Reaches(r, v, t.Low(v))
    {
      assert s.OnStack(v) && t.Low(v) == s.Low(v);
    }
  }

  lemma RootLands(s0: Snap, s: Snap, r: Relation, rows: Rows, n: nat, i: int, k: int)
    requires 0 <= i < |r| && Visiting(s0, s, r, rows, n, i, k, |r[i]|) && s.index[i] == k
    requires rows == ClosedRows(r, rows.f0)
    ensures Landed(s0, Popped(s, n, i, k - 1), r, rows, n, i)
  {
    assert s.Settled(r, i, i) && s.vertices[k] == i;
    hide Snap.RowsOk, Snap.DoneClosed, Snap.LinksOk, Kept, Snap.Above;
    PopStackOk(s0, s, n, i, k);
    PopRowsOk(s, r, rows, n, i, k);
    PopDoneClosed(s, r, n, i, k);
    PopLinksOk(s, r, n, i, k);
  }

  lemma {:induction false} PopStep(s: Snap, a: Snap, b: Snap, n: nat, i: int, q: int)
    requires s.Sized(n) && s.StackOk(n) && 0 <= i < n && s.OnStack(i) && s.num[i] <= q && 1 <= q <= s.top
    requires a == Popped(s, n, i, q)
    requires b == a.(index := a.index[s.vertices[q] := n + 2], f := a.f[s.vertices[q] := a.f[i]], top := q - 1)
    ensures b == Popped(s, n, i, q - 1)
  {
    var c := Popped(s, n, i, q - 1);
    assert s.num[s.vertices[q]] == q;
    forall v | 0 <= v < n
      ensures b.f[v] == c.f[v] && b.index[v] == c.index[v]
    {
      assert s.OnStack(v) ==> s.vertices[s.num[v]] == v;
    }
    assert b.f == c.f && b.index == c.index;
  }

  lemma NothingPopped(s: Snap, n: nat, i: int)
    requires s.Sized(n) && s.StackOk(n) && 0 <= i < n
    ensures Popped(s, n, i, s.top) == s
  {
    var c := Popped(s, n, i, s.top);
    assert c.f == s.f && c.index == s.index;
  }

  /** The vertex on top, when `q` is the top, and what lowering has left of it. */
  lemma StackTop(s: Snap, n: nat, i: int, q: int)
    requires s.Sized(n) && s.StackOk(n) && 0 <= i < n && s.OnStack(i) && s.num[i] <= q <= s.top
    ensures 0 <= s.vertices[q] < n && (s.vertices[q] == i <==> q == s.num[i])
    ensures var a := Popped(s, n, i, q); a.vertices == s.vertices && a.f[i] == s.f[i] && a.index[s.vertices[q]] != 0
  {
    assert s.num[s.vertices[q]] == q;
  }

  // ----- The traversal itself -----

  /** The arrays without the places of the vertices on the stack. */
  ghost function Plain(s: Snap): T.Tables {
    T.Tables(s.f, s.index, s.vertices, s.top)
  }

  /** Taking the vertices down to `i` off the stack lowers its component. */
  lemma {:induction false} PoppedIs(s: Snap, r: Relation, n: nat, i: int, q: int)
    requires IsRelation(r, n) && s.Sized(n) && s.StackOk(n) && 0 <= i < n && s.OnStack(i) && s.num[i] <= q <= s.top
    requires T.Safe(r, Plain(Popped(s, n, i, q)))
    ensures T.DropAll(r, n + 2, Plain(Popped(s, n, i, q)), i) == Plain(Popped(s, n, i, s.num[i] - 1))
    decreases q
  {
    hide T.Safe, T.Unvisited, Popped;
    var a := Popped(s, n, i, q);
    StackTop(s, n, i, q);
    PoppedSize(s, n, i, q);
    T.DropSafe(r, Plain(a), n + 2, i);
    var j := s.vertices[q];
    var b := a.(index := a.index[j := n + 2], f := a.f[j := a.f[i]], top := q - 1);
    PopStep(s, a, b, n, i, q);
    assert a.f[i := a.f[i]] == a.f;
    assert T.Dropped(Plain(a), n + 2, i) == Plain(b);
    if j != i {
      PoppedIs(s, r, n, i, q - 1);
    }
  }

  lemma PoppedSize(s: Snap, n: nat, i: int, q: int)
    requires s.Sized(n) && 0 <= i < n && 0 <= q <= s.top
    ensures var a := Popped(s, n, i, q);
            |a.f| == |a.index| == |a.num| == n && a.top == q && a.vertices == s.vertices && |s.vertices| == n + 1
  {
  }

  lemma {:induction false} VisitLands(s: Snap, r: Relation, rows: Rows, n: nat, i: int) returns (t: Snap)
    requires s.Ok(r, rows, n) && rows == ClosedRows(r, rows.f0) && 0 <= i < n && s.index[i] == 0
    requires T.Safe(r, Plain(s))
    ensures Landed(s, t, r, rows, n, i) && Plain(t) == T.Visited(r, n + 2, Plain(s), i)
    decreases T.Unvisited(Plain(s)), 0
  {
    hide Snap.RowsOk, Snap.DoneClosed, Snap.LinksOk, Kept, Snap.Above, T.Unvisited, T.Safe;
    RoomForUnvisited(s, n, i);
    StarOwnRow(r, rows.f0, i);
    ReachesSelf(r, i);
    PushVisits(s, r, rows, n, i);
    T.PushSafe(r, Plain(s), i);
    t := ContinueLands(s, Pushed(s, n, i), r, rows, n, i, s.top + 1, 0);
  }

  lemma {:induction false} ContinueLands(s0: Snap, s: Snap, r: Relation, rows: Rows, n: nat, i: int, k: int, e: int)
    returns (t: Snap)
    requires Visiting(s0, s, r, rows, n, i, k, e) && rows == ClosedRows(r, rows.f0) && T.Safe(r, Plain(s))
    ensures Landed(s0, t, r, rows, n, i) && Plain(t) == T.Continued(r, n + 2, Plain(s), i, k, e)
    decreases T.Unvisited(Plain(s)), |r[i]| - e + 1
  {
    hide Snap.RowsOk, Snap.DoneClosed, Snap.LinksOk, Kept, Snap.Above, T.Unvisited, T.Safe, T.DropAll;
    if e == |r[i]| {
      if s.index[i] == k {
        RootLands(s0, s, r, rows, n, i, k);
        NothingPopped(s, n, i);
        PoppedIs(s, r, n, i, s.top);
        t := Popped(s, n, i, k - 1);
      } else {
        NonRootLands(s0, s, r, rows, n, i, k);
        t := s;
      }
    } else {
      var j := r[i][e];
      var u := s;
      if s.index[j] == 0 {
        u := VisitLands(s, r, rows, n, j);
      }
      SuccessorVisits(s0, s, u, r, rows, n, i, k, e);
      T.StillVisited(Plain(s), Plain(u), i);
      T.JoinSafe(r, Plain(u), i, j);
      t := ContinueLands(s0, Joined(u, i, j), r, rows, n, i, k, e + 1);
    }
  }

  /** Vertices below `i` have been visited, or have no successors. */
  ghost predicate SeenBelow(s: Snap, r: Relation, n: nat, i: int)
    requires s.Sized(n) && |r| == n
  {
    s.top == 0 && forall v :: 0 <= v < n && v < i ==> s.index[v] != 0 || r[v] == []
  }

  lemma {:induction false} FinishLands(s: Snap, r: Relation, rows: Rows, n: nat, i: int) returns (t: Snap)
    requires s.Ok(r, rows, n) && rows == ClosedRows(r, rows.f0) && 0 <= i <= n && SeenBelow(s, r, n, i)
    requires T.Safe(r, Plain(s))
    ensures t.Ok(r, rows, n) && SeenBelow(t, r, n, n) && Plain(t) == T.Finished(r, n + 2, Plain(s), i)
    decreases n - i
  {
    hide T.Unvisited, T.Safe, T.Visited, Snap.RowsOk, Snap.DoneClosed, Snap.LinksOk, Snap.Above;
    if i == n {
      t := s;
    } else {
      var u := s;
      if s.index[i] == 0 && r[i] != [] {
        u := VisitLands(s, r, rows, n, i);
      }
      t := FinishLands(u, r, rows, n, i + 1);
    }
  }

  /** When the mark for finished vertices is above all indices, the rows are the closures. */
  lemma RowsAreStar(r: Relation, f0: seq<set<int>>, n: nat)
    requires IsRelation(r, n) && |f0| == n
    ensures forall v :: 0 <= v < n ==> T.Rows(r, n + 2, f0)[v] == Star(r, f0, v)
  {
    var rows := ClosedRows(r, f0);
    var s := Snap(f0, seq(n, _ => 0), seq(n, _ => 0), seq(n + 1, _ => 0), 0);
    T.StartSafe(r, f0);
    assert Plain(s) == T.Start(f0);
    assert s.Ok(r, rows, n);
    var t := FinishLands(s, r, rows, n, 0);
    forall v | 0 <= v < n
      ensures t.f[v] == Star(r, f0, v)
    {
      if t.index[v] == 0 {
        IsolatedRow(r, f0, v);
      } else {
        assert t.Done(v);
      }
    }
  }

  /** Replaces every row of `f` by the union of the rows of all vertices that its vertex reaches;
      members of one cycle end up with equal rows. The mark for finished vertices is two more than
      the number of vertices; when a short cannot hold it, rows may be too small. */
  method Digraph(relation: Relation, f: array<set<int>>)
    requires IsRelation(relation, f.Length) && f.Length <= G.MAXSHORT
    modifies f
    ensures T.Short(f.Length + 2) != 0 && f[..] == T.Rows(relation, T.Short(f.Length + 2), old(f[..]))
    ensures f.Length + 2 <= G.MAXSHORT ==> forall v :: 0 <= v < f.Length ==> f[v] == Star(relation, old(f[..]), v)
  {
    hide T.Safe, T.Visited;
    var infinity := T.Short(f.Length + 2);
    var traversal := new T.Traversal(relation, f, infinity);
    ghost var f0 := f[..];
    var i := 0;
    while i < f.Length
      invariant 0 <= i <= f.Length && traversal.Valid() && traversal.f == f && traversal.relation == relation
      invariant traversal.infinity == infinity
      invariant fresh(traversal) && fresh(traversal.index) && fresh(traversal.vertices)
      invariant T.Finished(relation, infinity, traversal.State(), i) == T.Finished(relation, infinity, T.Start(f0), 0)
    {
      if traversal.index[i] == 0 && relation[i] != [] {
        traversal.Traverse(i);
      }
      i := i + 1;
    }
    if f.Length + 2 <= G.MAXSHORT {
      RowsAreStar(relation, f0, f.Length);
    }
  }

  lemma IsolatedRow(r: Relation, f0: seq<set<int>>, v: int)
    requires |f0| == |r| && 0 <= v < |r| && r[v] == []
    ensures Star(r, f0, v) == f0[v]
  {
    StarOwnRow(r, f0, v);
    forall t | t in Star(r, f0, v)
      ensures t in f0[v]
    {
      var w :| 0 <= w < |r| && t in f0[w] && Reaches(r, v, w);
      var p :| PathFromTo(r, p, v, w);
      assert |p| > 1 ==> Edge(r, p[0], p[1]);
    }
  }

  // ----- Too many vertices for a short -----

  /** Vertex 0 leads to 1 and then to 2, and 1 leads back to 0. */
  ghost function WrapRelation(n: nat): (r: Relation)
    requires n >= 3
    ensures |r| == n && r[0] == [1, 2] && r[1] == [0] && forall v :: 2 <= v < n ==> r[v] == []
  {
    [[1, 2], [0]] + seq(n - 2, _ => [])
  }

  /** Only vertex 2 has a token. */
  ghost function WrapRows(n: nat): (f: seq<set<int>>)
    requires n >= 3
    ensures |f| == n && f[2] == {7} && forall v :: 0 <= v < n && v != 2 ==> f[v] == {}
  {
    [{}, {}, {7}] + seq(n - 3, _ => {})
  }

  /** The state of the first three vertices, and the stack. */
  ghost predicate At(n: nat, s: T.Tables, top: int, index: seq<int>, rows: seq<set<int>>, stack: seq<int>)
    requires n >= 3
  {
    && T.Safe(WrapRelation(n), s) && |s.f| == |s.index| == n && |s.vertices| == n + 1 && |index| == |rows| == 3
    && s.top == top && (forall v :: 0 <= v < 3 ==> s.index[v] == index[v] && s.f[v] == rows[v])
    && |stack| <= n && forall p :: 0 <= p < |stack| ==> s.vertices[p + 1] == stack[p]
  }

  /** With 32766 or 32767 vertices the mark for finished vertices becomes negative. Vertex 0 then
      takes the index of the finished vertex 2 and no longer counts as the root of its component,
      so that vertex 1 does not get the token that it reaches. */
  lemma WrappedRow(n: nat)
    requires n >= 3 && n <= G.MAXSHORT < n + 2
    ensures IsRelation(WrapRelation(n), n) && T.Short(n + 2) < 0
    ensures T.Rows(WrapRelation(n), T.Short(n + 2), WrapRows(n))[1] == {}
    ensures 7 in Star(WrapRelation(n), WrapRows(n), 1)
  {
    var r, inf, f := WrapRelation(n), T.Short(n + 2), WrapRows(n);
    T.StartSafe(r, f);
    var s := T.Start(f);
    WrapVisit(n, inf, s);
    var t := T.Visited(r, inf, s, 0);
    WrapRest(n, inf, t, 1);
    var p := [1, 0, 2];
    assert PathFromTo(r, p, 1, 2);
  }

  lemma WrapVisit(n: nat, inf: int, s0: T.Tables)
    requires n >= 3 && inf < 0 && At(n, s0, 0, [0, 0, 0], [{}, {}, {7}], [])
    ensures At(n, T.Visited(WrapRelation(n), inf, s0, 0), 2, [inf, 1, inf], [{7}, {}, {7}], [0, 1])
  {
    var r := WrapRelation(n);
    T.PushSafe(r, s0, 0);
    var s1 := T.Pushed(s0, 0);
    assert At(n, s1, 1, [1, 0, 0], [{}, {}, {7}], [0]);
    WrapBack(n, inf, s1);
    var t1 := T.Visited(r, inf, s1, 1);
    T.JoinSafe(r, t1, 0, 1);
    var s2 := T.Joined(t1, 0, 1);
    assert At(n, s2, 2, [1, 1, 0], [{}, {}, {7}], [0, 1]);
    WrapLeaf(n, inf, s2);
    var t2 := T.Visited(r, inf, s2, 2);
    T.JoinSafe(r, t2, 0, 2);
    var s3 := T.Joined(t2, 0, 2);
    assert At(n, s3, 2, [inf, 1, inf], [{7}, {}, {7}], [0, 1]);
    hide T.Safe, T.Unvisited, T.Visited, T.Pushed, T.Joined, At;
    assert T.Continued(r, inf, s3, 0, 1, 2) == s3;
    assert T.Continued(r, inf, s2, 0, 1, 1) == s3;
    assert T.Continued(r, inf, s1, 0, 1, 0) == s3;
  }

  /** Vertex 1 takes the index of vertex 0 and stays on the stack. */
  lemma WrapBack(n: nat, inf: int, s: T.Tables)
    requires n >= 3 && inf < 0 && At(n, s, 1, [1, 0, 0], [{}, {}, {7}], [0])
    ensures At(n, T.Visited(WrapRelation(n), inf, s, 1), 2, [1, 1, 0], [{}, {}, {7}], [0, 1])
  {
    var r := WrapRelation(n);
    T.PushSafe(r, s, 1);
    var s1 := T.Pushed(s, 1);
    T.JoinSafe(r, s1, 1, 0);
    var s2 := T.Joined(s1, 1, 0);
    assert At(n, s2, 2, [1, 1, 0], [{}, {}, {7}], [0, 1]);
    assert T.Continued(r, inf, s2, 1, 2, 1) == s2;
  }

  /** Vertex 2 is finished at once. */
  lemma WrapLeaf(n: nat, inf: int, s: T.Tables)
    requires n >= 3 && inf < 0 && At(n, s, 2, [1, 1, 0], [{}, {}, {7}], [0, 1])
    ensures At(n, T.Visited(WrapRelation(n), inf, s, 2), 2, [1, 1, inf], [{}, {}, {7}], [0, 1])
  {
    var r := WrapRelation(n);
    T.PushSafe(r, s, 2);
    var s1 := T.Pushed(s, 2);
    T.DropSafe(r, s1, inf, 2);
    assert T.DropAll(r, inf, s1, 2) == T.Dropped(s1, inf, 2);
  }

  lemma {:induction false} WrapRest(n: nat, inf: int, s: T.Tables, i: int)
    requires n >= 3 && inf < 0 && 1 <= i <= n && T.Safe(WrapRelation(n), s) && s.index[1] != 0
    ensures T.Finished(WrapRelation(n), inf, s, i) == s
    decreases n - i
  {
    if i < n {
      WrapRest(n, inf, s, i + 1);
    }
  }
}
