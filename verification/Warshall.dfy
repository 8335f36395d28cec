/** Warshall's algorithm in place (src/mosmlyac/warshall.c).  A bit row is a set. */
module Warshall {
  import opened Relations

  /** Some path of at least one step leads from `i` to `j`, and all its inner vertices
      are below `k`. */
  ghost predicate Via(r: Relation, i: int, j: int, k: int) {
    exists p :: ViaPath(r, p, i, j, k)
  }

  ghost predicate ViaPath(r: Relation, p: seq<int>, i: int, j: int, k: int) {
    PathFromTo(r, p, i, j) && |p| >= 2 && forall t :: 0 < t < |p| - 1 ==> p[t] < k
  }

  lemma PathSlice(r: Relation, p: seq<int>, a: int, b: int)
    requires IsPath(r, p) && 0 <= a < b <= |p|
    ensures PathFromTo(r, p[a..b], p[a], p[b - 1])
  {
    forall t | 0 <= t < |p[a..b]| - 1
      ensures Edge(r, p[a..b][t], p[a..b][t + 1])
    {
      assert Edge(r, p[a + t], p[a + t + 1]);
    }
  }

  /** A path over vertices up to `k` that passes `k` splits at its first and last `k`. */
  lemma SplitVia(r: Relation, i: int, j: int, k: int)
    requires Via(r, i, j, k + 1) && !Via(r, i, j, k)
    ensures Via(r, i, k, k) && Via(r, k, j, k)
  {
    var p :| ViaPath(r, p, i, j, k + 1);
    var a := FirstAt(r, p, i, j, k);
    var b := LastAt(r, p, i, j, k);
    PathSlice(r, p, 0, a + 1);
    PathSlice(r, p, b, |p|);
    assert ViaPath(r, p[0..a + 1], i, k, k);
    assert ViaPath(r, p[b..|p|], k, j, k);
  }

  lemma FirstAt(r: Relation, p: seq<int>, i: int, j: int, k: int) returns (a: int)
    requires ViaPath(r, p, i, j, k + 1) && !Via(r, i, j, k)
    ensures 0 < a < |p| - 1 && p[a] == k && forall t :: 0 < t < a ==> p[t] < k
  {
    a := 1;
    while a < |p| - 1 && p[a] != k
      invariant 1 <= a <= |p| - 1 && forall t :: 0 < t < a ==> p[t] < k
    {
      a := a + 1;
    }
    assert !ViaPath(r, p, i, j, k);
  }

  lemma LastAt(r: Relation, p: seq<int>, i: int, j: int, k: int) returns (b: int)
    requires ViaPath(r, p, i, j, k + 1) && !Via(r, i, j, k)
    ensures 0 < b < |p| - 1 && p[b] == k && forall t :: b < t < |p| - 1 ==> p[t] < k
  {
    b := |p| - 2;
    while b > 0 && p[b] != k
      invariant 0 <= b <= |p| - 2 && forall t :: b < t < |p| - 1 ==> p[t] < k
    {
      b := b - 1;
    }
    assert !ViaPath(r, p, i, j, k);
  }

  lemma JoinVia(r: Relation, i: int, j: int, k: int)
    requires Via(r, i, k, k) && Via(r, k, j, k)
    ensures Via(r, i, j, k + 1)
  {
    var p :| ViaPath(r, p, i, k, k);
    var q :| ViaPath(r, q, k, j, k);
    var s := p + q[1..];
    forall t | 0 <= t < |s| - 1
      ensures Edge(r, s[t], s[t + 1])
    {
      if t < |p| - 1 {
        assert Edge(r, p[t], p[t + 1]);
      } else {
        assert Edge(r, q[t - |p| + 1], q[t - |p| + 2]);
      }
    }
    assert ViaPath(r, s, i, j, k + 1);
  }

  lemma ViaMore(r: Relation, i: int, j: int, k: int)
    requires Via(r, i, j, k)
    ensures Via(r, i, j, k + 1)
  {
    var p :| ViaPath(r, p, i, j, k);
    assert ViaPath(r, p, i, j, k + 1);
  }

  /** One more inner vertex. */
  lemma ViaStep(r: Relation, i: int, j: int, k: int)
    ensures Via(r, i, j, k + 1) <==> Via(r, i, j, k) || (Via(r, i, k, k) && Via(r, k, j, k))
  {
    if Via(r, i, j, k) {
      ViaMore(r, i, j, k);
    } else if Via(r, i, j, k + 1) {
      SplitVia(r, i, j, k);
    } else if Via(r, i, k, k) && Via(r, k, j, k) {
      JoinVia(r, i, j, k);
    }
  }

  lemma ViaNone(r: Relation, i: int, j: int)
    requires IsRelation(r, |r|)
    ensures Via(r, i, j, 0) <==> Edge(r, i, j)
  {
    if Edge(r, i, j) {
      assert ViaPath(r, [i, j], i, j, 0);
    }
    if Via(r, i, j, 0) {
      var p :| ViaPath(r, p, i, j, 0);
      assert p[1] >= 0;
      assert |p| == 2 && Edge(r, p[0], p[1]);
    }
  }

  /** Row `i` holds what `i` reaches over inner vertices below `k`. */
  ghost predicate RowsVia(r: Relation, rows: seq<set<int>>, k: int) {
    |rows| == |r| && forall i, j {:trigger j in rows[i]} :: 0 <= i < |rows| ==> (j in rows[i] <==> Via(r, i, j, k))
  }

  /** The rows before `j` have been brought up to inner vertex `k`. */
  ghost predicate RowsPartly(r: Relation, rows: seq<set<int>>, k: int, j: int) {
    |rows| == |r| && forall i, x {:trigger x in rows[i]} :: 0 <= i < |rows| ==>
      (x in rows[i] <==> Via(r, i, x, if i < j then k + 1 else k))
  }

  lemma RowStep(r: Relation, rows: seq<set<int>>, k: int, j: int)
    requires RowsPartly(r, rows, k, j) && 0 <= j < |rows| && 0 <= k < |rows|
    ensures RowsPartly(r, rows[j := if k in rows[j] then rows[j] + rows[k] else rows[j]], k, j + 1)
  {
    var row := if k in rows[j] then rows[j] + rows[k] else rows[j];
    forall x
      ensures x in row <==> Via(r, j, x, k + 1)
    {
      ViaStep(r, j, x, k);
      PivotRow(r, x, k);
    }
  }

  /** The pivot's own row does not change. */
  lemma PivotRow(r: Relation, x: int, k: int)
    ensures Via(r, k, x, k + 1) <==> Via(r, k, x, k)
  {
    ViaStep(r, k, x, k);
  }

  method TransitiveClosure(rows: array<set<int>>, ghost r: Relation)
    requires IsRelation(r, rows.Length)
    requires forall i, j :: 0 <= i < rows.Length ==> (j in rows[i] <==> Edge(r, i, j))
    modifies rows
    ensures RowsVia(r, rows[..], rows.Length)
  {
    hide Via, Edge, IsRelation;
    var n := rows.Length;
    RowsStart(r, rows[..]);
    var i := 0;
    while i < n
      invariant 0 <= i <= n && RowsVia(r, rows[..], i)
    {
      var j := 0;
      while j < n
        invariant 0 <= j <= n && RowsPartly(r, rows[..], i, j)
      {
        ghost var before := rows[..];
        if i in rows[j] {
          rows[j] := rows[j] + rows[i];
        }
        RowStep(r, before, i, j);
        assert rows[..] == before[j := if i in before[j] then before[j] + before[i] else before[j]];
        j := j + 1;
      }
      i := i + 1;
    }
  }

  lemma RowsStart(r: Relation, rows: seq<set<int>>)
    requires IsRelation(r, |rows|) && forall i, j :: 0 <= i < |rows| ==> (j in rows[i] <==> Edge(r, i, j))
    ensures RowsVia(r, rows, 0)
  {
    forall i, j {:trigger j in rows[i]} | 0 <= i < |rows|
      ensures j in rows[i] <==> Via(r, i, j, 0)
    {
      ViaNone(r, i, j);
    }
  }

  /** The rows become exactly the reachable vertices. */
  method ReflexiveTransitiveClosure(rows: array<set<int>>, ghost r: Relation)
    requires IsRelation(r, rows.Length)
    requires forall i, j :: 0 <= i < rows.Length ==> (j in rows[i] <==> Edge(r, i, j))
    modifies rows
    ensures forall i, j :: 0 <= i < rows.Length ==> (j in rows[i] <==> Reaches(r, i, j))
  {
    TransitiveClosure(rows, r);
    ghost var closed := rows[..];
    var i := 0;
    while i < rows.Length
      invariant 0 <= i <= rows.Length
      invariant forall k :: 0 <= k < rows.Length ==> rows[k] == if k < i then closed[k] + {k} else closed[k]
    {
      rows[i] := rows[i] + {i};
      i := i + 1;
    }
    forall i, j | 0 <= i < rows.Length
      ensures j in rows[i] <==> Reaches(r, i, j)
    {
      ViaAll(r, i, j);
    }
  }

  lemma ViaAll(r: Relation, i: int, j: int)
    requires 0 <= i < |r|
    ensures Via(r, i, j, |r|) || i == j <==> Reaches(r, i, j)
  {
    if Via(r, i, j, |r|) {
      var p :| ViaPath(r, p, i, j, |r|);
    } else if i == j {
      ReachesSelf(r, i);
    } else if Reaches(r, i, j) {
      var p :| PathFromTo(r, p, i, j);
      assert ViaPath(r, p, i, j, |r|);
    }
  }
}
