/** Relations over the vertices 0 .. n-1 as adjacency lists (an absent list in
    src/mosmlyac/lalr.c is an empty one here), and the least rows closed under a
    relation: every vertex gets the tokens of all vertices reachable from it. */
module Relations {
  type Relation = seq<seq<int>>

  ghost predicate IsRelation(r: Relation, n: nat) {
    |r| == n && forall v, e :: 0 <= v < n && 0 <= e < |r[v]| ==> 0 <= r[v][e] < n
  }

  /** `w` is a successor of `v`. */
  ghost predicate Edge(r: Relation, v: int, w: int) {
    0 <= v < |r| && w in r[v]
  }

  ghost predicate IsPath(r: Relation, p: seq<int>) {
    && p != []
    && (forall k :: 0 <= k < |p| ==> 0 <= p[k] < |r|)
    && (forall k :: 0 <= k < |p| - 1 ==> Edge(r, p[k], p[k + 1]))
  }

  ghost predicate PathFromTo(r: Relation, p: seq<int>, v: int, w: int) {
    IsPath(r, p) && p[0] == v && p[|p| - 1] == w
  }

  ghost predicate Reaches(r: Relation, v: int, w: int) {
    exists p :: PathFromTo(r, p, v, w)
  }

  /** The union of the rows `f0[w]` over all `w` that `v` reaches. */
  ghost function Star(r: Relation, f0: seq<set<int>>, v: int): set<int>
    requires |f0| == |r|
  {
    set w, t | 0 <= w < |r| && t in f0[w] && Reaches(r, v, w) :: t
  }

  lemma ReachesSelf(r: Relation, v: int)
    requires 0 <= v < |r|
    ensures Reaches(r, v, v)
  {
    assert PathFromTo(r, [v], v, v);
  }

  lemma ReachesStep(r: Relation, v: int, w: int, x: int)
    requires IsRelation(r, |r|) && Edge(r, v, w) && Reaches(r, w, x)
    ensures Reaches(r, v, x)
  {
    var p :| PathFromTo(r, p, w, x);
    assert PathFromTo(r, [v] + p, v, x);
  }

  lemma ReachesTransitive(r: Relation, v: int, w: int, x: int)
    requires Reaches(r, v, w) && Reaches(r, w, x)
    ensures Reaches(r, v, x)
  {
    var p :| PathFromTo(r, p, v, w);
    var q :| PathFromTo(r, q, w, x);
    var pq := p + q[1..];
    forall k | 0 <= k < |pq| - 1
      ensures Edge(r, pq[k], pq[k + 1])
    {
      if k >= |p| - 1 {
        assert pq[k] == q[k - (|p| - 1)] && pq[k + 1] == q[k + 1 - (|p| - 1)];
      }
    }
    assert PathFromTo(r, pq, v, x);
  }

  /** Reaching vertices hand their whole closure down. */
  lemma StarMonotone(r: Relation, f0: seq<set<int>>, v: int, w: int)
    requires |f0| == |r| && Reaches(r, v, w)
    ensures Star(r, f0, w) <= Star(r, f0, v)
  {
    forall t | t in Star(r, f0, w)
      ensures t in Star(r, f0, v)
    {
      var x :| 0 <= x < |r| && t in f0[x] && Reaches(r, w, x);
      ReachesTransitive(r, v, w, x);
    }
  }

  lemma StarOwnRow(r: Relation, f0: seq<set<int>>, v: int)
    requires |f0| == |r| && 0 <= v < |r|
    ensures f0[v] <= Star(r, f0, v)
  {
    ReachesSelf(r, v);
    assert forall t :: t in f0[v] ==> t in Star(r, f0, v);
  }

  lemma StarEdge(r: Relation, f0: seq<set<int>>, v: int, w: int)
    requires IsRelation(r, |r|) && |f0| == |r| && Edge(r, v, w)
    ensures Star(r, f0, w) <= Star(r, f0, v)
  {
    ReachesSelf(r, w);
    ReachesStep(r, v, w, w);
    StarMonotone(r, f0, v, w);
  }

  /** Anything that contains the row of every member of a successor-closed set
      contains the closure of each member: `Star` is the least solution of the
      equations `x[v] = f0[v] + union of x[w] over the successors w`. */
  lemma StarLeast(r: Relation, f0: seq<set<int>>, closed: set<int>, x: map<int, set<int>>, v: int)
    requires IsRelation(r, |r|) && |f0| == |r|
    requires v in closed && closed <= x.Keys
    requires forall u, w :: u in closed && Edge(r, u, w) ==> w in closed && x[w] <= x[u]
    requires forall u :: u in closed && 0 <= u < |r| ==> f0[u] <= x[u]
    ensures Star(r, f0, v) <= x[v]
  {
    forall t | t in Star(r, f0, v)
      ensures t in x[v]
    {
      var w :| 0 <= w < |r| && t in f0[w] && Reaches(r, v, w);
      var p :| PathFromTo(r, p, v, w);
      StarLeastAlong(r, f0, closed, x, p, t);
    }
  }

  lemma {:induction false} StarLeastAlong(r: Relation, f0: seq<set<int>>, closed: set<int>, x: map<int, set<int>>,
                                          p: seq<int>, t: int)
    requires IsPath(r, p) && |f0| == |r| && t in f0[p[|p| - 1]]
    requires p[0] in closed && closed <= x.Keys
    requires forall u, w :: u in closed && Edge(r, u, w) ==> w in closed && x[w] <= x[u]
    requires forall u :: u in closed && 0 <= u < |r| ==> f0[u] <= x[u]
    ensures t in x[p[0]]
    decreases |p|
  {
    if |p| > 1 {
      assert Edge(r, p[0], p[1]);
      var q := p[1..];
      forall k | 0 <= k < |q| - 1
        ensures Edge(r, q[k], q[k + 1])
      {
        assert Edge(r, p[k + 1], p[k + 2]);
      }
      StarLeastAlong(r, f0, closed, x, q, t);
    }
  }
}
