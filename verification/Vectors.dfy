/** The sparse vectors that are packed into one table (src/mosmlyac/output.c), and when a
    table of limited size is sure to have room for them. */
module Vectors {
  const MAXTABLE := 32500

  /** Entry `k` of a vector maps the code `from[k]` to `to[k]`. */
  datatype Vector = Vector(from: seq<int>, to: seq<int>) {
    ghost predicate Ok() {
      && |from| == |to|
      && (forall k :: 0 <= k < |from| ==> from[k] >= 0)
      && (forall k, l :: 0 <= k < l < |from| ==> from[k] != from[l])
    }

    ghost predicate Maps(c: int, x: int) {
      exists k :: 0 <= k < |from| == |to| && from[k] == c && to[k] == x
    }
  }

  function Max(s: seq<int>): (m: int)
    requires s != []
    ensures m in s && forall x :: x in s ==> x <= m
  {
    assert s == [s[0]] + s[1..];
    if |s| == 1 then s[0] else if s[0] >= Max(s[1..]) then s[0] else Max(s[1..])
  }

  function Min(s: seq<int>): (m: int)
    requires s != []
    ensures m in s && forall x :: x in s ==> m <= x
  {
    assert s == [s[0]] + s[1..];
    if |s| == 1 then s[0] else if s[0] <= Min(s[1..]) then s[0] else Min(s[1..])
  }

  /** How far the codes of a vector spread. */
  ghost function Width(v: Vector): int {
    if v.from == [] then 0 else Max(v.from) - Min(v.from) + 1
  }

  // ----- Room in the table -----

  /** The number of entries of all vectors. */
  ghost function Total(vs: seq<Vector>): nat {
    if vs == [] then 0 else Total(vs[..|vs| - 1]) + |vs[|vs| - 1].from|
  }

  /** The entries of the vectors are so many that they might keep one of them out of a
      table of the largest size. */
  ghost predicate Crowded(vs: seq<Vector>) {
    exists v :: 0 <= v < |vs| && Total(vs) * |vs[v].from| + |vs| + Width(vs[v]) >= MAXTABLE
  }

  /** The places of the entries, with each vector at its displacement. */
  ghost function Places(vs: seq<Vector>, base: seq<int>, n: nat): (s: set<int>)
    requires n <= |vs| == |base|
    ensures forall v, k :: 0 <= v < n && 0 <= k < |vs[v].from| ==> base[v] + vs[v].from[k] in s
  {
    if n == 0 then {} else Places(vs, base, n - 1) + Shifted(vs[n - 1].from, base[n - 1])
  }

  ghost function Shifted(from: seq<int>, b: int): set<int> {
    set k | 0 <= k < |from| :: b + from[k]
  }

  lemma {:induction false} ShiftedSize(from: seq<int>, b: int)
    ensures |Shifted(from, b)| <= |from|
  {
    if from != [] {
      var n := |from| - 1;
      ShiftedSize(from[..n], b);
      assert Shifted(from, b) == Shifted(from[..n], b) + {b + from[n]};
    }
  }

  lemma {:induction false} PlacesSize(vs: seq<Vector>, base: seq<int>, n: nat)
    requires n <= |vs| == |base|
    ensures |Places(vs, base, n)| <= Total(vs[..n])
  {
    if n > 0 {
      PlacesSize(vs, base, n - 1);
      ShiftedSize(vs[n - 1].from, base[n - 1]);
      assert vs[..n][..n - 1] == vs[..n - 1];
    }
  }

  lemma {:induction false} MembersSize(s: seq<int>)
    ensures |set x | x in s| <= |s|
  {
    if s == [] {
      assert (set x | x in s) == {};
    } else {
      var n := |s| - 1;
      MembersSize(s[..n]);
      assert s == s[..n] + [s[n]];
      assert (set x | x in s) == (set x | x in s[..n]) + {s[n]};
    }
  }

  ghost function Minus(places: set<int>, x: int): set<int> {
    set p | p in places :: p - x
  }

  /** The displacements at which some entry of the vector would fall on one of the places. */
  ghost function Clashes(places: set<int>, from: seq<int>): set<int> {
    if from == [] then {} else Clashes(places, from[..|from| - 1]) + Minus(places, from[|from| - 1])
  }

  lemma {:induction false} MinusSize(places: set<int>, x: int)
    ensures |Minus(places, x)| <= |places|
  {
    if p :| p in places {
      var rest := places - {p};
      MinusSize(rest, x);
      assert places == rest + {p};
      assert Minus(places, x) == Minus(rest, x) + {p - x};
    } else {
      assert Minus(places, x) == {};
    }
  }

  lemma {:induction false} ClashesSize(places: set<int>, from: seq<int>)
    ensures |Clashes(places, from)| <= |places| * |from|
  {
    if from != [] {
      var n := |from| - 1;
      ClashesSize(places, from[..n]);
      MinusSize(places, from[n]);
      assert |places| * |from| == |places| * n + |places|;
    }
  }

  lemma {:induction false} NoClash(places: set<int>, from: seq<int>, i: int, k: int)
    requires i !in Clashes(places, from) && 0 <= k < |from|
    ensures i + from[k] !in places
  {
    var n := |from| - 1;
    if k < n {
      NoClash(places, from[..n], i, k);
    } else {
      assert (i + from[n]) - from[n] == i;
    }
  }

  ghost function Interval(lo: int, hi: int): (s: set<int>)
    ensures forall i :: i in s <==> lo <= i < hi
    ensures |s| == if lo < hi then hi - lo else 0
    decreases hi - lo
  {
    if lo >= hi then {} else Interval(lo, hi - 1) + {hi - 1}
  }

  lemma SubsetSize(a: set<int>, b: set<int>)
    requires a <= b
    ensures |a| <= |b|
  {
    assert b == a + (b - a);
  }

  /** Displacement `i` keeps the vector within the table, and off the places taken. */
  ghost predicate HasRoom(v: Vector, places: set<int>, i: int) {
    forall k :: 0 <= k < |v.from| ==> 0 <= i + v.from[k] < MAXTABLE && i + v.from[k] !in places
  }

  /** With few enough places and displacements taken, some displacement is left for the vector. */
  lemma RoomLeft(v: Vector, places: set<int>, taken: set<int>, n: nat) returns (i: int)
    requires v.from != [] && |taken| <= n && |places| * |v.from| + n + Width(v) < MAXTABLE
    ensures i != 0 && i !in taken && HasRoom(v, places, i)
  {
    var lo, hi := -Min(v.from), MAXTABLE - Max(v.from);
    var all, bad := Interval(lo, hi), Clashes(places, v.from) + taken + {0};
    ClashesSize(places, v.from);
    hide Clashes, Interval, Max, Min;
    assert !(all <= bad) by {
      if all <= bad {
        SubsetSize(all, bad);
      }
    }
    i :| i in all && i !in bad;
    forall k | 0 <= k < |v.from|
      ensures 0 <= i + v.from[k] < MAXTABLE && i + v.from[k] !in places
    {
      assert v.from[k] in v.from;
      NoClash(places, v.from, i, k);
    }
  }
}
