/** The table of objects already written (src/runtime/extern.c, src/runtime/intext.h): open
    addressing with linear probing, at most half full. */
module ExternTables {
  const INITIAL_EXTERN_TABLE_SIZE := 2039

  function Hash(a: int, size: int): int
    requires size > 0
  {
    (a / 8) % size
  }

  /** The place that is `i` steps from the object's own. */
  function Slot(a: int, size: int, i: int): int
    requires size > 0
  {
    (Hash(a, size) + i) % size
  }

  lemma SlotIn(a: int, size: int, i: int)
    requires size > 0
    ensures 0 <= Slot(a, size, i) < size && 0 <= Hash(a, size) < size && Slot(a, size, 0) == Hash(a, size)
  {
  }

  /** One step further, around the end of the table. */
  lemma SlotNext(a: int, size: int, i: int)
    requires size > 0 && 0 <= i
    ensures Slot(a, size, i + 1) == if Slot(a, size, i) + 1 >= size then 0 else Slot(a, size, i) + 1
  {
    var n := Hash(a, size) + i;
    ModNext(n, size);
  }

  lemma ModNext(n: int, size: int)
    requires size > 0
    ensures (n + 1) % size == if n % size + 1 >= size then 0 else n % size + 1
  {
    var q, r := n / size, n % size;
    assert n == q * size + r;
    if r + 1 >= size {
      assert n + 1 == (q + 1) * size + 0;
      ModUnique(n + 1, size, q + 1, 0);
    } else {
      ModUnique(n + 1, size, q, r + 1);
    }
  }

  lemma ModUnique(v: int, m: int, q: int, r: int)
    requires m > 0 && v == q * m + r && 0 <= r < m
    ensures v % m == r
  {
    var e := q - v / m;
    assert v == (v / m) * m + v % m;
    assert e * m == v % m - r;
    Multiple(e, m);
  }

  lemma Multiple(e: int, d: int)
    requires d > 0
    ensures (e >= 1 ==> e * d >= d) && (e <= -1 ==> e * d <= -d)
  {
  }

  /** Every place is some number of steps from the object's own. */
  lemma Steps(a: int, size: int, h: int) returns (i: int)
    requires size > 0 && 0 <= h < size
    ensures 0 <= i < size && Slot(a, size, i) == h
  {
    var s := Hash(a, size);
    if s <= h {
      i := h - s;
      assert s + i == h;
    } else {
      i := h - s + size;
      ModUnique(s + i, size, 1, h);
    }
  }

  /** The objects in the table. */
  ghost function Objects(obj: seq<int>): set<int> {
    set h | 0 <= h < |obj| && obj[h] != 0 :: obj[h]
  }

  ghost predicate Distinct(obj: seq<int>) {
    forall g, h :: 0 <= g < h < |obj| && obj[g] != 0 ==> obj[g] != obj[h]
  }

  /** The object is found at step `i`, with no empty place before. */
  ghost predicate FoundAt(obj: seq<int>, a: int, i: int) {
    0 <= i < |obj| && obj[Slot(a, |obj|, i)] == a && forall j :: 0 <= j < i ==> obj[Slot(a, |obj|, j)] != 0
  }

  ghost predicate Findable(obj: seq<int>, a: int) {
    exists i :: FoundAt(obj, a, i)
  }

  /** The table holds `contents`, and each of its objects can be found. */
  ghost predicate Holds(obj: seq<int>, ofs: seq<int>, contents: map<int, int>) {
    && |obj| == |ofs| > 0 && Distinct(obj) && Objects(obj) == contents.Keys
    && (forall h :: 0 <= h < |obj| && obj[h] != 0 ==> contents[obj[h]] == ofs[h])
    && (forall a {:trigger Findable(obj, a)} :: a in contents ==> Findable(obj, a))
  }

  lemma {:induction false} FullSize(obj: seq<int>)
    requires Distinct(obj) && forall h :: 0 <= h < |obj| ==> obj[h] != 0
    ensures |Objects(obj)| == |obj|
  {
    if obj != [] {
      var n := |obj| - 1;
      FullSize(obj[..n]);
      assert Objects(obj) == Objects(obj[..n]) + {obj[n]};
      assert obj[n] !in Objects(obj[..n]);
    } else {
      assert Objects(obj) == {};
    }
  }

  /** A table that is not full has an empty place, which a search comes to. */
  lemma EmptySlot(obj: seq<int>, a: int) returns (i: int)
    requires Distinct(obj) && |Objects(obj)| < |obj|
    ensures 0 <= i < |obj| && obj[Slot(a, |obj|, i)] == 0
  {
    if forall h :: 0 <= h < |obj| ==> obj[h] != 0 {
      FullSize(obj);
      i := 0;
    } else {
      var h :| 0 <= h < |obj| && obj[h] == 0;
      i := Steps(a, |obj|, h);
    }
  }

  /** An object is not behind an empty place. */
  lemma NotBehind(obj: seq<int>, ofs: seq<int>, contents: map<int, int>, a: int, i: int)
    requires Holds(obj, ofs, contents) && a != 0 && 0 <= i < |obj| && obj[Slot(a, |obj|, i)] == 0
    requires forall j :: 0 <= j < i ==> obj[Slot(a, |obj|, j)] != a
    ensures a !in contents
  {
    forall k
      ensures !FoundAt(obj, a, k)
    {
    }
    assert a in contents ==> Findable(obj, a);
  }

  lemma ObjectsPut(obj: seq<int>, h: int, a: int)
    requires 0 <= h < |obj| && obj[h] == 0 && a != 0 && a !in Objects(obj) && Distinct(obj)
    ensures Objects(obj[h := a]) == Objects(obj) + {a} && Distinct(obj[h := a])
  {
    var obj' := obj[h := a];
    forall x | x in Objects(obj)
      ensures x in Objects(obj')
    {
      var g :| 0 <= g < |obj| && obj[g] != 0 && obj[g] == x;
      assert obj'[g] == x;
    }
    assert obj'[h] == a;
    forall g | 0 <= g < |obj| && obj[g] != 0
      ensures obj[g] in Objects(obj)
    {
    }
  }

  /** An object put into the first empty place can be found, like the others. */
  lemma PutHolds(obj: seq<int>, ofs: seq<int>, contents: map<int, int>, a: int, i: int, v: int)
    requires Holds(obj, ofs, contents) && a != 0 && a !in contents && 0 <= i < |obj| && obj[Slot(a, |obj|, i)] == 0
    requires forall j :: 0 <= j < i ==> obj[Slot(a, |obj|, j)] != 0
    ensures 0 <= Slot(a, |obj|, i) < |obj|
    ensures Holds(obj[Slot(a, |obj|, i) := a], ofs[Slot(a, |obj|, i) := v], contents[a := v])
  {
    SlotIn(a, |obj|, i);
    var h := Slot(a, |obj|, i);
    var obj', ofs', c' := obj[h := a], ofs[h := v], contents[a := v];
    ObjectsPut(obj, h, a);
    hide Slot, Hash;
    forall g | 0 <= g < |obj'| && obj'[g] != 0
      ensures c'[obj'[g]] == ofs'[g]
    {
      if g != h {
        assert obj[g] in Objects(obj);
      }
    }
    forall b | b in c'
      ensures Findable(obj', b)
    {
      if b == a {
        SlotsIn(a, |obj|);
        assert FoundAt(obj', a, i);
      } else {
        assert Findable(obj, b);
        var k :| FoundAt(obj, b, k);
        SlotsIn(b, |obj|);
        assert FoundAt(obj', b, k);
      }
    }
  }

  lemma SlotsIn(a: int, size: int)
    requires size > 0
    ensures forall j {:trigger Slot(a, size, j)} :: 0 <= Slot(a, size, j) < size
  {
    forall j {:trigger Slot(a, size, j)}
      ensures 0 <= Slot(a, size, j) < size
    {
      SlotIn(a, size, j);
    }
  }

  // ----- Moving to a larger table -----

  /** The first `n` places of the old table, which held `all`, have been moved. */
  ghost predicate Moved(obj: seq<int>, contents: map<int, int>, all: map<int, int>, n: int) {
    && 0 <= n <= |obj|
    && (forall a {:trigger a in contents} :: a in contents <==> a != 0 && exists h :: 0 <= h < n && obj[h] == a)
    && forall a {:trigger contents[a]} :: a in contents ==> a in all && contents[a] == all[a]
  }

  lemma MovedNew(obj: seq<int>, ofs: seq<int>, contents: map<int, int>, all: map<int, int>, n: int)
    requires Holds(obj, ofs, all) && Moved(obj, contents, all, n) && n < |obj|
    ensures |contents| <= |all|
    ensures obj[n] == 0 ==> Moved(obj, contents, all, n + 1)
    ensures obj[n] != 0 ==> obj[n] !in contents && Moved(obj, contents[obj[n] := ofs[n]], all, n + 1)
  {
    SubmapSize(contents, all);
    if obj[n] != 0 {
      assert obj[n] in Objects(obj);
      var c := contents[obj[n] := ofs[n]];
      forall a
        ensures a in c <==> a != 0 && exists h :: 0 <= h < n + 1 && obj[h] == a
      {
        if a == obj[n] {
          assert 0 <= n < n + 1 && obj[n] == a;
        } else if a in contents {
          var h :| 0 <= h < n && obj[h] == a;
          assert h < n + 1;
        }
      }
    } else {
      forall a
        ensures a in contents <==> a != 0 && exists h :: 0 <= h < n + 1 && obj[h] == a
      {
        if a in contents {
          var h :| 0 <= h < n && obj[h] == a;
          assert h < n + 1;
        }
      }
    }
  }

  lemma SubmapSize(c: map<int, int>, all: map<int, int>)
    requires forall a :: a in c ==> a in all
    ensures |c| <= |all|
  {
    forall a | a in c.Keys
      ensures a in all.Keys
    {
      assert a in c;
    }
    var rest := all.Keys - c.Keys;
    assert all.Keys == c.Keys + rest;
    assert |all.Keys| == |c.Keys| + |rest|;
  }

  lemma MovedAll(obj: seq<int>, ofs: seq<int>, contents: map<int, int>, all: map<int, int>)
    requires Holds(obj, ofs, all) && Moved(obj, contents, all, |obj|)
    ensures contents == all
  {
    forall a | a in all
      ensures a in contents
    {
      assert a in Objects(obj);
      var h :| 0 <= h < |obj| && obj[h] != 0 && obj[h] == a;
    }
    forall a
      ensures a in contents <==> a in all
    {
      assert a in contents ==> a in all && contents[a] == all[a];
    }
    forall a | a in contents
      ensures contents[a] == all[a]
    {
    }
  }

  /** Writing an empty object into an empty place changes nothing. */
  lemma EmptyPut(obj: seq<int>, ofs: seq<int>, contents: map<int, int>, h: int, v: int)
    requires Holds(obj, ofs, contents) && 0 <= h < |obj| && obj[h] == 0
    ensures Holds(obj[h := 0], ofs[h := v], contents)
  {
    assert obj[h := 0] == obj;
  }

  class ExternTable {
    var size: int
    var used: int
    var obj: array<int>
    var ofs: array<int>
    ghost var contents: map<int, int>

    /** The table is half full at most, or one place more when its size is odd. */
    ghost predicate Valid()
      reads this, obj, ofs
    {
      && obj.Length == ofs.Length == size >= 2 && obj != ofs && Holds(obj[..], ofs[..], contents)
      && used == |contents| && 2 * used <= size + 1
    }

    /** An empty table. */
    constructor (size: int)
      requires size >= 2
      ensures Valid() && this.size == size && contents == map[] && fresh(obj) && fresh(ofs)
    {
      this.size := size;
      used := 0;
      obj := new int[size](_ => 0);
      ofs := new int[size](_ => 0);
      contents := map[];
      new;
      assert Objects(obj[..]) == {};
    }

    /** Searches for an object: its place, or the empty place where it belongs. */
    method Probe(a: int) returns (h: int, ghost i: int)
      requires obj.Length == ofs.Length == size && Holds(obj[..], ofs[..], contents) && |contents| < size
      ensures 0 <= i < size && 0 <= h < size && h == Slot(a, size, i)
      ensures forall j :: 0 <= j < i ==> obj[..][Slot(a, size, j)] != 0 && obj[..][Slot(a, size, j)] != a
      ensures obj[h] == 0 || obj[h] == a
      ensures a != 0 ==> (obj[h] == a <==> a in contents) && (a in contents ==> ofs[h] == contents[a])
    {
      ghost var empty := EmptySlot(obj[..], a);
      ghost var s := obj[..];
      SlotsIn(a, size);
      SlotIn(a, size, 0);
      h := Hash(a, size);
      i := 0;
      while obj[h] != 0 && obj[h] != a
        invariant 0 <= i <= empty && h == Slot(a, size, i) && 0 <= h < size
        invariant forall j :: 0 <= j < i ==> s[Slot(a, size, j)] != 0 && s[Slot(a, size, j)] != a
        decreases empty - i
      {
        SlotNext(a, size, i);
        h := h + 1;
        if h >= size {
          h := 0;
        }
        i := i + 1;
      }
      if a != 0 {
        if obj[h] == 0 {
          NotBehind(obj[..], ofs[..], contents, a, i);
        } else {
          assert s[h] in Objects(s);
        }
      }
    }

    /** Doubles the table: the objects go to their new places; empty places leave no trace. */
    method Resize()
      requires Valid()
      modifies this
      ensures Valid() && size == 2 * old(size) && contents == old(contents) && fresh(obj) && fresh(ofs)
    {
      hide Holds, Moved, Slot, Hash;
      var oldSize, oldObj, oldOfs := size, obj, ofs;
      ghost var all, s, t := contents, obj[..], ofs[..];
      size := 2 * size;
      obj := new int[size](_ => 0);
      ofs := new int[size](_ => 0);
      contents := map[];
      NothingMoved(s, all, obj[..], ofs[..]);
      var i := 0;
      while i < oldSize
        invariant 0 <= i <= oldSize && size == 2 * oldSize && obj.Length == ofs.Length == size && obj != ofs
        invariant fresh(obj) && fresh(ofs) && oldObj[..] == s && oldOfs[..] == t && used == |all|
        invariant Holds(obj[..], ofs[..], contents) && Moved(s, contents, all, i)
      {
        ghost var c, o, f := contents, obj[..], ofs[..];
        MovedNew(s, t, contents, all, i);
        var h;
        ghost var k;
        h, k := Probe(oldObj[i]);
        obj[h] := oldObj[i];
        ofs[h] := oldOfs[i];
        if s[i] != 0 {
          PutHolds(o, f, c, s[i], k, t[i]);
          contents := contents[s[i] := t[i]];
        } else {
          EmptyPut(o, f, c, h, t[i]);
        }
        assert obj[..] == o[h := s[i]] && ofs[..] == f[h := t[i]];
        i := i + 1;
      }
      MovedAll(s, t, contents, all);
    }

    /** Looks an object up, and records it with `v` when it is not there. */
    method Enter(a: int, v: int) returns (found: bool, d: int)
      requires Valid() && a != 0
      modifies this, obj, ofs
      ensures Valid() && (obj == old(obj) || fresh(obj)) && (ofs == old(ofs) || fresh(ofs))
      ensures found <==> a in old(contents)
      ensures if found then contents == old(contents) && d == contents[a] else contents == old(contents)[a := v]
    {
      hide Holds, Slot, Hash;
      if 2 * used >= size {
        Resize();
      }
      ghost var o, f := obj[..], ofs[..];
      var h;
      ghost var i;
      h, i := Probe(a);
      if obj[h] != 0 {
        return true, ofs[h];
      }
      PutHolds(o, f, contents, a, i, v);
      obj[h] := a;
      ofs[h] := v;
      used := used + 1;
      contents := contents[a := v];
      assert obj[..] == o[h := a] && ofs[..] == f[h := v];
      found, d := false, v;
    }
  }

  lemma NothingMoved(s: seq<int>, all: map<int, int>, obj: seq<int>, ofs: seq<int>)
    requires |obj| == |ofs| > 0 && forall h :: 0 <= h < |obj| ==> obj[h] == 0
    ensures Holds(obj, ofs, map[]) && Moved(s, map[], all, 0)
  {
    assert Objects(obj) == {};
  }
}
