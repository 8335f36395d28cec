/** Row displacement (src/mosmlyac/output.c): sparse vectors are laid over each other
    in one table, with a check table that tells whose entry a place holds. */
module Packing {
  import opened Options
  import opened Vectors

  /** The tables that are written out. */
  datatype Tables = Tables(table: seq<int>, check: seq<int>, size: int)

  /** How the parsing engine looks code `c` up with displacement `base`. */
  function Lookup(t: Tables, base: int, c: int): Option<int>
    requires |t.table| == |t.check| == t.size + 1
  {
    var n := base + c;
    if base != 0 && 0 <= n <= t.size && t.check[n] == c then Some(t.table[n]) else None
  }

  // ----- Ordering the vectors -----

  /** Wider vectors come first, and fuller ones among equally wide ones. */
  ghost predicate NotAfter(vs: seq<Vector>, width: seq<int>, i: int, j: int)
    requires |vs| == |width| && 0 <= i < |vs| && 0 <= j < |vs|
  {
    width[i] > width[j] || (width[i] == width[j] && |vs[i].from| >= |vs[j].from|)
  }

  ghost predicate IsOrder(vs: seq<Vector>, width: seq<int>, order: seq<int>, n: int)
    requires |vs| == |width| && 0 <= n <= |vs|
  {
    && (forall i :: 0 <= i < |order| ==> 0 <= order[i] < n && vs[order[i]].from != [])
    && (forall v {:trigger vs[v]} :: 0 <= v < n && vs[v].from != [] ==> v in order)
    && (forall i, j :: 0 <= i < j < |order| ==> order[i] != order[j] && NotAfter(vs, width, order[i], order[j]))
  }

  method InsertAt(order: seq<int>, i: int, j: int) returns (order': seq<int>)
    requires -1 <= j < |order|
    ensures Inserted(order, order', i, j)
  {
    order' := order[..j + 1] + [i] + order[j + 1..];
  }

  method SortActions(vs: seq<Vector>, width: seq<int>) returns (order: seq<int>)
    requires |vs| == |width|
    ensures IsOrder(vs, width, order, |vs|)
  {
    order := [];
    var i := 0;
    while i < |vs|
      invariant 0 <= i <= |vs| && IsOrder(vs, width, order, i)
    {
      if vs[i].from != [] {
        var t, w := |vs[i].from|, width[i];
        var j := |order| - 1;
        while j >= 0 && width[order[j]] < w
          invariant -1 <= j < |order|
          invariant forall k :: j < k < |order| ==> NotAfter(vs, width, i, order[k])
        {
          j := j - 1;
        }
        while j >= 0 && width[order[j]] == w && |vs[order[j]].from| < t
          invariant -1 <= j < |order| && (j >= 0 ==> width[order[j]] >= w)
          invariant forall k :: j < k < |order| ==> NotAfter(vs, width, i, order[k])
        {
          j := j - 1;
        }
        ghost var before := order;
        order := InsertAt(order, i, j);
        InsertVector(vs, width, before, order, i, j);
      }
      i := i + 1;
    }
  }

  lemma NotAfterTransitive(vs: seq<Vector>, width: seq<int>, i: int, j: int, k: int)
    requires |vs| == |width| && 0 <= i < |vs| && 0 <= j < |vs| && 0 <= k < |vs|
    requires NotAfter(vs, width, i, j) && NotAfter(vs, width, j, k)
    ensures NotAfter(vs, width, i, k)
  {
  }

  /** `order'` is `order` with `i` put in after position `j`. */
  ghost predicate Inserted(order: seq<int>, order': seq<int>, i: int, j: int) {
    && -1 <= j < |order| && |order'| == |order| + 1 && order'[j + 1] == i
    && (forall k :: 0 <= k <= j ==> order'[k] == order[k])
    && (forall k :: j < k < |order| ==> order'[k + 1] == order[k])
    && (forall k :: j + 1 < k < |order'| ==> order'[k] == order[k - 1])
  }

  /** Where position `k` of the new order comes from. */
  ghost function Before(j: int, k: int): int {
    if k <= j then k else k - 1
  }

  lemma InsertedAt(order: seq<int>, order': seq<int>, i: int, j: int, k: int)
    requires Inserted(order, order', i, j) && 0 <= k < |order'| && k != j + 1
    ensures 0 <= Before(j, k) < |order| && order'[k] == order[Before(j, k)] && (k <= j <==> Before(j, k) <= j)
  {
  }

  lemma InsertedMember(order: seq<int>, order': seq<int>, i: int, j: int, v: int)
    requires Inserted(order, order', i, j) && v in order
    ensures v in order'
  {
    var k :| 0 <= k < |order| && order[k] == v;
    assert k > j ==> order'[k + 1] == v;
  }

  lemma InsertedPair(vs: seq<Vector>, width: seq<int>, order: seq<int>, order': seq<int>, i: int, j: int, k: int,
                     l: int)
    requires |vs| == |width| && 0 <= i < |vs| && IsOrder(vs, width, order, i) && Inserted(order, order', i, j)
    requires forall k :: j < k < |order| ==> NotAfter(vs, width, i, order[k])
    requires forall k :: 0 <= k <= j ==> NotAfter(vs, width, order[k], i)
    requires 0 <= k < l < |order'|
    ensures 0 <= order'[k] < |vs| && 0 <= order'[l] < |vs| && order'[k] != order'[l]
    ensures NotAfter(vs, width, order'[k], order'[l])
  {
    hide NotAfter;
    if k != j + 1 {
      InsertedAt(order, order', i, j, k);
    }
    if l != j + 1 {
      InsertedAt(order, order', i, j, l);
    }
    hide Inserted;
  }

  lemma InsertVector(vs: seq<Vector>, width: seq<int>, order: seq<int>, order': seq<int>, i: int, j: int)
    requires |vs| == |width| && 0 <= i < |vs| && IsOrder(vs, width, order, i) && vs[i].from != []
    requires Inserted(order, order', i, j) && forall k :: j < k < |order| ==> NotAfter(vs, width, i, order[k])
    requires j >= 0 ==> NotAfter(vs, width, order[j], i)
    ensures IsOrder(vs, width, order', i + 1)
  {
    forall k | 0 <= k <= j
      ensures NotAfter(vs, width, order[k], i)
    {
      if k < j {
        NotAfterTransitive(vs, width, order[k], order[j], i);
      }
    }
    forall k | 0 <= k < |order'|
      ensures 0 <= order'[k] < i + 1 && vs[order'[k]].from != []
    {
      if k != j + 1 {
        InsertedAt(order, order', i, j, k);
      }
    }
    forall v {:trigger vs[v]} | 0 <= v < i + 1 && vs[v].from != []
      ensures v in order'
    {
      if v < i {
        InsertedMember(order, order', i, j, v);
      } else {
        assert order'[j + 1] == v;
      }
    }
    hide NotAfter, Inserted;
    forall k, l | 0 <= k < l < |order'|
      ensures order'[k] != order'[l] && NotAfter(vs, width, order'[k], order'[l])
    {
      InsertedPair(vs, width, order, order', i, j, k, l);
    }
  }

  // ----- Placing the vectors -----

  /** The vector lies in the tables at displacement `b`. */
  ghost predicate Stored(v: Vector, b: int, table: seq<int>, check: seq<int>, high: int)
    requires |table| == |check|
  {
    |v.from| == |v.to| && forall k :: 0 <= k < |v.from| ==>
      0 <= b + v.from[k] <= high && b + v.from[k] < |check| && check[b + v.from[k]] == v.from[k] &&
        table[b + v.from[k]] == v.to[k]
  }

  /** The entry at `loc` belongs to one of the first `n` vectors. */
  ghost predicate Owned(vs: seq<Vector>, order: seq<int>, base: seq<int>, n: int, check: seq<int>, loc: int)
    requires 0 <= loc < |check|
  {
    exists i :: 0 <= i < n && i < |order| && 0 <= order[i] < |vs| == |base| &&
                base[order[i]] + check[loc] == loc && check[loc] in vs[order[i]].from
  }

  ghost predicate Shape(vs: seq<Vector>, order: seq<int>, base: seq<int>, n: int) {
    && |base| == |vs| && 0 <= n <= |order|
    && (forall i :: 0 <= i < |order| ==> 0 <= order[i] < |vs| && vs[order[i]].Ok() && vs[order[i]].from != [])
    && (forall i, j :: 0 <= i < j < |order| ==> order[i] != order[j])
  }

  ghost predicate AllStored(vs: seq<Vector>, order: seq<int>, base: seq<int>, n: int, table: seq<int>, check: seq<int>,
                            high: int)
    requires Shape(vs, order, base, n) && |table| == |check|
  {
    forall i :: 0 <= i < n ==> base[order[i]] != 0 && Stored(vs[order[i]], base[order[i]], table, check, high)
  }

  ghost predicate AllOwned(vs: seq<Vector>, order: seq<int>, base: seq<int>, n: int, check: seq<int>, high: int) {
    forall loc :: 0 <= loc < |check| && check[loc] != -1 ==> loc <= high && Owned(vs, order, base, n, check, loc)
  }

  /** Only equal vectors share a displacement. */
  ghost predicate SharedIfEqual(vs: seq<Vector>, order: seq<int>, base: seq<int>, n: int)
    requires Shape(vs, order, base, n)
  {
    forall i, j :: 0 <= i < j < n && base[order[i]] == base[order[j]] ==> vs[order[i]] == vs[order[j]]
  }

  ghost predicate OthersZero(order: seq<int>, base: seq<int>, n: int)
    requires 0 <= n <= |order|
  {
    forall v :: 0 <= v < |base| && (forall i :: 0 <= i < n ==> order[i] != v) ==> base[v] == 0
  }

  ghost predicate LowOk(check: seq<int>, lowzero: int) {
    0 <= lowzero <= |check| && forall l :: 0 <= l < lowzero ==> check[l] != -1
  }

  /** The first `n` vectors of the order have been placed. */
  ghost predicate Placed(vs: seq<Vector>, order: seq<int>, base: seq<int>, n: int,
                         table: seq<int>, check: seq<int>, lowzero: int, high: int) {
    && Shape(vs, order, base, n) && |table| == |check| && 0 <= high < |check|
    && LowOk(check, lowzero)
    && AllStored(vs, order, base, n, table, check, high)
    && AllOwned(vs, order, base, n, check, high)
    && SharedIfEqual(vs, order, base, n)
    && OthersZero(order, base, n)
  }

  /** A place is free when nothing is stored there; beyond the tables all places are free. */
  ghost predicate Free(check: seq<int>, loc: int) {
    0 <= loc && (loc < |check| ==> check[loc] == -1)
  }

  /** Displacement `j` would do for the vector: it is not 0, all places are free, and no
      placed vector has it. */
  ghost predicate Fits(vs: seq<Vector>, order: seq<int>, base: seq<int>, n: int, check: seq<int>, v: Vector, j: int) {
    && j != 0
    && (forall k :: 0 <= k < |v.from| ==> Free(check, j + v.from[k]))
    && (forall i :: 0 <= i < n && i < |order| && 0 <= order[i] < |base| ==> base[order[i]] != j)
  }

  /** Every displacement that would do needs a place beyond the limit. */
  ghost predicate NoRoom(vs: seq<Vector>, order: seq<int>, base: seq<int>, n: int, check: seq<int>, v: Vector) {
    forall i :: Fits(vs, order, base, n, check, v, i) ==> exists k :: 0 <= k < |v.from| && i + v.from[k] >= MAXTABLE
  }

  class Packer {
    const vs: seq<Vector>
    const order: seq<int>
    const base: array<int>
    var table: array<int>
    var check: array<int>
    var lowzero: int
    var high: int

    ghost predicate Valid(n: int)
      reads this, base, table, check
    {
      && base != table && base != check && table != check && check.Length <= MAXTABLE + 200
      && Placed(vs, order, base[..], n, table[..], check[..], lowzero, high)
    }

    constructor (vs: seq<Vector>, order: seq<int>)
      requires forall i :: 0 <= i < |order| ==> 0 <= order[i] < |vs| && vs[order[i]].Ok() && vs[order[i]].from != []
      requires forall i, j :: 0 <= i < j < |order| ==> order[i] != order[j]
      ensures Valid(0) && this.vs == vs && this.order == order
      ensures fresh(base) && fresh(table) && fresh(check)
    {
      this.vs := vs;
      this.order := order;
      base := new int[|vs|](_ => 0);
      table := new int[1000](_ => 0);
      check := new int[1000](_ => -1);
      lowzero := 0;
      high := 0;
    }

    /** Makes room for place `loc`, unless the tables would grow too large. */
    method Extend(loc: int, ghost n: int) returns (ok: bool)
      requires Valid(n) && 0 <= loc
      modifies this`table, this`check
      ensures Valid(n) && (ok <==> loc < old(check.Length) || loc < MAXTABLE)
      ensures ok ==> loc < check.Length
      ensures old(check.Length) <= check.Length
      ensures table == old(table) || fresh(table)
      ensures check == old(check) || fresh(check)
      ensures forall l :: Free(check[..], l) == old(Free(check[..], l))
    {
      hide Placed;
      PlacedSizes(vs, order, base[..], n, table[..], check[..], lowzero, high);
      if loc < check.Length {
        return true;
      }
      if loc >= MAXTABLE {
        return false;
      }
      var newmax := check.Length + 200;
      while newmax <= loc
        invariant check.Length < newmax <= loc + 200
      {
        newmax := newmax + 200;
      }
      ghost var t, c := table[..], check[..];
      var oldTable, oldCheck := table, check;
      table := new int[newmax](l requires 0 <= l reads oldTable => if l < oldTable.Length then oldTable[l] else 0);
      check := new int[newmax](l requires 0 <= l reads oldCheck => if l < oldCheck.Length then oldCheck[l] else -1);
      ExtendPlaced(vs, order, base[..], n, t, c, table[..], check[..], lowzero, high);
      ok := true;
    }

    /** Tries displacement `j` for vector `v`, growing the tables as far as needed. */
    method TryAt(v: Vector, j: int, vector: int) returns (fits: bool, ok: bool)
      requires Valid(vector) && v.Ok() && v.from != [] && j != 0 && 0 <= vector <= |order|
      requires forall k :: 0 <= k < |v.from| ==> 0 <= j + v.from[k]
      modifies this`table, this`check
      ensures Valid(vector)
      ensures table == old(table) || fresh(table)
      ensures check == old(check) || fresh(check)
      ensures forall l :: Free(check[..], l) == old(Free(check[..], l))
      ensures !ok ==> !fits && exists k :: 0 <= k < |v.from| && j + v.from[k] >= MAXTABLE
      ensures ok ==> j + v.from[0] < MAXTABLE + 200
      ensures ok ==> (fits <==> Fits(vs, order, base[..], vector, check[..], v, j))
      ensures fits ==> forall k :: 0 <= k < |v.from| ==> j + v.from[k] < check.Length
    {
      hide Placed, Vector.Ok, Owned, Stored;
      fits, ok := true, true;
      var k := 0;
      while fits && k < |v.from|
        invariant 0 <= k <= |v.from| && Valid(vector) && ok
        invariant table == old(table) || fresh(table)
        invariant check == old(check) || fresh(check)
        invariant forall l :: Free(check[..], l) == old(Free(check[..], l))
        invariant if k == 0 then fits else j + v.from[0] < check.Length
        invariant fits ==> forall l :: 0 <= l < k ==> Free(check[..], j + v.from[l]) && j + v.from[l] < check.Length
        invariant !fits ==> exists l :: 0 <= l < |v.from| && !Free(check[..], j + v.from[l])
      {
        var loc := j + v.from[k];
        ok := Extend(loc, vector);
        if !ok {
          return false, false;
        }
        if check[loc] != -1 {
          assert !Free(check[..], j + v.from[k]);
          fits := false;
        }
        k := k + 1;
      }
      PlacedShape(vs, order, base[..], vector, table[..], check[..], lowzero, high);
      k := 0;
      while fits && k < vector
        invariant 0 <= k <= vector
        invariant fits ==> forall l :: 0 <= l < k ==> base[order[l]] != j
        invariant fits ==> forall l ::
                             0 <= l < |v.from| ==> Free(check[..], j + v.from[l]) && j + v.from[l] < check.Length
        invariant !fits ==> !Fits(vs, order, base[..], vector, check[..], v, j)
      {
        if base[order[k]] == j {
          fits := false;
        }
        k := k + 1;
      }
    }

    /** Writes the vector's entries at displacement `j`. */
    method Write(v: Vector, j: int, ghost n: int)
      requires Valid(n) && v.Ok() && n < |order| && v == vs[order[n]] && Fits(vs, order, base[..], n, check[..], v, j)
      requires forall k :: 0 <= k < |v.from| ==> j + v.from[k] < check.Length
      modifies table, check, this`high
      ensures Placed(vs, order, base[..][order[n] := j], n + 1, table[..], check[..], lowzero, high)
    {
      hide Placed, Vector.Ok, Free, Fits, Written;
      PlacedSizes(vs, order, base[..], n, table[..], check[..], lowzero, high);
      VectorSizes(v);
      FitsPlaces(vs, order, base[..], n, check[..], v, j);
      ghost var t, c, h := table[..], check[..], high;
      var k := 0;
      NothingWritten(v, j, t, c);
      while k < |v.from|
        invariant 0 <= k <= |v.from| && h <= high < |c| == check.Length == table.Length
        invariant Written(v, j, k, t, c, table[..], check[..])
        invariant forall l :: 0 <= l < k ==> j + v.from[l] <= high
      {
        WriteStep(v, j, k, t, c, table[..], check[..]);
        ghost var t', c' := table[..], check[..];
        var loc := j + v.from[k];
        table[loc] := v.to[k];
        check[loc] := v.from[k];
        assert table[..] == t'[loc := v.to[k]] && check[..] == c'[loc := v.from[k]];
        if loc > high {
          high := loc;
        }
        k := k + 1;
      }
      WritePlaced(vs, order, base[..], n, t, c, table[..], check[..], lowzero, h, high, j);
    }

    /** Finds the smallest displacement at which the next vector fits, and writes it
        there; gives up when the table would grow beyond its limit. */
    method PackVector(vector: int) returns (j: int, ok: bool)
      requires Valid(vector) && 0 <= vector < |order|
      modifies this`table, this`check, this`lowzero, this`high, table, check
      ensures table == old(table) || fresh(table)
      ensures check == old(check) || fresh(check)
      ensures base[..] == old(base[..]) && table != check && check.Length <= MAXTABLE + 200
      ensures ok ==> Placed(vs, order, base[..][order[vector] := j], vector + 1, table[..], check[..], lowzero, high)
      ensures ok ==> old(Fits(vs, order, base[..], vector, check[..], vs[order[vector]], j))
      ensures forall i :: i < j ==> !old(Fits(vs, order, base[..], vector, check[..], vs[order[vector]], i))
      ensures !ok ==> old(NoRoom(vs, order, base[..], vector, check[..], vs[order[vector]]))
    {
      hide Placed, Vector.Ok, Free, Fits, Shape, LowOk, NoRoom;
      PlacedSizes(vs, order, base[..], vector, table[..], check[..], lowzero, high);
      PlacedVector(vs, order, base[..], vector, table[..], check[..], lowzero, high);
      ghost var c := check[..];
      var v := vs[order[vector]];
      VectorSizes(v);
      j := lowzero - v.from[0];
      var k := 1;
      while k < |v.from|
        invariant 1 <= k <= |v.from|
        invariant forall l :: 0 <= l < k ==> lowzero - v.from[l] <= j
        invariant exists l :: 0 <= l < k && j == lowzero - v.from[l]
      {
        if lowzero - v.from[k] > j {
          j := lowzero - v.from[k];
        }
        k := k + 1;
      }
      forall i | i < j
        ensures !Fits(vs, order, base[..], vector, c, v, i)
      {
        ghost var l :| 0 <= l < k && j == lowzero - v.from[l];
        NotBelowLow(vs, order, base[..], vector, c, lowzero, v, i, l);
      }
      while true
        invariant Valid(vector) && base[..] == old(base[..]) && lowzero == old(lowzero)
        invariant table == old(table) || fresh(table)
        invariant check == old(check) || fresh(check)
        invariant forall l :: Free(check[..], l) == Free(c, l)
        invariant forall l :: 0 <= l < |v.from| ==> lowzero - v.from[l] <= j
        invariant forall i :: i < j ==> !Fits(vs, order, base[..], vector, c, v, i)
        decreases if j <= 0 then 1 - j else 0, MAXTABLE + 200 - (j + v.from[0])
      {
        if j == 0 {
          ZeroNeverFits(vs, order, base[..], vector, c, v);
          j := j + 1;
          continue;
        }
        ghost var b := base[..];
        var fits;
        fits, ok := TryAt(v, j, vector);
        if !ok {
          NoRoomFrom(vs, order, b, vector, c, v, j);
          return j, false;
        }
        SameFits(vs, order, b, vector, c, check[..], v, j);
        if fits {
          Write(v, j, vector);
          PlacedSizes(vs, order, base[..][order[vector] := j], vector + 1, table[..], check[..], lowzero, high);
          AdvanceLow(j, vector);
          return j, true;
        }
        j := j + 1;
      }
    }

    /** Moves `lowzero` to the next free place. */
    method AdvanceLow(j: int, ghost n: int)
      requires 0 <= n < |order| && base.Length == |vs| && 0 <= order[n] < base.Length
      requires Placed(vs, order, base[..][order[n] := j], n + 1, table[..], check[..], lowzero, high)
      modifies this`lowzero
      ensures Placed(vs, order, base[..][order[n] := j], n + 1, table[..], check[..], lowzero, high)
    {
      hide Placed;
      PlacedSizes(vs, order, base[..][order[n] := j], n + 1, table[..], check[..], lowzero, high);
      while lowzero < check.Length && check[lowzero] != -1
        invariant 0 <= lowzero
        invariant Placed(vs, order, base[..][order[n] := j], n + 1, table[..], check[..], lowzero, high)
        decreases check.Length - lowzero
      {
        LowStep(vs, order, base[..][order[n] := j], n + 1, table[..], check[..], lowzero, high);
        lowzero := lowzero + 1;
      }
    }
  }

  lemma NoRoomFrom(vs: seq<Vector>, order: seq<int>, base: seq<int>, n: int, check: seq<int>, v: Vector, j: int)
    requires forall i :: i < j ==> !Fits(vs, order, base, n, check, v, i)
    requires exists k :: 0 <= k < |v.from| && j + v.from[k] >= MAXTABLE
    ensures NoRoom(vs, order, base, n, check, v)
  {
    var k :| 0 <= k < |v.from| && j + v.from[k] >= MAXTABLE;
    hide Fits;
    forall i | Fits(vs, order, base, n, check, v, i)
      ensures i + v.from[k] >= MAXTABLE
    {
    }
  }

  /** What is taken so far is among the places and displacements of all vectors. */
  lemma TakenPlaces(vs: seq<Vector>, order: seq<int>, base: seq<int>, n: int, table: seq<int>, check: seq<int>,
                    lowzero: int, high: int)
    requires Placed(vs, order, base, n, table, check, lowzero, high)
    ensures |base| == |vs|
    ensures forall loc :: 0 <= loc < |check| && check[loc] != -1 ==> loc in Places(vs, base, |vs|)
  {
    hide Places, Vector.Ok, Stored, LowOk, OthersZero, SharedIfEqual, AllStored;
    forall loc | 0 <= loc < |check| && check[loc] != -1
      ensures loc in Places(vs, base, |vs|)
    {
      var j := PlacedOwned(vs, order, base, n, table, check, lowzero, high, loc);
      var v := order[j];
      var k :| 0 <= k < |vs[v].from| && vs[v].from[k] == check[loc];
      assert base[v] + vs[v].from[k] in Places(vs, base, |vs|);
    }
  }

  lemma RoomFits(vs: seq<Vector>, order: seq<int>, base: seq<int>, n: int, check: seq<int>, v: Vector, i: int)
    requires |base| == |vs| && i != 0 && i !in (set x | x in base) && HasRoom(v, Places(vs, base, |vs|), i)
    requires forall loc :: 0 <= loc < |check| && check[loc] != -1 ==> loc in Places(vs, base, |vs|)
    ensures Fits(vs, order, base, n, check, v, i)
  {
  }

  /** The table overflows only when the vectors are many and full. */
  lemma FullMeansCrowded(vs: seq<Vector>, order: seq<int>, base: seq<int>, n: int, table: seq<int>, check: seq<int>,
                         lowzero: int, high: int)
    requires Placed(vs, order, base, n, table, check, lowzero, high) && 0 <= n < |order| && 0 <= order[n] < |vs|
    requires NoRoom(vs, order, base, n, check, vs[order[n]]) && vs[order[n]].from != []
    ensures Crowded(vs)
  {
    TakenPlaces(vs, order, base, n, table, check, lowzero, high);
    hide *;
    var v, places, taken := vs[order[n]], Places(vs, base, |vs|), set x | x in base;
    PlacesSize(vs, base, |vs|);
    MembersSize(base);
    assert vs[..|vs|] == vs;
    if Total(vs) * |v.from| + |vs| + Width(v) < MAXTABLE {
      AtMost(|places|, Total(vs), |v.from|);
      var i := RoomLeft(v, places, taken, |vs|);
      RoomFits(vs, order, base, n, check, v, i);
      NoSuchRoom(vs, order, base, n, check, v, i);
    }
    CrowdedBy(vs, order[n]);
  }

  lemma AtMost(a: int, b: int, c: int)
    requires a <= b && 0 <= c
    ensures a * c <= b * c
  {
  }

  lemma NoSuchRoom(vs: seq<Vector>, order: seq<int>, base: seq<int>, n: int, check: seq<int>, v: Vector, i: int)
    requires NoRoom(vs, order, base, n, check, v) && Fits(vs, order, base, n, check, v, i)
    ensures |base| == |vs| ==> !HasRoom(v, Places(vs, base, |vs|), i)
  {
    var k :| 0 <= k < |v.from| && i + v.from[k] >= MAXTABLE;
  }

  lemma CrowdedBy(vs: seq<Vector>, v: int)
    requires 0 <= v < |vs| && Total(vs) * |vs[v].from| + |vs| + Width(vs[v]) >= MAXTABLE
    ensures Crowded(vs)
  {
  }

  lemma VectorSizes(v: Vector)
    requires v.Ok()
    ensures |v.from| == |v.to|
  {
  }

  lemma FitsPlaces(vs: seq<Vector>, order: seq<int>, base: seq<int>, n: int, check: seq<int>, v: Vector, j: int)
    requires Fits(vs, order, base, n, check, v, j)
    ensures forall k :: 0 <= k < |v.from| ==> 0 <= j + v.from[k]
  {
    forall k | 0 <= k < |v.from|
      ensures 0 <= j + v.from[k]
    {
      assert Free(check, j + v.from[k]);
    }
  }

  lemma NothingWritten(v: Vector, j: int, table: seq<int>, check: seq<int>)
    requires v.Ok() && |table| == |check|
    ensures Written(v, j, 0, table, check, table, check)
  {
  }

  lemma LowStep(vs: seq<Vector>, order: seq<int>, base: seq<int>, n: int, table: seq<int>, check: seq<int>,
                lowzero: int, high: int)
    requires Placed(vs, order, base, n, table, check, lowzero, high) && lowzero < |check| && check[lowzero] != -1
    ensures Placed(vs, order, base, n, table, check, lowzero + 1, high)
  {
    hide Shape, Stored, Owned, SharedIfEqual, OthersZero;
  }

  lemma ZeroNeverFits(vs: seq<Vector>, order: seq<int>, base: seq<int>, n: int, check: seq<int>, v: Vector)
    ensures !Fits(vs, order, base, n, check, v, 0)
  {
  }

  lemma NotBelowLow(vs: seq<Vector>, order: seq<int>, base: seq<int>, n: int, check: seq<int>, lowzero: int,
                    v: Vector, j: int, k: int)
    requires LowOk(check, lowzero) && 0 <= k < |v.from| && j + v.from[k] < lowzero
    ensures !Fits(vs, order, base, n, check, v, j)
  {
    assert !Free(check, j + v.from[k]);
  }

  lemma SameFits(vs: seq<Vector>, order: seq<int>, base: seq<int>, n: int, c: seq<int>, c': seq<int>, v: Vector, j: int)
    requires forall l :: Free(c', l) == Free(c, l)
    ensures Fits(vs, order, base, n, c', v, j) == Fits(vs, order, base, n, c, v, j)
  {
    hide Free;
  }

  /** The entries of `v` up to `n` have been written at displacement `j`. */
  ghost predicate Written(v: Vector, j: int, n: int, table: seq<int>, check: seq<int>, table': seq<int>,
                          check': seq<int>)
    requires |v.from| == |v.to| && 0 <= n <= |v.from|
  {
    && |table'| == |table| == |check| == |check'|
    && (forall k :: 0 <= k < n && 0 <= j + v.from[k] < |check| ==>
          check'[j + v.from[k]] == v.from[k] && table'[j + v.from[k]] == v.to[k])
    && (forall l :: 0 <= l < |check| && (forall k :: 0 <= k < n ==> j + v.from[k] != l) ==>
          check'[l] == check[l] && table'[l] == table[l])
  }

  lemma WriteStep(v: Vector, j: int, n: int, table: seq<int>, check: seq<int>, table': seq<int>, check': seq<int>)
    requires v.Ok() && 0 <= n < |v.from| && Written(v, j, n, table, check, table', check')
    requires 0 <= j + v.from[n] < |check|
    ensures Written(v, j, n + 1, table, check, table'[j + v.from[n] := v.to[n]], check'[j + v.from[n] := v.from[n]])
  {
  }

  lemma StoredKept(v: Vector, j: int, table: seq<int>, check: seq<int>, table': seq<int>, check': seq<int>,
                   u: Vector, b: int, high: int, high': int)
    requires v.Ok() && u.Ok() && Written(v, j, |v.from|, table, check, table', check') && high <= high'
    requires forall k :: 0 <= k < |v.from| ==> Free(check, j + v.from[k])
    requires Stored(u, b, table, check, high)
    ensures Stored(u, b, table', check', high')
  {
    VectorSizes(v);
    VectorSizes(u);
    hide Vector.Ok, Free;
    WrittenSizes(v, j, |v.from|, table, check, table', check');
    forall k | 0 <= k < |u.from|
      ensures check'[b + u.from[k]] == check[b + u.from[k]] && table'[b + u.from[k]] == table[b + u.from[k]]
    {
      hide Written;
      WrittenElsewhere(v, j, table, check, table', check', b + u.from[k]);
    }
  }

  lemma WrittenSizes(v: Vector, j: int, n: int, table: seq<int>, check: seq<int>, table': seq<int>, check': seq<int>)
    requires |v.from| == |v.to| && 0 <= n <= |v.from| && Written(v, j, n, table, check, table', check')
    ensures |table'| == |table| == |check| == |check'|
  {
  }

  lemma WrittenElsewhere(v: Vector, j: int, table: seq<int>, check: seq<int>, table': seq<int>, check': seq<int>,
                         l: int)
    requires |v.from| == |v.to| && Written(v, j, |v.from|, table, check, table', check')
    requires forall k :: 0 <= k < |v.from| ==> Free(check, j + v.from[k])
    requires 0 <= l < |check| && check[l] != -1
    ensures check'[l] == check[l] && table'[l] == table[l]
  {
    hide Vector.Ok, Free;
    forall k | 0 <= k < |v.from|
      ensures j + v.from[k] != l
    {
      FreePlace(check, j + v.from[k]);
    }
  }

  lemma FreePlace(check: seq<int>, loc: int)
    requires Free(check, loc)
    ensures 0 <= loc < |check| ==> check[loc] == -1
  {
  }

  /** The next vector, written at a displacement that fits, is placed. */
  lemma WritePlaced(vs: seq<Vector>, order: seq<int>, base: seq<int>, n: int, table: seq<int>, check: seq<int>,
                    table': seq<int>, check': seq<int>, lowzero: int, high: int, high': int, j: int)
    requires Placed(vs, order, base, n, table, check, lowzero, high) && n < |order|
    requires Fits(vs, order, base, n, check, vs[order[n]], j) && vs[order[n]].Ok()
    requires forall k ::
               0 <= k < |vs[order[n]].from| ==> j + vs[order[n]].from[k] < |check| && j + vs[order[n]].from[k] <= high'
    requires Written(vs[order[n]], j, |vs[order[n]].from|, table, check, table', check')
    requires high <= high' < |check|
    ensures Placed(vs, order, base[order[n] := j], n + 1, table', check', lowzero, high')
  {
    hide Vector.Ok, Owned, Stored;
    var v := vs[order[n]];
    var base' := base[order[n] := j];
    NextBase(vs, order, base, n, j);
    WriteStored(v, j, table, check, table', check', high');
    forall i | 0 <= i < n
      ensures Stored(vs[order[i]], base[order[i]], table', check', high')
    {
      StoredKept(v, j, table, check, table', check', vs[order[i]], base[order[i]], high, high');
    }
    WriteOwned(vs, order, base, n, table, check, table', check', high, high', j);
    WriteLow(v, j, table, check, table', check', lowzero);
  }

  lemma WriteStored(v: Vector, j: int, table: seq<int>, check: seq<int>, table': seq<int>, check': seq<int>, high': int)
    requires v.Ok() && Written(v, j, |v.from|, table, check, table', check')
    requires forall k ::
               0 <= k < |v.from| ==> Free(check, j + v.from[k]) && j + v.from[k] < |check| && j + v.from[k] <= high'
    ensures Stored(v, j, table', check', high')
  {
    forall k | 0 <= k < |v.from|
      ensures 0 <= j + v.from[k]
    {
      assert Free(check, j + v.from[k]);
    }
  }

  lemma WriteLow(v: Vector, j: int, table: seq<int>, check: seq<int>, table': seq<int>, check': seq<int>, lowzero: int)
    requires v.Ok() && Written(v, j, |v.from|, table, check, table', check') && LowOk(check, lowzero)
    ensures LowOk(check', lowzero)
  {
    forall l | 0 <= l < lowzero
      ensures check'[l] != -1
    {
      if k :| 0 <= k < |v.from| && j + v.from[k] == l {
        assert check'[j + v.from[k]] == v.from[k];
      }
    }
  }

  lemma WriteOwned(vs: seq<Vector>, order: seq<int>, base: seq<int>, n: int, table: seq<int>, check: seq<int>,
                   table': seq<int>, check': seq<int>, high: int, high': int, j: int)
    requires Shape(vs, order, base, n) && n < |order| && AllOwned(vs, order, base, n, check, high) && vs[order[n]].Ok()
    requires Written(vs[order[n]], j, |vs[order[n]].from|, table, check, table', check') && high <= high'
    requires forall k :: 0 <= k < |vs[order[n]].from| ==> j + vs[order[n]].from[k] <= high'
    ensures AllOwned(vs, order, base[order[n] := j], n + 1, check', high')
  {
    var v := vs[order[n]];
    var base' := base[order[n] := j];
    OwnersKept(vs, order, base, n, check, high, j);
    hide Shape, Vector.Ok;
    forall loc | 0 <= loc < |check'| && check'[loc] != -1
      ensures loc <= high' && Owned(vs, order, base', n + 1, check', loc)
    {
      if k :| 0 <= k < |v.from| && j + v.from[k] == loc {
        assert check'[j + v.from[k]] == v.from[k];
        assert base'[order[n]] + check'[loc] == loc && check'[loc] in v.from;
      } else {
        assert check'[loc] == check[loc];
        assert Owned(vs, order, base', n + 1, check, loc);
      }
    }
  }

  lemma PlacedSizes(vs: seq<Vector>, order: seq<int>, base: seq<int>, n: int, table: seq<int>, check: seq<int>,
                    lowzero: int, high: int)
    requires Placed(vs, order, base, n, table, check, lowzero, high)
    ensures |table| == |check| && 0 <= high < |check| && |base| == |vs| && LowOk(check, lowzero)
  {
  }

  lemma PlacedVector(vs: seq<Vector>, order: seq<int>, base: seq<int>, n: int, table: seq<int>, check: seq<int>,
                     lowzero: int, high: int)
    requires Placed(vs, order, base, n, table, check, lowzero, high) && n < |order|
    ensures 0 <= order[n] < |vs| == |base| && vs[order[n]].Ok() && vs[order[n]].from != []
  {
  }

  lemma PlacedShape(vs: seq<Vector>, order: seq<int>, base: seq<int>, n: int, table: seq<int>, check: seq<int>,
                    lowzero: int, high: int)
    requires Placed(vs, order, base, n, table, check, lowzero, high)
    ensures Shape(vs, order, base, n)
  {
  }

  lemma ExtendPlaced(vs: seq<Vector>, order: seq<int>, base: seq<int>, n: int, table: seq<int>, check: seq<int>,
                     table': seq<int>, check': seq<int>, lowzero: int, high: int)
    requires Placed(vs, order, base, n, table, check, lowzero, high)
    requires |table| <= |table'| == |check'|
    requires forall l :: 0 <= l < |table| ==> table'[l] == table[l] && check'[l] == check[l]
    requires forall l :: |check| <= l < |check'| ==> check'[l] == -1
    ensures Placed(vs, order, base, n, table', check', lowzero, high)
  {
    hide Vector.Ok, SharedIfEqual, OthersZero;
    forall loc | 0 <= loc < |check'| && check'[loc] != -1
      ensures loc <= high && Owned(vs, order, base, n, check', loc)
    {
      assert Owned(vs, order, base, n, check, loc);
    }
  }

  /** What placing the next vector at displacement `j` does to the bookkeeping. */
  lemma NextBase(vs: seq<Vector>, order: seq<int>, base: seq<int>, n: int, j: int)
    requires Shape(vs, order, base, n) && n < |order| && SharedIfEqual(vs, order, base, n) && OthersZero(order, base, n)
    requires forall i :: 0 <= i < n && base[order[i]] == j ==> vs[order[i]] == vs[order[n]]
    ensures var base' := base[order[n] := j];
            && Shape(vs, order, base', n + 1) && SharedIfEqual(vs, order, base', n + 1) &&
                 OthersZero(order, base', n + 1)
            && forall i :: 0 <= i < n ==> base'[order[i]] == base[order[i]]
  {
    hide Vector.Ok;
    var base' := base[order[n] := j];
    forall i | 0 <= i < n
      ensures base'[order[i]] == base[order[i]]
    {
    }
  }

  lemma {:induction false} OwnersKept(vs: seq<Vector>, order: seq<int>, base: seq<int>, n: int, check: seq<int>,
                                      high: int, j: int)
    requires Shape(vs, order, base, n) && n < |order| && AllOwned(vs, order, base, n, check, high)
    ensures AllOwned(vs, order, base[order[n] := j], n + 1, check, high)
  {
    hide Vector.Ok;
    var base' := base[order[n] := j];
    forall loc | 0 <= loc < |check| && check[loc] != -1
      ensures Owned(vs, order, base', n + 1, check, loc)
    {
      assert Owned(vs, order, base, n, check, loc);
    }
  }

  /** The last vector, found to be equal to an earlier one, shares its displacement. */
  lemma SharePlaced(vs: seq<Vector>, order: seq<int>, base: seq<int>, n: int, table: seq<int>, check: seq<int>,
                    lowzero: int, high: int, i: int)
    requires Placed(vs, order, base, n, table, check, lowzero, high) && 0 <= i < n < |order|
    requires vs[order[i]] == vs[order[n]]
    ensures Placed(vs, order, base[order[n] := base[order[i]]], n + 1, table, check, lowzero, high)
  {
    var base' := base[order[n] := base[order[i]]];
    assert SharedIfEqual(vs, order, base, n);
    hide Vector.Ok, AllOwned, OthersZero, Stored, Owned;
    forall k | 0 <= k < n && base[order[k]] == base[order[i]]
      ensures vs[order[k]] == vs[order[n]]
    {
    }
    NextBase(vs, order, base, n, base[order[i]]);
    OwnersKept(vs, order, base, n, check, high, base[order[i]]);
    hide SharedIfEqual;
    assert Stored(vs[order[n]], base'[order[n]], table, check, high);
  }

  // ----- The whole table -----

  /** Equal vectors have equal widths. */
  ghost predicate WidthsAgree(vs: seq<Vector>, width: seq<int>) {
    |vs| == |width| && forall i, j :: 0 <= i < |vs| && 0 <= j < |vs| && vs[i] == vs[j] ==> width[i] == width[j]
  }

  /** An earlier vector equal to the given one, among those below `rows`; the order lets
      the search stop at the first vector of another size. */
  method MatchingVector(vs: seq<Vector>, width: seq<int>, order: seq<int>, rows: int, vector: int)
    returns (m: int, ghost p: int)
    requires WidthsAgree(vs, width) && IsOrder(vs, width, order, |vs|) && 0 <= vector < |order|
    requires forall i :: 0 <= i < |vs| ==> |vs[i].from| == |vs[i].to|
    ensures m >= 0 ==> 0 <= p < vector && order[p] == m && vs[m] == vs[order[vector]]
    ensures m < 0 && order[vector] < rows ==> forall k :: 0 <= k < vector ==> vs[order[k]] != vs[order[vector]]
  {
    var i := order[vector];
    if i >= rows {
      return -1, 0;
    }
    var t, w := |vs[i].from|, width[i];
    var prev := vector - 1;
    while prev >= 0
      invariant -1 <= prev < vector
      invariant forall k :: prev < k < vector ==> vs[order[k]] != vs[i]
    {
      var j := order[prev];
      if width[j] != w || |vs[j].from| != t {
        EarlierDiffer(vs, width, order, vector, prev);
        return -1, 0;
      }
      var match_ := true;
      var k := 0;
      while match_ && k < t
        invariant 0 <= k <= t
        invariant match_ ==> forall l :: 0 <= l < k ==> vs[j].from[l] == vs[i].from[l] && vs[j].to[l] == vs[i].to[l]
        invariant !match_ ==> vs[j] != vs[i]
      {
        if vs[j].to[k] != vs[i].to[k] || vs[j].from[k] != vs[i].from[k] {
          match_ := false;
        }
        k := k + 1;
      }
      if match_ {
        assert vs[j].from == vs[i].from && vs[j].to == vs[i].to;
        return j, prev;
      }
      prev := prev - 1;
    }
    return -1, 0;
  }

  /** Before a vector of another size no equal one can come. */
  lemma EarlierDiffer(vs: seq<Vector>, width: seq<int>, order: seq<int>, n: int, prev: int)
    requires WidthsAgree(vs, width) && IsOrder(vs, width, order, |vs|) && 0 <= prev < n < |order|
    requires width[order[prev]] != width[order[n]] || |vs[order[prev]].from| != |vs[order[n]].from|
    ensures forall k :: 0 <= k <= prev ==> vs[order[k]] != vs[order[n]]
  {
    forall k | 0 <= k <= prev
      ensures vs[order[k]] != vs[order[n]]
    {
      assert NotAfter(vs, width, order[prev], order[n]);
      assert k < prev ==> NotAfter(vs, width, order[k], order[prev]);
    }
  }

  /** Packs all vectors, or gives up when the table would grow beyond its limit. */
  method PackTable(vs: seq<Vector>, width: seq<int>, rows: int) returns (t: Tables, base: seq<int>, ok: bool)
    requires WidthsAgree(vs, width) && forall i :: 0 <= i < |vs| ==> vs[i].Ok()
    ensures |base| == |vs| && |t.table| == |t.check| == t.size + 1
    ensures !ok ==> Crowded(vs)
    ensures ok ==> forall v, c, x ::
                     0 <= v < |vs| && c >= 0 ==> (Lookup(t, base[v], c) == Some(x) <==> vs[v].Maps(c, x))
  {
    hide Vector.Ok, Placed, Crowded, NoRoom, Fits;
    var order := SortActions(vs, width);
    OrderUsable(vs, width, order);
    var packer := new Packer(vs, order);
    ok := true;
    forall i | 0 <= i < |vs|
      ensures |vs[i].from| == |vs[i].to|
    {
      VectorSizes(vs[i]);
    }
    var i := 0;
    while i < |order|
      invariant 0 <= i <= |order| && packer.vs == vs && packer.order == order && packer.Valid(i)
      invariant fresh(packer) && fresh(packer.base) && fresh(packer.table) && fresh(packer.check)
    {
      PlacedSizes(vs, order, packer.base[..], i, packer.table[..], packer.check[..], packer.lowzero, packer.high);
      var state, p := MatchingVector(vs, width, order, rows, i);
      var place;
      ghost var b, table, check, lowzero, high := packer.base[..], packer.table[..], packer.check[..], packer.lowzero,
        packer.high;
      if state < 0 {
        place, ok := packer.PackVector(i);
        if !ok {
          FullMeansCrowded(vs, order, b, i, table, check, lowzero, high);
          return Tables([0], [-1], 0), seq(|vs|, _ => 0), false;
        }
      } else {
        SharePlaced(vs, order, b, i, packer.table[..], packer.check[..], packer.lowzero, packer.high, p);
        place := packer.base[state];
      }
      packer.base[order[i]] := place;
      assert packer.base[..] == b[order[i] := place];
      i := i + 1;
    }
    PlacedSizes(vs, order, packer.base[..], i, packer.table[..], packer.check[..], packer.lowzero, packer.high);
    base := packer.base[..];
    t := Tables(packer.table[..packer.high + 1], packer.check[..packer.high + 1], packer.high);
    forall v, c, x | 0 <= v < |vs| && c >= 0
      ensures Lookup(t, base[v], c) == Some(x) <==> vs[v].Maps(c, x)
    {
      PackedLookup(vs, width, order, base, packer.table[..], packer.check[..], packer.lowzero, packer.high, t, v, c, x);
    }
  }

  lemma OrderUsable(vs: seq<Vector>, width: seq<int>, order: seq<int>)
    requires |vs| == |width| && IsOrder(vs, width, order, |vs|) && forall i :: 0 <= i < |vs| ==> vs[i].Ok()
    ensures forall i :: 0 <= i < |order| ==> 0 <= order[i] < |vs| && vs[order[i]].Ok() && vs[order[i]].from != []
    ensures forall i, j :: 0 <= i < j < |order| ==> order[i] != order[j]
  {
    hide Vector.Ok;
  }

  lemma PlacedStored(vs: seq<Vector>, order: seq<int>, base: seq<int>, n: int, table: seq<int>, check: seq<int>,
                     lowzero: int, high: int, i: int)
    requires Placed(vs, order, base, n, table, check, lowzero, high) && 0 <= i < n
    ensures 0 <= order[i] < |vs| == |base| && base[order[i]] != 0
    ensures Stored(vs[order[i]], base[order[i]], table, check, high)
  {
    hide Vector.Ok, Stored, Owned, LowOk, OthersZero, SharedIfEqual, AllOwned;
  }

  lemma PlacedOwned(vs: seq<Vector>, order: seq<int>, base: seq<int>, n: int, table: seq<int>, check: seq<int>,
                    lowzero: int, high: int, loc: int) returns (j: int)
    requires Placed(vs, order, base, n, table, check, lowzero, high) && 0 <= loc < |check| && check[loc] != -1
    ensures 0 <= j < n <= |order| && 0 <= order[j] < |vs| == |base|
    ensures base[order[j]] + check[loc] == loc && check[loc] in vs[order[j]].from
  {
    hide Vector.Ok, Stored, LowOk, OthersZero, SharedIfEqual, AllStored;
    assert Owned(vs, order, base, n, check, loc);
    j :| 0 <= j < n && 0 <= order[j] < |vs| == |base| &&
         base[order[j]] + check[loc] == loc && check[loc] in vs[order[j]].from;
  }

  lemma PlacedEqual(vs: seq<Vector>, order: seq<int>, base: seq<int>, n: int, table: seq<int>, check: seq<int>,
                    lowzero: int, high: int, i: int, j: int)
    requires Placed(vs, order, base, n, table, check, lowzero, high) && 0 <= i < n && 0 <= j < n
    ensures 0 <= order[i] < |vs| == |base| && 0 <= order[j] < |vs|
    ensures base[order[i]] == base[order[j]] ==> vs[order[i]] == vs[order[j]]
  {
    hide Vector.Ok, Stored, LowOk, OthersZero, AllOwned, AllStored;
  }

  lemma PlacedUnused(vs: seq<Vector>, order: seq<int>, base: seq<int>, n: int, table: seq<int>, check: seq<int>,
                     lowzero: int, high: int, v: int)
    requires Placed(vs, order, base, n, table, check, lowzero, high) && 0 <= v < |vs|
    requires forall i :: 0 <= i < n ==> order[i] != v
    ensures |base| == |vs| && base[v] == 0
  {
    hide Vector.Ok, Stored, LowOk, SharedIfEqual, AllOwned, AllStored;
  }

  /** Looking a code up at a vector's displacement gives the vector's own entry, and
      nothing where the vector has none, whoever else's entries lie around. */
  lemma PackedLookup(vs: seq<Vector>, width: seq<int>, order: seq<int>, base: seq<int>, table: seq<int>,
                     check: seq<int>, lowzero: int, high: int, t: Tables, v: int, c: int, x: int)
    requires |vs| == |width| == |base| && IsOrder(vs, width, order, |vs|)
    requires Placed(vs, order, base, |order|, table, check, lowzero, high) && |table| == |check| && 0 <= high < |check|
    requires t == Tables(table[..high + 1], check[..high + 1], high)
    requires 0 <= v < |vs| && c >= 0
    ensures Lookup(t, base[v], c) == Some(x) <==> vs[v].Maps(c, x)
  {
    hide Placed, NotAfter;
    if vs[v].from == [] {
      PlacedUnused(vs, order, base, |order|, table, check, lowzero, high, v);
    } else {
      assert v in order;
      var i :| 0 <= i < |order| && order[i] == v;
      hide IsOrder;
      PlacedStored(vs, order, base, |order|, table, check, lowzero, high, i);
      if vs[v].Maps(c, x) {
        var k :| 0 <= k < |vs[v].from| && vs[v].from[k] == c && vs[v].to[k] == x;
      }
      if Lookup(t, base[v], c) == Some(x) {
        FoundIsOwn(vs, order, base, table, check, lowzero, high, i, c);
      }
    }
  }

  /** An entry found under code `c` at the displacement of a vector is the vector's own:
      its owner has the same displacement and so is the same vector. */
  lemma FoundIsOwn(vs: seq<Vector>, order: seq<int>, base: seq<int>, table: seq<int>, check: seq<int>,
                   lowzero: int, high: int, i: int, c: int)
    requires Placed(vs, order, base, |order|, table, check, lowzero, high) && |table| == |check|
    requires 0 <= i < |order| && c >= 0 && 0 <= order[i] < |vs| == |base|
    requires 0 <= base[order[i]] + c < |check| && check[base[order[i]] + c] == c
    ensures vs[order[i]].Maps(c, table[base[order[i]] + c])
  {
    hide Placed;
    var loc := base[order[i]] + c;
    var j := PlacedOwned(vs, order, base, |order|, table, check, lowzero, high, loc);
    PlacedEqual(vs, order, base, |order|, table, check, lowzero, high, i, j);
    var k :| 0 <= k < |vs[order[i]].from| && vs[order[i]].from[k] == c;
    PlacedStored(vs, order, base, |order|, table, check, lowzero, high, i);
  }
}
