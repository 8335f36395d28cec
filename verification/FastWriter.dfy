/** The writer of the fast format (src/runtime/extern.c): it copies the objects one after another
    and scans the copies, as a copying collector does. */
module FastWriter {
  import opened ExternTables
  import opened FastFormat

  const INITIAL_EXTERN_SIZE := 4096

  /** The table of objects agrees with where they lie. */
  ghost predicate TableOk(m: Mem, t: seq<int>, ws: int, contents: map<int, int>) {
    && (forall a :: a in contents <==> a in t)
    && forall a :: a in t ==> contents[a] == ws * (Pos(m, t, Index(t, a)) + 1)
  }

  lemma TableAppend(m: Mem, t: seq<int>, ws: int, contents: map<int, int>, a: int)
    requires TableOk(m, t, ws, contents) && a !in t
    ensures TableOk(m, t + [a], ws, contents[a := ws * (Pos(m, t, |t|) + 1)])
  {
    forall b | b in t + [a]
      ensures Pos(m, t + [a], Index(t + [a], b)) == if b == a then Pos(m, t, |t|) else Pos(m, t, Index(t, b))
    {
      IndexPrefix(t, a, b);
      PosPrefix(m, t, a, if b in t then Index(t, b) else |t|);
    }
  }

  lemma WordFacts(m: Mem, t: seq<int>, ws: int, v: int)
    requires MemOk(m) && WordOk(m, v)
    ensures IsLong(v) || (v in m && v > 0)
    ensures IsLong(v) ==> CodeOf(m, t, ws, v) == v && Settled(m, t, v)
    ensures !IsLong(v) && m[v].fields == [] ==> CodeOf(m, t, ws, v) == 4 * m[v].tag + 2 && Settled(m, t, v)
  {
    if !IsLong(v) {
      assert ObjectOk(m, v);
    }
  }

  /** The copies of the objects met so far and the table of them. */
  class Copier {
    const ws: int
    var block: array<int>
    var pos: int
    var table: ExternTable
    const m: Mem
    ghost var t: seq<int>

    ghost function Repr(): set<object>
      reads this, table
    {
      {this, block, table, table.obj, table.ofs}
    }

    ghost predicate Valid()
      reads this, block, table, table.obj, table.ofs
    {
      && 0 <= pos <= block.Length && block.Length > 0 && block != table.obj && block != table.ofs
      && table.Valid() && MemOk(m) && NoDup(t) && TableOk(m, t, ws, table.contents)
      && forall a :: a in t ==> IsObject(m, a)
    }

    /** What has been written. */
    ghost function Out(): seq<int>
      reads this, block
      requires 0 <= pos <= block.Length
    {
      block[..pos]
    }

    constructor (ws: int, m: Mem)
      requires MemOk(m)
      ensures Valid() && pos == 0 && t == [] && this.ws == ws && this.m == m
      ensures fresh(Repr())
    {
      this.ws := ws;
      this.m := m;
      block := new int[INITIAL_EXTERN_SIZE];
      pos := 0;
      table := new ExternTable(INITIAL_EXTERN_TABLE_SIZE);
      t := [];
    }

    /** The block of twice the size has the same contents. */
    method ResizeResult()
      requires 0 <= pos <= block.Length && block.Length > 0
      modifies this`block
      ensures fresh(block) && block.Length == 2 * old(block.Length) && block[..pos] == old(block[..pos])
    {
      var from := block;
      var bigger := new int[2 * from.Length];
      var i := 0;
      while i < from.Length
        invariant 0 <= i <= from.Length && bigger[..i] == from[..i]
      {
        bigger[i] := from[i];
        i := i + 1;
      }
      assert bigger[..pos] == bigger[..i][..pos];
      block := bigger;
    }

    /** Makes room for `n` more words. */
    method Reserve(n: int)
      requires 0 <= pos <= block.Length && block.Length > 0 && n >= 0
      modifies this`block
      ensures (block == old(block) || fresh(block)) && pos + n < block.Length && block[..pos] == old(block[..pos])
    {
      while pos + n >= block.Length
        invariant 0 <= pos <= block.Length && block.Length > 0
        invariant (block == old(block) || fresh(block)) && block[..pos] == old(block[..pos])
        decreases pos + n - block.Length
      {
        ResizeResult();
      }
    }

    /** Copies an object with its header; its fields are replaced later. */
    method Copy(a: int)
      requires a in m && 0 <= pos && pos + 1 + |m[a].fields| < block.Length
      modifies this`pos, block
      ensures pos == old(pos) + 1 + |m[a].fields| <= block.Length
      ensures block[..pos] == old(block[..pos]) + [MakeHeader(|m[a].fields|, m[a].tag, BLACK)] + m[a].fields
    {
      hide MakeHeader;
      var size, q := |m[a].fields|, pos + 1;
      block[pos] := MakeHeader(size, m[a].tag, BLACK);
      ghost var start := block[..q];
      var i := 0;
      while i < size
        invariant 0 <= i <= size && block[..q + i] == start + m[a].fields[..i] && pos == q - 1
      {
        block[q + i] := m[a].fields[i];
        i := i + 1;
      }
      assert m[a].fields[..size] == m[a].fields;
      pos := q + size;
    }

    /** The code of a word; an object that has not been met is copied. */
    method Emit(v: int, ghost n: int, ghost j: int) returns (res: int)
      requires Valid() && WordOk(m, v) && Laid(m, t, ws, Out(), n, j) && n <= |t| && (n == |t| ==> j == 0)
      modifies Repr()
      ensures Valid() && Laid(m, t, ws, Out(), n, j) && fresh(Repr() - old(Repr()))
      ensures Settled(m, t, v) && res == CodeOf(m, t, ws, v)
      ensures t == if IsObject(m, v) && v !in old(t) then old(t) + [v] else old(t)
    {
      hide MemOk, Laid, TableOk, MakeHeader, Pos, Index, NoDup, CodeOf, Settled, ExternTable.Valid;
      WordFacts(m, t, ws, v);
      if IsLong(v) {
        return v;
      }
      if m[v].fields == [] {
        return 4 * m[v].tag + 2;
      }
      LaidLength(m, t, ws, Out(), n, j);
      res := ws * (pos + 1);
      ghost var before, contents := Out(), table.contents;
      InTable(m, t, ws, contents, v);
      var found, d := table.Enter(v, res);
      assert Out() == before;
      if found {
        return d;
      }
      Append(v, n, j, contents);
    }

    /** Copies an object that has just been entered in the table. */
    method Append(v: int, ghost n: int, ghost j: int, ghost contents: map<int, int>)
      requires 0 <= pos <= block.Length && block.Length > 0 && block != table.obj && block != table.ofs
      requires table.Valid() && MemOk(m) && NoDup(t) && forall a :: a in t ==> IsObject(m, a)
      requires IsObject(m, v) && v !in t && Laid(m, t, ws, Out(), n, j) && n <= |t| && (n == |t| ==> j == 0)
      requires TableOk(m, t, ws, contents) && table.contents == contents[v := ws * (pos + 1)]
      modifies this`block, this`pos, this`t, block
      ensures Valid() && Laid(m, t, ws, Out(), n, j) && (block == old(block) || fresh(block))
      ensures t == old(t) + [v] && Settled(m, t, v) && ws * (old(pos) + 1) == CodeOf(m, t, ws, v)
    {
      hide MemOk, Laid, TableOk, MakeHeader, Pos, Index, CodeOf, Settled, ExternTable.Valid;
      ghost var before := Out();
      LaidLength(m, t, ws, before, n, j);
      Reserve(1 + |m[v].fields|);
      Copy(v);
      TableAppend(m, t, ws, contents, v);
      LaidAppend(m, t, ws, before, n, j, v);
      LastCode(m, t, ws, v);
      t := t + [v];
    }

    /** All objects so far can be reached from the root, which comes first and has the code `res`. */
    ghost predicate From(root: int, res: int)
      reads this
    {
      && (forall a :: a in t ==> Reached(m, root, a)) && (t != [] ==> t[0] == root)
      && Settled(m, t, root) && res == CodeOf(m, t, ws, root)
    }

    /** Copies all that can be reached from the root, unless something in it cannot be written. */
    method EmitAll(root: int) returns (res: int, ok: bool)
      requires Valid() && t == [] && pos == 0 && WordOk(m, root)
      modifies Repr()
      ensures ok <==> forall a :: Reached(m, root, a) ==> !RefusedAt(m, a)
      ensures ok ==> Valid() && IsImage(m, root, ws, Out(), t) && res == CodeOf(m, t, ws, root)
    {
      hide MemOk, Laid, TableOk, MakeHeader, CodeOf, Settled, Wosize, Tag, Reached, Pos, NoDup, ExternTable.Valid,
           IsImage, IsObject, RefusedAt;
      NothingLaid(m, ws, Out());
      var readPos := 0;
      res := Emit(root, 0, 0);
      ghost var n := 0;
      if IsObject(m, root) {
        ReachedRoot(m, root);
      }
      FirstPos(m, t);
      while readPos < pos
        invariant Valid() && fresh(Repr() - old(Repr()))
        invariant 0 <= n <= |t| && readPos == Pos(m, t, n) && Laid(m, t, ws, Out(), n, 0)
        invariant From(root, res) && NoneRefused(m, t, n)
        decreases |m| - n
      {
        NextHeader(m, t, ws, Out(), n, pos);
        TableSize(m, t);
        assert block[readPos] == Out()[readPos];
        var hd := block[readPos];
        if Refused(Tag(hd)) {
          assert Reached(m, root, t[n]);
          IsRefused(m, t[n]);
          return res, false;
        }
        readPos := EmitObject(root, res, readPos, hd, n);
        n := n + 1;
      }
      LaidLength(m, t, ws, Out(), n, 0);
      AllDone(m, t, ws, Out(), n, pos);
      ImageDone(m, root, ws, Out(), t);
      ok := true;
    }

    /** Goes past an object and replaces its fields, if they are values. */
    method EmitObject(ghost root: int, ghost res: int, readPos0: int, hd: int, ghost n: int) returns (readPos: int)
      requires Valid() && 0 <= n < |t| && readPos0 == Pos(m, t, n) && Laid(m, t, ws, Out(), n, 0) && t[n] in m
      requires Wosize(hd) == |m[t[n]].fields| && Tag(hd) == m[t[n]].tag && !Refused(m[t[n]].tag)
      requires From(root, res) && NoneRefused(m, t, n)
      modifies Repr()
      ensures Valid() && fresh(Repr() - old(Repr())) && old(t) <= t && Laid(m, t, ws, Out(), n + 1, 0)
      ensures readPos == Pos(m, t, n + 1) && From(root, res) && NoneRefused(m, t, n + 1)
    {
      hide MemOk, Laid, TableOk, MakeHeader, CodeOf, Settled, Wosize, Tag, Reached, Pos, NoDup, ExternTable.Valid;
      var sz := Wosize(hd);
      if IsOpaque(Tag(hd)) {
        readPos := readPos0 + 1 + sz;
        LaidNext(m, t, ws, Out(), n, 0);
      } else {
        readPos := EmitFields(root, res, readPos0 + 1, sz, n);
      }
      PosExtends(m, old(t), t, n);
      PosNext(m, t, n);
    }

    /** Replaces the fields of the object with number `n` by their codes. */
    method EmitFields(ghost root: int, ghost res: int, readPos0: int, sz: int, ghost n: int) returns (readPos: int)
      requires Valid() && 0 <= n < |t| && readPos0 == Pos(m, t, n) + 1 && Laid(m, t, ws, Out(), n, 0)
      requires t[n] in m && HasValues(m[t[n]].tag) && sz == |m[t[n]].fields| && From(root, res)
      modifies Repr()
      ensures Valid() && fresh(Repr() - old(Repr())) && old(t) <= t && Laid(m, t, ws, Out(), n + 1, 0)
      ensures readPos == readPos0 + sz && From(root, res)
    {
      hide MemOk, Laid, TableOk, MakeHeader, CodeOf, Settled, Reached, Pos, NoDup, ExternTable.Valid, From;
      readPos := readPos0;
      var j := 0;
      while j < sz
        invariant 0 <= j <= sz && readPos == readPos0 + j && old(t) <= t
        invariant Valid() && fresh(Repr() - old(Repr())) && 0 <= pos <= block.Length
        invariant Laid(m, t, ws, Out(), n, j) && From(root, res) && readPos0 == Pos(m, t, n) + 1
      {
        EmitField(root, res, readPos, n, j);
        readPos := readPos + 1;
        j := j + 1;
      }
      LaidNext(m, t, ws, Out(), n, j);
    }

    /** Replaces a field by its code. */
    method EmitField(ghost root: int, ghost res: int, readPos: int, ghost n: int, ghost j: int)
      requires Valid() && 0 <= n < |t| && readPos == Pos(m, t, n) + 1 + j && Laid(m, t, ws, Out(), n, j)
      requires t[n] in m && HasValues(m[t[n]].tag) && 0 <= j < |m[t[n]].fields| && From(root, res)
      modifies Repr()
      ensures Valid() && fresh(Repr() - old(Repr())) && old(t) <= t && Laid(m, t, ws, Out(), n, j + 1)
      ensures Pos(m, t, n) == old(Pos(m, t, n)) && From(root, res)
    {
      hide MemOk, Laid, TableOk, MakeHeader, CodeOf, Settled, Reached, Pos, NoDup, ExternTable.Valid;
      ghost var t0, w := t, m[t[n]].fields[j];
      FieldWord(m, t, ws, Out(), n, j);
      assert block[readPos] == Out()[readPos];
      var ofs := Emit(block[readPos], n, j);
      CodeExtends(m, t0, t, ws, root);
      if IsObject(m, w) {
        assert Points(m, t[n], w);
        ReachedNext(m, root, t[n], w);
      }
      PosExtends(m, t0, t, n);
      LaidField(m, t, ws, Out(), n, j);
      ghost var out := Out();
      block[readPos] := ofs;
      assert Out() == out[readPos := ofs];
    }
  }

  lemma FirstPos(m: Mem, t: seq<int>)
    ensures Pos(m, t, 0) == 0
  {
  }

  /** A closure, an abstract or a final value. */
  ghost predicate RefusedAt(m: Mem, a: int) {
    a in m && (m[a].tag == 249 || m[a].tag == 252 || m[a].tag == 255)
  }

  ghost predicate NoneRefused(m: Mem, t: seq<int>, n: int) {
    forall k :: 0 <= k < n && k < |t| && t[k] in m ==> !Refused(m[t[k]].tag)
  }

  lemma InTable(m: Mem, t: seq<int>, ws: int, contents: map<int, int>, v: int)
    requires TableOk(m, t, ws, contents)
    ensures v in contents <==> v in t
    ensures v in t && v in m && !IsLong(v) && m[v].fields != [] ==> contents[v] == CodeOf(m, t, ws, v)
    ensures v in t && v in m ==> Settled(m, t, v)
  {
  }

  lemma LaidLength(m: Mem, t: seq<int>, ws: int, out: seq<int>, n: int, j: int)
    requires Laid(m, t, ws, out, n, j)
    ensures |out| == Pos(m, t, |t|)
  {
  }

  lemma LastCode(m: Mem, t: seq<int>, ws: int, v: int)
    requires v !in t && IsObject(m, v)
    ensures Settled(m, t + [v], v) && CodeOf(m, t + [v], ws, v) == ws * (Pos(m, t, |t|) + 1)
  {
    IndexPrefix(t, v, v);
    PosPrefix(m, t, v, |t|);
  }

  lemma NothingLaid(m: Mem, ws: int, out: seq<int>)
    requires out == []
    ensures Laid(m, [], ws, out, 0, 0)
  {
  }

  /** Before the end there is another object, and its header is there. */
  lemma NextHeader(m: Mem, t: seq<int>, ws: int, out: seq<int>, n: int, pos: int)
    requires Laid(m, t, ws, out, n, 0) && 0 <= n <= |t| && Pos(m, t, n) < pos == |out|
    requires MemOk(m) && forall a :: a in t ==> IsObject(m, a)
    ensures n < |t| && t[n] in m
    ensures Wosize(out[Pos(m, t, n)]) == |m[t[n]].fields| && Tag(out[Pos(m, t, n)]) == m[t[n]].tag
  {
    hide MakeHeader, Wosize, Tag;
    assert ObjectLaid(m, t, ws, out, n, 0, n);
    assert ObjectOk(m, t[n]);
    HeaderParts(|m[t[n]].fields|, m[t[n]].tag, BLACK);
  }

  lemma TableSize(m: Mem, t: seq<int>)
    requires NoDup(t) && forall a :: a in t ==> IsObject(m, a)
    ensures |t| <= |m|
  {
    hide IsObject;
    var s := set a | a in t;
    Distinct(t);
    assert s <= m.Keys by {
      forall a | a in t
        ensures a in m
      {
        assert IsObject(m, a);
        ObjectIn(m, a);
      }
    }
    assert m.Keys == s + (m.Keys - s);
  }

  lemma ObjectIn(m: Mem, a: int)
    requires IsObject(m, a)
    ensures a in m
  {
  }

  lemma {:induction false} Distinct(t: seq<int>)
    requires NoDup(t)
    ensures |set a | a in t| == |t|
    decreases |t|
  {
    if t != [] {
      var r := t[..|t| - 1];
      Distinct(r);
      assert (set a | a in t) == (set a | a in r) + {t[|t| - 1]};
    }
  }

  lemma PosNext(m: Mem, t: seq<int>, n: int)
    requires 0 <= n < |t| && t[n] in m
    ensures Pos(m, t, n + 1) == Pos(m, t, n) + 1 + |m[t[n]].fields|
  {
  }

  lemma {:induction false} PosExtends(m: Mem, t: seq<int>, t': seq<int>, k: int)
    requires t <= t' && 0 <= k <= |t|
    ensures Pos(m, t', k) == Pos(m, t, k)
    decreases k
  {
    if k > 0 {
      PosExtends(m, t, t', k - 1);
    }
  }

  lemma {:induction false} CodeExtends(m: Mem, t: seq<int>, t': seq<int>, ws: int, w: int)
    requires t <= t' && Settled(m, t, w)
    ensures Settled(m, t', w) && CodeOf(m, t', ws, w) == CodeOf(m, t, ws, w)
    decreases |t'|
  {
    hide CodeOf, Settled;
    if |t| < |t'| {
      var r := t'[..|t'| - 1];
      CodeExtends(m, t, r, ws, w);
      CodeKept(m, r, ws, t'[|t'| - 1], w);
      assert r + [t'[|t'| - 1]] == t';
    } else {
      assert t == t';
    }
  }

  /** The next field has not been replaced. */
  lemma FieldWord(m: Mem, t: seq<int>, ws: int, out: seq<int>, n: int, j: int)
    requires Laid(m, t, ws, out, n, j) && MemOk(m) && 0 <= n < |t| && t[n] in m && HasValues(m[t[n]].tag)
    requires 0 <= j < |m[t[n]].fields|
    ensures Pos(m, t, n) + 1 + j < |out| && out[Pos(m, t, n) + 1 + j] == m[t[n]].fields[j]
    ensures WordOk(m, m[t[n]].fields[j])
  {
    hide MakeHeader, CodeOf, Settled;
    assert ObjectLaid(m, t, ws, out, n, j, n);
    assert ObjectOk(m, t[n]);
  }

  lemma AllDone(m: Mem, t: seq<int>, ws: int, out: seq<int>, n: int, pos: int)
    requires Laid(m, t, ws, out, n, 0) && 0 <= n <= |t| && Pos(m, t, n) >= pos == |out|
    ensures n == |t|
  {
    if n < |t| {
      PosGrows(m, t, n, |t|);
    }
  }

  /** When all objects are done, they are those that can be reached. */
  lemma AllClosed(m: Mem, root: int, t: seq<int>, ws: int, out: seq<int>)
    requires Laid(m, t, ws, out, |t|, 0) && Settled(m, t, root)
    ensures forall a :: Reached(m, root, a) ==> a in t
  {
    hide MakeHeader, CodeOf;
    forall a, b {:trigger Points(m, a, b)} | a in t && Points(m, a, b)
      ensures b in t
    {
      var k := Index(t, a);
      assert ObjectLaid(m, t, ws, out, |t|, 0, k);
      var i :| 0 <= i < |m[a].fields| && m[a].fields[i] == b;
      assert Settled(m, t, m[a].fields[i]);
    }
    forall a | Reached(m, root, a)
      ensures a in t
    {
      var p :| WalkFromTo(m, p, root, a);
      WalkInside(m, p, t);
    }
  }

  lemma IsRefused(m: Mem, a: int)
    requires a in m && Refused(m[a].tag)
    ensures RefusedAt(m, a)
  {
  }

  lemma ImageDone(m: Mem, root: int, ws: int, out: seq<int>, t: seq<int>)
    requires NoDup(t) && Laid(m, t, ws, out, |t|, 0) && Settled(m, t, root) && NoneRefused(m, t, |t|)
    requires forall a :: a in t ==> Reached(m, root, a) && IsObject(m, a)
    requires t != [] ==> t[0] == root
    ensures IsImage(m, root, ws, out, t) && forall a :: Reached(m, root, a) ==> !RefusedAt(m, a)
  {
    hide Laid, NoDup, Settled, Reached;
    AllClosed(m, root, t, ws, out);
    forall a | a in t
      ensures a in m && !Refused(m[a].tag)
    {
      var k := Index(t, a);
      assert IsObject(m, t[k]);
    }
  }
}
