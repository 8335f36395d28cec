/** The reader of the fast format (src/runtime/intern.c): offsets become pointers in place. What
    was written comes back as the same graph, except for weak arrays that hold objects or atoms. */
module FastReader {
  import opened FastFormat

  type Atoms = int -> int

  /** The value for a code: an offset from `start`, the tag of an atom, or an integer. */
  function Adjust(w: int, start: int, atom: Atoms): int {
    if w % 4 == 0 then start + w else if w % 4 == 2 then atom(w / 4) else w
  }

  /** The headers of a block of objects are at `hs`, whose last element is its size. */
  ghost predicate Headers(words: seq<int>, hs: seq<int>) {
    && hs != [] && hs[0] == 0 && hs[|hs| - 1] == |words|
    && forall k {:trigger HeaderAt(words, hs, k)} :: 0 <= k < |hs| - 1 ==> HeaderAt(words, hs, k)
  }

  ghost predicate HeaderAt(words: seq<int>, hs: seq<int>, k: int)
    requires 0 <= k < |hs| - 1
  {
    0 <= hs[k] < hs[k + 1] <= |words| && hs[k + 1] == hs[k] + 1 + Wosize(words[hs[k]])
  }

  ghost predicate ObjectAdjusted(words: seq<int>, words': seq<int>, h: int, start: int, color: int, atom: Atoms) {
    && 0 <= h < |words| == |words'|
    && words'[h] == MakeHeader(Wosize(words[h]), Tag(words[h]), color)
    && forall i {:trigger words'[i]} :: h < i <= h + Wosize(words[h]) && i < |words| ==>
         words'[i] == if Tag(words[h]) >= NO_SCAN_TAG then words[i] else Adjust(words[i], start, atom)
  }

  /** The first `n` objects are adjusted, and what lies behind them is as it was. */
  ghost predicate Adjusted(words: seq<int>, words': seq<int>, hs: seq<int>, start: int, color: int, atom: Atoms, n: int)
    requires Headers(words, hs) && 0 <= n < |hs|
  {
    && |words'| == |words|
    && (forall k {:trigger hs[k]} :: 0 <= k < n ==> ObjectAdjusted(words, words', hs[k], start, color, atom))
    && (forall i :: 0 <= i < |words| && hs[n] <= i ==> words'[i] == words[i])
  }

  lemma {:induction false} HeadersAscend(words: seq<int>, hs: seq<int>, k: int, l: int)
    requires Headers(words, hs) && 0 <= k <= l < |hs|
    ensures 0 <= hs[k] <= hs[l] <= |words| && (k < l ==> hs[k] < hs[l] && hs[k] + 1 + Wosize(words[hs[k]]) <= hs[l])
    decreases l - k
  {
    if k < l {
      assert HeaderAt(words, hs, k);
      HeadersAscend(words, hs, k + 1, l);
    } else if k < |hs| - 1 {
      assert HeaderAt(words, hs, k);
    } else if k > 0 {
      assert HeaderAt(words, hs, k - 1);
    }
  }

  method AdjustPointers(p: array<int>, start: int, color: int, atom: Atoms, ghost hs: seq<int>)
    requires Headers(p[..], hs)
    modifies p
    ensures Adjusted(old(p[..]), p[..], hs, start, color, atom, |hs| - 1)
  {
    hide Adjusted, Wosize, Tag, MakeHeader;
    ghost var words := p[..];
    var i := 0;
    ghost var n := 0;
    NoneAdjusted(words, hs, start, color, atom);
    while i < p.Length
      invariant 0 <= n < |hs| && i == hs[n] && Adjusted(words, p[..], hs, start, color, atom, n)
      decreases |hs| - n
    {
      i := AdjustObject(p, i, start, color, atom, words, hs, n);
      n := n + 1;
    }
    HeadersAscend(words, hs, n, |hs| - 1);
  }

  lemma NoneAdjusted(words: seq<int>, hs: seq<int>, start: int, color: int, atom: Atoms)
    requires Headers(words, hs)
    ensures Adjusted(words, words, hs, start, color, atom, 0)
  {
  }

  /** Adjusts one object. */
  method AdjustObject(p: array<int>, i0: int, start: int, color: int, atom: Atoms, ghost words: seq<int>,
                      ghost hs: seq<int>, ghost n: int) returns (i: int)
    requires Headers(words, hs) && 0 <= n < |hs| - 1 && i0 == hs[n]
    requires Adjusted(words, p[..], hs, start, color, atom, n)
    modifies p
    ensures i == hs[n + 1] && Adjusted(words, p[..], hs, start, color, atom, n + 1)
  {
    hide Wosize, Tag, MakeHeader, Adjust;
    ghost var before := p[..];
    assert HeaderAt(words, hs, n);
    var hd := p[i0];
    assert hd == words[i0];
    var sz, tag := Wosize(hd), Tag(hd);
    p[i0] := MakeHeader(sz, tag, color);
    i := i0 + 1;
    if tag >= NO_SCAN_TAG {
      i := i + sz;
    } else {
      while sz > 0
        invariant 0 <= sz && i == i0 + 1 + Wosize(hd) - sz && i0 < i <= p.Length
        invariant p[..i0] == before[..i0] && p[i0] == MakeHeader(Wosize(hd), tag, color)
        invariant forall j :: i0 < j < i ==> p[j] == Adjust(words[j], start, atom)
        invariant forall j :: i <= j < p.Length ==> p[j] == words[j]
      {
        p[i] := Adjust(p[i], start, atom);
        i := i + 1;
        sz := sz - 1;
      }
    }
    NextAdjusted(words, before, p[..], hs, start, color, atom, n);
  }

  lemma NextAdjusted(words: seq<int>, before: seq<int>, words': seq<int>, hs: seq<int>, start: int, color: int,
                     atom: Atoms, n: int)
    requires Headers(words, hs) && 0 <= n < |hs| - 1 && Adjusted(words, before, hs, start, color, atom, n)
    requires |words'| == |words| && HeaderAt(words, hs, n) && words'[..hs[n]] == before[..hs[n]]
    requires ObjectAdjusted(words, words', hs[n], start, color, atom)
    requires forall j :: hs[n + 1] <= j < |words| ==> words'[j] == words[j]
    ensures Adjusted(words, words', hs, start, color, atom, n + 1)
  {
    hide Wosize, Tag, MakeHeader, Adjust;
    forall k {:trigger hs[k]} | 0 <= k < n + 1
      ensures ObjectAdjusted(words, words', hs[k], start, color, atom)
    {
      if k < n {
        HeadersAscend(words, hs, k, n);
        assert ObjectAdjusted(words, before, hs[k], start, color, atom);
        assert forall i :: 0 <= i < hs[n] ==> words'[i] == words'[..hs[n]][i] == before[i];
      }
    }
  }

  // ----- The graph that has been read -----

  /** The headers of an image. */
  ghost function HeadersOf(m: Mem, t: seq<int>): (hs: seq<int>)
    ensures |hs| == |t| + 1
  {
    seq(|t| + 1, k requires 0 <= k <= |t| => Pos(m, t, k))
  }

  lemma ImageHeaders(m: Mem, root: int, ws: int, out: seq<int>, t: seq<int>)
    requires MemOk(m) && IsImage(m, root, ws, out, t)
    ensures Headers(out, HeadersOf(m, t))
  {
    hide Wosize, Tag, MakeHeader, CodeOf, Settled, Reached;
    var hs := HeadersOf(m, t);
    forall k {:trigger HeaderAt(out, hs, k)} | 0 <= k < |t|
      ensures HeaderAt(out, hs, k)
    {
      ImageHeader(m, root, ws, out, t, k);
    }
  }

  lemma ImageHeader(m: Mem, root: int, ws: int, out: seq<int>, t: seq<int>, k: int)
    requires MemOk(m) && IsImage(m, root, ws, out, t) && 0 <= k < |t|
    ensures t[k] in m && 0 <= m[t[k]].tag < 256 && ObjectLaid(m, t, ws, out, |t|, 0, k)
    ensures 0 <= Pos(m, t, k) < Pos(m, t, k + 1) <= |out|
    ensures Pos(m, t, k + 1) == Pos(m, t, k) + 1 + |m[t[k]].fields|
    ensures Wosize(out[Pos(m, t, k)]) == |m[t[k]].fields| && Tag(out[Pos(m, t, k)]) == m[t[k]].tag
  {
    hide Wosize, Tag, MakeHeader, CodeOf, Settled, Reached;
    assert ObjectLaid(m, t, ws, out, |t|, 0, k);
    assert ObjectOk(m, t[k]);
    HeaderParts(|m[t[k]].fields|, m[t[k]].tag, BLACK);
  }

  /** Where the copies of the objects are. */
  ghost function Placement(m: Mem, t: seq<int>, start: int, ws: int): map<int, int> {
    map a | a in t :: start + ws * (Pos(m, t, Index(t, a)) + 1)
  }

  /** The value that stands for `w` among the copies. */
  ghost function Image(m: Mem, f: map<int, int>, atom: Atoms, w: int): int {
    if IsLong(w) then w
    else if w in m && m[w].fields == [] then atom(m[w].tag)
    else if w in f then f[w]
    else 0
  }

  /** The object at `f[a]` is a copy of that at `a`. */
  ghost predicate CopiedAt(m: Mem, words: seq<int>, start: int, ws: int, color: int, atom: Atoms, f: map<int, int>,
                           a: int)
    requires a in f && ws > 0
  {
    var p := (f[a] - start) / ws - 1;
    && a in m && f[a] == start + ws * (p + 1) && 0 <= p && p + 1 + |m[a].fields| <= |words|
    && words[p] == MakeHeader(|m[a].fields|, m[a].tag, color)
    && forall i {:trigger FieldCopied(m, words, p, atom, f, m[a], i)} :: 0 <= i < |m[a].fields| ==>
         FieldCopied(m, words, p, atom, f, m[a], i)
  }

  /** Field `i` of `o` has its image in the object whose header is at index `p`. */
  ghost predicate FieldCopied(m: Mem, words: seq<int>, p: int, atom: Atoms, f: map<int, int>, o: Object, i: int)
    requires 0 <= p && 0 <= i < |o.fields| && p + 1 + |o.fields| <= |words|
  {
    words[p + 1 + i] == if HasValues(o.tag) then Image(m, f, atom, o.fields[i]) else o.fields[i]
  }

  /** By `f`, the objects in `words` are a copy of what can be reached from `root`: one for each,
      with the same tags, sizes and contents, and the root first. */
  ghost predicate IsCopy(m: Mem, root: int, words: seq<int>, start: int, ws: int, color: int, atom: Atoms,
                         f: map<int, int>)
    requires ws > 0
  {
    && (forall a :: a in f <==> Reached(m, root, a))
    && (forall a, b :: a in f && b in f && f[a] == f[b] ==> a == b)
    && (forall a :: a in f ==> CopiedAt(m, words, start, ws, color, atom, f, a))
    && (root in f ==> f[root] == start + ws)
  }

  /** Weak arrays hold integers only. */
  ghost predicate WeakOk(m: Mem, root: int) {
    forall a :: Reached(m, root, a) ==> WeakOkAt(m, a)
  }

  ghost predicate WeakOkAt(m: Mem, a: int) {
    a in m && m[a].tag == WEAK_TAG ==> forall i :: 0 <= i < |m[a].fields| ==> IsLong(m[a].fields[i])
  }

  /** Atoms have addresses of words. */
  ghost predicate AtomsOk(atom: Atoms) {
    forall tag :: 0 <= tag < 256 ==> atom(tag) % 4 == 0
  }

  lemma PlaceOf(m: Mem, t: seq<int>, start: int, ws: int, k: int)
    requires NoDup(t) && 0 <= k < |t| && (ws == 4 || ws == 8)
    ensures t[k] in Placement(m, t, start, ws)
    ensures Placement(m, t, start, ws)[t[k]] == start + ws * (Pos(m, t, k) + 1)
    ensures (Placement(m, t, start, ws)[t[k]] - start) / ws - 1 == Pos(m, t, k)
  {
    IndexAt(t, k);
  }

  /** A code that has been adjusted, and one that has not. */
  lemma CodeMeans(m: Mem, t: seq<int>, start: int, ws: int, atom: Atoms, w: int)
    requires Settled(m, t, w) && (ws == 4 || ws == 8) && start > 0 && AtomsOk(atom)
    requires w in m ==> 0 <= m[w].tag < 256
    ensures var f := Placement(m, t, start, ws);
            && Adjust(CodeOf(m, t, ws, w), start, atom) == Image(m, f, atom, w)
            && (CodeOf(m, t, ws, w) == Image(m, f, atom, w) <==> IsLong(w))
  {
    hide Pos, Index;
    if w in t {
      Multiple(ws, Pos(m, t, Index(t, w)) + 1);
    }
  }

  lemma Multiple(ws: int, q: int)
    requires ws == 4 || ws == 8
    ensures ws * q % 4 == 0
  {
  }

  lemma WordIs(m: Mem, root: int, ws: int, out: seq<int>, t: seq<int>, words: seq<int>, start: int, color: int,
               atom: Atoms, k: int, i: int)
    requires MemOk(m) && IsImage(m, root, ws, out, t) && Headers(out, HeadersOf(m, t)) && (ws == 4 || ws == 8)
    requires Adjusted(out, words, HeadersOf(m, t), start, color, atom, |t|) && start > 0 && AtomsOk(atom)
    requires 0 <= k < |t| && t[k] in m && 0 <= i < |m[t[k]].fields|
    ensures Pos(m, t, k) + 1 + i < |words|
    ensures var o, f, w := m[t[k]], Placement(m, t, start, ws), words[Pos(m, t, k) + 1 + i];
            && (!HasValues(o.tag) ==> w == o.fields[i])
            && (HasValues(o.tag) && o.tag != WEAK_TAG ==> w == Image(m, f, atom, o.fields[i]))
            && (o.tag == WEAK_TAG ==> (w == Image(m, f, atom, o.fields[i]) <==> IsLong(o.fields[i])))
  {
    hide Wosize, Tag, MakeHeader, CodeOf, Settled, Adjust, Image, AtomsOk, Reached;
    ImageHeader(m, root, ws, out, t, k);
    assert HeadersOf(m, t)[k] == Pos(m, t, k);
    assert ObjectAdjusted(out, words, Pos(m, t, k), start, color, atom);
    var w := m[t[k]].fields[i];
    assert words[Pos(m, t, k) + 1 + i] == if m[t[k]].tag >= NO_SCAN_TAG then out[Pos(m, t, k) + 1 + i]
                                          else Adjust(out[Pos(m, t, k) + 1 + i], start, atom);
    if HasValues(m[t[k]].tag) {
      assert Settled(m, t, w);
      if w in m {
        assert ObjectOk(m, w);
      }
      CodeMeans(m, t, start, ws, atom, w);
    }
  }

  lemma CopyOf(m: Mem, root: int, ws: int, out: seq<int>, t: seq<int>, words: seq<int>, start: int, color: int,
               atom: Atoms, k: int)
    requires MemOk(m) && IsImage(m, root, ws, out, t) && Headers(out, HeadersOf(m, t)) && (ws == 4 || ws == 8)
    requires Adjusted(out, words, HeadersOf(m, t), start, color, atom, |t|) && start > 0 && AtomsOk(atom)
    requires 0 <= k < |t|
    ensures var f := Placement(m, t, start, ws);
            t[k] in f && (CopiedAt(m, words, start, ws, color, atom, f, t[k]) <==> WeakOkAt(m, t[k]))
  {
    hide Wosize, Tag, MakeHeader, CodeOf, Settled, Adjust, Image, AtomsOk, Reached, Headers, MemOk, Adjusted, Laid,
         ObjectLaid, Placement;
    PlaceOf(m, t, start, ws, k);
    ImageHeader(m, root, ws, out, t, k);
    HeaderWord(m, root, ws, out, t, words, start, color, atom, k);
    var f, o, p := Placement(m, t, start, ws), m[t[k]], Pos(m, t, k);
    if WeakOkAt(m, t[k]) {
      forall i {:trigger FieldCopied(m, words, p, atom, f, o, i)} | 0 <= i < |o.fields|
        ensures FieldCopied(m, words, p, atom, f, o, i)
      {
        WordIs(m, root, ws, out, t, words, start, color, atom, k, i);
      }
    } else {
      var i :| 0 <= i < |o.fields| && !IsLong(o.fields[i]);
      WordIs(m, root, ws, out, t, words, start, color, atom, k, i);
      assert !FieldCopied(m, words, p, atom, f, o, i);
    }
  }

  lemma HeaderWord(m: Mem, root: int, ws: int, out: seq<int>, t: seq<int>, words: seq<int>, start: int, color: int,
                   atom: Atoms, k: int)
    requires MemOk(m) && IsImage(m, root, ws, out, t) && Headers(out, HeadersOf(m, t)) && 0 <= k < |t|
    requires Adjusted(out, words, HeadersOf(m, t), start, color, atom, |t|)
    ensures t[k] in m && 0 <= Pos(m, t, k) && Pos(m, t, k) + 1 + |m[t[k]].fields| <= |words|
    ensures words[Pos(m, t, k)] == MakeHeader(|m[t[k]].fields|, m[t[k]].tag, color)
  {
    hide Wosize, Tag, MakeHeader, CodeOf, Settled, Adjust, Reached;
    ImageHeader(m, root, ws, out, t, k);
    assert HeadersOf(m, t)[k] == Pos(m, t, k);
    assert ObjectAdjusted(out, words, Pos(m, t, k), start, color, atom);
  }

  lemma PlacesDiffer(m: Mem, t: seq<int>, start: int, ws: int, a: int, b: int)
    requires NoDup(t) && a in t && b in t && a != b && (ws == 4 || ws == 8)
    ensures Placement(m, t, start, ws)[a] != Placement(m, t, start, ws)[b]
  {
    var i, j := Index(t, a), Index(t, b);
    if i < j {
      PosGrows(m, t, i, j);
    } else {
      PosGrows(m, t, j, i);
    }
  }

  /** What `EmitAll` has written and `AdjustPointers` has adjusted is a copy of the graph if and
      only if weak arrays hold integers only. */
  lemma FastRoundTrip(m: Mem, root: int, ws: int, out: seq<int>, t: seq<int>, words: seq<int>, start: int, color: int,
                      atom: Atoms)
    requires MemOk(m) && IsImage(m, root, ws, out, t) && (ws == 4 || ws == 8) && start > 0 && AtomsOk(atom)
    ensures Headers(out, HeadersOf(m, t))
    ensures Adjusted(out, words, HeadersOf(m, t), start, color, atom, |t|) ==>
              (WeakOk(m, root) <==> IsCopy(m, root, words, start, ws, color, atom, Placement(m, t, start, ws)))
  {
    hide Laid, MemOk, Headers, Adjusted, AtomsOk, CopiedAt, WeakOkAt, Reached, Pos;
    ImageHeaders(m, root, ws, out, t);
    if Adjusted(out, words, HeadersOf(m, t), start, color, atom, |t|) {
      var f := Placement(m, t, start, ws);
      forall a | a in t
        ensures a in f && (CopiedAt(m, words, start, ws, color, atom, f, a) <==> WeakOkAt(m, a))
      {
        CopyOf(m, root, ws, out, t, words, start, color, atom, Index(t, a));
      }
      forall a, b | a in t && b in t && a != b
        ensures f[a] != f[b]
      {
        PlacesDiffer(m, t, start, ws, a, b);
      }
      if t != [] {
        PlaceOf(m, t, start, ws, 0);
        FirstAt(m, t);
      }
    }
  }

  lemma FirstAt(m: Mem, t: seq<int>)
    ensures Pos(m, t, 0) == 0
  {
  }

  /** A weak array that holds an object does not come back: its field stays an offset. */
  lemma WeakArrayLost(ws: int, start: int, color: int, atom: Atoms, words: seq<int>)
    requires (ws == 4 || ws == 8) && start > 0 && AtomsOk(atom)
    ensures var m := map[4 := Object(WEAK_TAG, [8]), 8 := Object(0, [1])];
            var out := [MakeHeader(1, WEAK_TAG, BLACK), 3 * ws, MakeHeader(1, 0, BLACK), 1];
            && MemOk(m) && IsImage(m, 4, ws, out, [4, 8]) && Headers(out, [0, 2, 4])
            && (Adjusted(out, words, [0, 2, 4], start, color, atom, 2) ==>
                  words[1] == 3 * ws && words[3] == 1
                  && !IsCopy(m, 4, words, start, ws, color, atom, Placement(m, [4, 8], start, ws)))
  {
    hide Adjusted, IsCopy;
    var m := map[4 := Object(WEAK_TAG, [8]), 8 := Object(0, [1])];
    var out := [MakeHeader(1, WEAK_TAG, BLACK), 3 * ws, MakeHeader(1, 0, BLACK), 1];
    WeakImage(ws);
    ImageHeaders(m, 4, ws, out, [4, 8]);
    FastRoundTrip(m, 4, ws, out, [4, 8], words, start, color, atom);
    WeakReached(m);
    WeakHeaders(m);
    assert Reached(m, 4, 4) && !WeakOkAt(m, 4) by {
      assert !IsLong(m[4].fields[0]);
    }
    if Adjusted(out, words, [0, 2, 4], start, color, atom, 2) {
      WeakWords(out, words, start, ws, color, atom);
    }
  }

  lemma WeakWords(out: seq<int>, words: seq<int>, start: int, ws: int, color: int, atom: Atoms)
    requires out == [MakeHeader(1, WEAK_TAG, BLACK), 3 * ws, MakeHeader(1, 0, BLACK), 1]
    requires Headers(out, [0, 2, 4]) && Adjusted(out, words, [0, 2, 4], start, color, atom, 2)
    ensures |words| == 4 && words[1] == 3 * ws && words[3] == 1
  {
    HeaderParts(1, WEAK_TAG, BLACK);
    HeaderParts(1, 0, BLACK);
    var hs := [0, 2, 4];
    assert ObjectAdjusted(out, words, hs[0], start, color, atom);
    assert ObjectAdjusted(out, words, hs[1], start, color, atom);
  }

  lemma WeakHeaders(m: Mem)
    requires m == map[4 := Object(WEAK_TAG, [8]), 8 := Object(0, [1])]
    ensures HeadersOf(m, [4, 8]) == [0, 2, 4]
  {
    var t := [4, 8];
    assert Pos(m, t, 0) == 0 && Pos(m, t, 1) == 2 && Pos(m, t, 2) == 4;
  }

  lemma WeakReached(m: Mem)
    requires m == map[4 := Object(WEAK_TAG, [8]), 8 := Object(0, [1])]
    ensures forall a :: Reached(m, 4, a) <==> a == 4 || a == 8
  {
    ReachedRoot(m, 4);
    assert Points(m, 4, 8);
    ReachedNext(m, 4, 4, 8);
    forall a | Reached(m, 4, a)
      ensures a in [4, 8]
    {
      var p :| WalkFromTo(m, p, 4, a);
      WalkInside(m, p, [4, 8]);
    }
  }

  lemma WeakImage(ws: int)
    ensures var m := map[4 := Object(WEAK_TAG, [8]), 8 := Object(0, [1])];
            var out := [MakeHeader(1, WEAK_TAG, BLACK), 3 * ws, MakeHeader(1, 0, BLACK), 1];
            MemOk(m) && IsImage(m, 4, ws, out, [4, 8])
  {
    hide MakeHeader;
    var m := map[4 := Object(WEAK_TAG, [8]), 8 := Object(0, [1])];
    var out := [MakeHeader(1, WEAK_TAG, BLACK), 3 * ws, MakeHeader(1, 0, BLACK), 1];
    WeakReached(m);
    var t := [4, 8];
    assert Pos(m, t, 0) == 0 && Pos(m, t, 1) == 2 && Pos(m, t, 2) == 4;
    assert Index(t, 8) == 1 by {
      assert t[1..] == [8];
    }
    assert ObjectLaid(m, t, ws, out, 2, 0, 0);
    assert ObjectLaid(m, t, ws, out, 2, 0, 1);
  }
}
