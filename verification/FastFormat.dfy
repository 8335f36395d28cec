/** The fast format of structured output (src/runtime/extern.c, src/runtime/mlvalues.h): the
    objects one after another, word for word, with offsets in place of pointers. */
module FastFormat {
  const CLOSURE_TAG := 249
  const NO_SCAN_TAG := 251
  const WEAK_TAG := 251
  const ABSTRACT_TAG := 252
  const STRING_TAG := 253
  const DOUBLE_TAG := 254
  const FINAL_TAG := 255
  const BLACK := 0x300

  /** An object as its words: odd ones are integers, even ones addresses of objects. A string or
      a double is made of words that mean nothing here. An object without fields is an atom. */
  datatype Object = Object(tag: int, fields: seq<int>)

  type Mem = map<int, Object>

  function MakeHeader(size: int, tag: int, color: int): int {
    size * 1024 + color + tag
  }

  function Wosize(hd: int): int {
    hd / 1024
  }

  function Tag(hd: int): int {
    hd % 256
  }

  predicate IsColor(color: int) {
    color == 0 || color == 0x100 || color == 0x200 || color == 0x300
  }

  lemma HeaderParts(size: int, tag: int, color: int)
    requires 0 <= tag < 256 && IsColor(color)
    ensures Wosize(MakeHeader(size, tag, color)) == size && Tag(MakeHeader(size, tag, color)) == tag
  {
  }

  predicate IsOpaque(tag: int) {
    tag == STRING_TAG || tag == DOUBLE_TAG
  }

  predicate Refused(tag: int) {
    tag == ABSTRACT_TAG || tag == FINAL_TAG || tag == CLOSURE_TAG
  }

  /** The fields of an object with this tag are values. */
  predicate HasValues(tag: int) {
    !IsOpaque(tag) && !Refused(tag)
  }

  predicate IsLong(w: int) {
    w % 2 == 1
  }

  ghost predicate WordOk(m: Mem, w: int) {
    IsLong(w) || w in m
  }

  ghost predicate ObjectOk(m: Mem, a: int)
    requires a in m
  {
    && a > 0 && a % 4 == 0 && 0 <= m[a].tag < 256
    && (HasValues(m[a].tag) ==> forall i :: 0 <= i < |m[a].fields| ==> WordOk(m, m[a].fields[i]))
  }

  ghost predicate MemOk(m: Mem) {
    forall a {:trigger ObjectOk(m, a)} :: a in m ==> ObjectOk(m, a)
  }

  predicate IsObject(m: Mem, w: int) {
    !IsLong(w) && w in m && m[w].fields != []
  }

  // ----- What can be reached -----

  ghost predicate Points(m: Mem, a: int, b: int) {
    a in m && HasValues(m[a].tag) && b in m[a].fields && IsObject(m, b)
  }

  ghost predicate IsWalk(m: Mem, p: seq<int>) {
    p != [] && forall i :: 0 <= i < |p| - 1 ==> Points(m, p[i], p[i + 1])
  }

  ghost predicate WalkFromTo(m: Mem, p: seq<int>, a: int, b: int) {
    IsWalk(m, p) && p[0] == a && p[|p| - 1] == b
  }

  /** The object at `a` can be reached from the word `root`. */
  ghost predicate Reached(m: Mem, root: int, a: int) {
    IsObject(m, root) && exists p :: WalkFromTo(m, p, root, a)
  }

  lemma ReachedRoot(m: Mem, root: int)
    requires IsObject(m, root)
    ensures Reached(m, root, root)
  {
    assert WalkFromTo(m, [root], root, root);
  }

  lemma ReachedNext(m: Mem, root: int, a: int, b: int)
    requires Reached(m, root, a) && Points(m, a, b)
    ensures Reached(m, root, b)
  {
    hide Points;
    var p :| WalkFromTo(m, p, root, a);
    assert WalkFromTo(m, p + [b], root, b);
  }

  /** A set that holds the root and is closed holds all that can be reached. */
  lemma {:induction false} WalkInside(m: Mem, p: seq<int>, t: seq<int>)
    requires IsWalk(m, p) && p[0] in t
    requires forall a, b {:trigger Points(m, a, b)} :: a in t && Points(m, a, b) ==> b in t
    ensures p[|p| - 1] in t
    decreases |p|
  {
    hide Points;
    if |p| > 1 {
      assert Points(m, p[0], p[1]);
      WalkInside(m, p[1..], t);
    }
  }

  // ----- Where objects lie -----

  function SizeOf(m: Mem, a: int): nat {
    if a in m then |m[a].fields| else 0
  }

  /** The index of the header of the object with number `k`. */
  function Pos(m: Mem, t: seq<int>, k: int): (p: int)
    requires 0 <= k <= |t|
    ensures p >= 0
  {
    if k == 0 then 0 else Pos(m, t, k - 1) + 1 + SizeOf(m, t[k - 1])
  }

  function Index(t: seq<int>, a: int): (i: int)
    requires a in t
    ensures 0 <= i < |t| && t[i] == a
  {
    if t[0] == a then 0 else 1 + Index(t[1..], a)
  }

  ghost predicate NoDup(t: seq<int>) {
    forall i, j :: 0 <= i < j < |t| ==> t[i] != t[j]
  }

  lemma IndexAt(t: seq<int>, k: int)
    requires NoDup(t) && 0 <= k < |t|
    ensures Index(t, t[k]) == k
  {
  }

  lemma {:induction false} PosPrefix(m: Mem, t: seq<int>, a: int, k: int)
    requires 0 <= k <= |t|
    ensures Pos(m, t + [a], k) == Pos(m, t, k)
    decreases k
  {
    if k > 0 {
      PosPrefix(m, t, a, k - 1);
    }
  }

  lemma {:induction false} PosGrows(m: Mem, t: seq<int>, k: int, l: int)
    requires 0 <= k < l <= |t|
    ensures Pos(m, t, k) + 1 + SizeOf(m, t[k]) <= Pos(m, t, l)
    decreases l
  {
    if k + 1 < l {
      PosGrows(m, t, k, l - 1);
    }
  }

  lemma {:induction false} IndexPrefix(t: seq<int>, b: int, a: int)
    requires a in t + [b]
    ensures a in t ==> Index(t + [b], a) == Index(t, a)
    ensures a !in t ==> Index(t + [b], a) == |t|
    decreases |t|
  {
    if t != [] && t[0] != a {
      assert (t + [b])[1..] == t[1..] + [b];
      IndexPrefix(t[1..], b, a);
    }
  }

  // ----- Images -----

  /** The word that stands for a value: an integer for itself, an atom by its tag, an object by
      its offset in bytes. A word has `ws` bytes. */
  function CodeOf(m: Mem, t: seq<int>, ws: int, w: int): int {
    if IsLong(w) then w
    else if w in m && m[w].fields == [] then 4 * m[w].tag + 2
    else if w in t then ws * (Pos(m, t, Index(t, w)) + 1)
    else 0
  }

  /** The word has a code. */
  ghost predicate Settled(m: Mem, t: seq<int>, w: int) {
    IsLong(w) || (w in m && (m[w].fields == [] || w in t))
  }

  /** Field `i` of the object with number `k` has been replaced by its code, when `n` objects
      are done and `j` fields of the next one. */
  predicate Replaced(tag: int, n: int, j: int, k: int, i: int) {
    HasValues(tag) && (k < n || (k == n && i < j))
  }

  ghost predicate ObjectLaid(m: Mem, t: seq<int>, ws: int, out: seq<int>, n: int, j: int, k: int)
    requires 0 <= k < |t|
  {
    t[k] in m &&
    var o, p := m[t[k]], Pos(m, t, k);
    && p + 1 + |o.fields| <= |out| && out[p] == MakeHeader(|o.fields|, o.tag, BLACK)
    && forall i {:trigger o.fields[i]} :: 0 <= i < |o.fields| ==>
         if Replaced(o.tag, n, j, k, i) then
           Settled(m, t, o.fields[i]) && out[p + 1 + i] == CodeOf(m, t, ws, o.fields[i])
         else out[p + 1 + i] == o.fields[i]
  }

  /** The objects of `t` lie in `out`, with codes where they have been replaced. */
  ghost predicate Laid(m: Mem, t: seq<int>, ws: int, out: seq<int>, n: int, j: int) {
    && |out| == Pos(m, t, |t|)
    && forall k {:trigger ObjectLaid(m, t, ws, out, n, j, k)} :: 0 <= k < |t| ==>
         ObjectLaid(m, t, ws, out, n, j, k)
  }

  lemma CodeKept(m: Mem, t: seq<int>, ws: int, a: int, w: int)
    requires Settled(m, t, w)
    ensures Settled(m, t + [a], w) && CodeOf(m, t + [a], ws, w) == CodeOf(m, t, ws, w)
  {
    if w in t {
      IndexPrefix(t, a, w);
      PosPrefix(m, t, a, Index(t, w));
    }
  }

  /** Another object is appended. */
  lemma LaidAppend(m: Mem, t: seq<int>, ws: int, out: seq<int>, n: int, j: int, a: int)
    requires Laid(m, t, ws, out, n, j) && a in m && n <= |t| && (n == |t| ==> j == 0)
    ensures Laid(m, t + [a], ws, out + [MakeHeader(|m[a].fields|, m[a].tag, BLACK)] + m[a].fields, n, j)
  {
    hide MakeHeader, CodeOf, Settled;
    var t', out' := t + [a], out + [MakeHeader(|m[a].fields|, m[a].tag, BLACK)] + m[a].fields;
    PosPrefix(m, t, a, |t|);
    forall k {:trigger ObjectLaid(m, t', ws, out', n, j, k)} | 0 <= k < |t'|
      ensures ObjectLaid(m, t', ws, out', n, j, k)
    {
      PosPrefix(m, t, a, k);
      if k < |t| {
        LaidKept(m, t, ws, out, n, j, a, out', k);
      }
    }
  }

  lemma LaidKept(m: Mem, t: seq<int>, ws: int, out: seq<int>, n: int, j: int, a: int, out': seq<int>, k: int)
    requires 0 <= k < |t| && ObjectLaid(m, t, ws, out, n, j, k) && out <= out'
    ensures ObjectLaid(m, t + [a], ws, out', n, j, k)
  {
    hide MakeHeader, CodeOf, Settled;
    PosPrefix(m, t, a, k);
    var o := m[t[k]];
    forall i {:trigger o.fields[i]} | 0 <= i < |o.fields| && Replaced(o.tag, n, j, k, i)
      ensures Settled(m, t + [a], o.fields[i])
      ensures CodeOf(m, t + [a], ws, o.fields[i]) == CodeOf(m, t, ws, o.fields[i])
    {
      CodeKept(m, t, ws, a, o.fields[i]);
    }
  }

  /** A field is replaced by its code. */
  lemma LaidField(m: Mem, t: seq<int>, ws: int, out: seq<int>, n: int, j: int)
    requires Laid(m, t, ws, out, n, j) && 0 <= n < |t| && t[n] in m && HasValues(m[t[n]].tag)
    requires 0 <= j < |m[t[n]].fields| && Settled(m, t, m[t[n]].fields[j])
    ensures Pos(m, t, n) + 1 + j < |out|
    ensures Laid(m, t, ws, out[Pos(m, t, n) + 1 + j := CodeOf(m, t, ws, m[t[n]].fields[j])], n, j + 1)
  {
    hide MakeHeader, CodeOf, Settled;
    assert ObjectLaid(m, t, ws, out, n, j, n);
    var at := Pos(m, t, n) + 1 + j;
    var out' := out[at := CodeOf(m, t, ws, m[t[n]].fields[j])];
    forall k {:trigger ObjectLaid(m, t, ws, out', n, j + 1, k)} | 0 <= k < |t|
      ensures ObjectLaid(m, t, ws, out', n, j + 1, k)
    {
      assert ObjectLaid(m, t, ws, out, n, j, k);
      if k < n {
        PosGrows(m, t, k, n);
      } else if n < k {
        PosGrows(m, t, n, k);
      }
    }
  }

  /** The next object is done. */
  lemma LaidNext(m: Mem, t: seq<int>, ws: int, out: seq<int>, n: int, j: int)
    requires Laid(m, t, ws, out, n, j) && 0 <= n < |t| && t[n] in m
    requires !HasValues(m[t[n]].tag) || j == |m[t[n]].fields|
    ensures Laid(m, t, ws, out, n + 1, 0)
  {
    hide MakeHeader, CodeOf, Settled;
    forall k {:trigger ObjectLaid(m, t, ws, out, n + 1, 0, k)} | 0 <= k < |t|
      ensures ObjectLaid(m, t, ws, out, n + 1, 0, k)
    {
      assert ObjectLaid(m, t, ws, out, n, j, k);
    }
  }

  /** The finished image of what can be reached from `root`, in the order of `t`. */
  ghost predicate IsImage(m: Mem, root: int, ws: int, out: seq<int>, t: seq<int>) {
    && NoDup(t) && Laid(m, t, ws, out, |t|, 0)
    && (forall a :: a in t <==> Reached(m, root, a))
    && (forall a :: a in t ==> IsObject(m, a) && !Refused(m[a].tag))
    && (t != [] ==> t[0] == root)
  }
}
