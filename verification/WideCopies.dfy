/** A graph written in the fast format with 32-bit words and read with 64-bit words is the same
    graph: integers, strings and doubles are preserved, and so are sharing and cycles, except in
    weak arrays that hold objects or atoms (src/runtime/extern.c, src/runtime/intern.c). */
module WideCopies {
  import opened FastFormat
  import opened FastReader
  import opened Widening

  // ----- Strings -----

  lemma {:induction false} JoinedBytes(bytes: seq<byte>, words: seq<int>, big: bool)
    requires |bytes| == 8 * |words|
    requires forall q :: 0 <= q < |words| ==> words[q] == JoinBytes(bytes[8 * q..8 * q + 8], big)
    ensures BytesOf(words, 8, big) == bytes
    decreases |words|
  {
    hide JoinBytes, WordBytes;
    if words != [] {
      forall q | 0 <= q < |words| - 1
        ensures words[1..][q] == JoinBytes(bytes[8..][8 * q..8 * q + 8], big)
      {
        assert bytes[8..][8 * q..8 * q + 8] == bytes[8 * (q + 1)..8 * (q + 1) + 8];
      }
      JoinedBytes(bytes[8..], words[1..], big);
      BytesJoined(bytes[..8], big);
      assert words[0] == JoinBytes(bytes[0..8], big);
      assert bytes[0..8] == bytes[..8];
      assert bytes == bytes[..8] + bytes[8..];
    }
  }

  /** The string is the same with the new padding. */
  lemma SameString(fields: seq<int>, big: bool)
    requires FieldsOk(STRING_TAG, fields, big)
    ensures var s, w := BytesOf(fields, 4, big), BytesOf(Widened(STRING_TAG, fields, big), 8, big);
            IsString(s) && IsString(w) && StringOf(w) == StringOf(s)
  {
    hide BytesOf, JoinBytes;
    JoinedBytes(Padded(fields, big), Widened(STRING_TAG, fields, big), big);
  }

  lemma SameDouble(fields: seq<int>, big: bool)
    requires FieldsOk(DOUBLE_TAG, fields, big)
    ensures BytesOf(Widened(DOUBLE_TAG, fields, big), 8, big) == BytesOf(fields, 4, big)
  {
    hide BytesOf, JoinBytes;
    var bytes := BytesOf(fields, 4, big);
    assert bytes[0..8] == bytes;
    JoinedBytes(bytes, Widened(DOUBLE_TAG, fields, big), big);
  }

  // ----- The graph that has been read -----

  /** The objects of a machine with 32-bit words, which have less than 2^22 of them. */
  ghost predicate Mem32Ok(m: Mem, big: bool) {
    MemOk(m) && forall a {:trigger Object32Ok(m[a], big)} :: a in m ==> Object32Ok(m[a], big)
  }

  ghost predicate Object32Ok(o: Object, big: bool) {
    && |o.fields| < 0x40_0000 && (IsOpaque(o.tag) ==> FieldsOk(o.tag, o.fields, big))
    && forall i :: 0 <= i < |o.fields| ==> 0 <= o.fields[i] < 0x1_0000_0000
  }

  /** The value that stands for `w`: the same integer, or what `f` says. */
  ghost function WideImage(m: Mem, f: map<int, int>, atom: Atoms, w: int): int {
    if IsLong(w) then Signed32(w) else Image(m, f, atom, w)
  }

  ghost predicate SameContents(m: Mem, f: map<int, int>, atom: Atoms, big: bool, o: Object, w: seq<int>) {
    if o.tag == STRING_TAG then
      var s, s' := BytesOf(o.fields, 4, big), BytesOf(w, 8, big);
      IsString(s) && IsString(s') && StringOf(s') == StringOf(s)
    else if o.tag == DOUBLE_TAG then BytesOf(w, 8, big) == BytesOf(o.fields, 4, big)
    else |w| == |o.fields| && forall i :: 0 <= i < |w| ==> w[i] == WideImage(m, f, atom, o.fields[i])
  }

  /** The object at `f[a]` is a copy of that at `a`. */
  ghost predicate WideCopiedAt(m: Mem, words: seq<int>, start: int, color: int, atom: Atoms, big: bool,
                               f: map<int, int>, a: int)
    requires a in f
  {
    a in m &&
    var p, n := (f[a] - start) / 8 - 1, NewWosize(|m[a].fields|, m[a].tag);
    && f[a] == start + 8 * (p + 1) && 0 <= p && 0 <= n && p + 1 + n <= |words|
    && words[p] == MakeHeader(n, m[a].tag, color)
    && SameContents(m, f, atom, big, m[a], words[p + 1..p + 1 + n])
  }

  /** By `f`, the objects in `words` are a copy of what can be reached from `root`. */
  ghost predicate IsWideCopy(m: Mem, root: int, words: seq<int>, start: int, color: int, atom: Atoms, big: bool,
                             f: map<int, int>) {
    && (forall a :: a in f <==> Reached(m, root, a))
    && (forall a, b :: a in f && b in f && f[a] == f[b] ==> a == b)
    && (forall a :: a in f ==> WideCopiedAt(m, words, start, color, atom, big, f, a))
    && (root in f ==> f[root] == start + 8)
  }

  /** Where the copies are. */
  ghost function WidePlacement(m: Mem, out: seq<int>, t: seq<int>, start: int): map<int, int> {
    map a | a in t :: start + 8 * (NewPos(out, HeadersOf(m, t), Index(t, a)) + 1)
  }

  // ----- The image as a block of 32-bit words -----

  lemma ImageFields(m: Mem, root: int, out: seq<int>, t: seq<int>, k: int)
    requires MemOk(m) && IsImage(m, root, 4, out, t) && 0 <= k < |t|
    ensures t[k] in m && Pos(m, t, k) + 1 + |m[t[k]].fields| <= |out|
    ensures Fields(out, Pos(m, t, k)) == out[Pos(m, t, k) + 1..Pos(m, t, k) + 1 + |m[t[k]].fields|]
    ensures |Fields(out, Pos(m, t, k))| == |m[t[k]].fields| > 0
    ensures !HasValues(m[t[k]].tag) ==> Fields(out, Pos(m, t, k)) == m[t[k]].fields
    ensures HasValues(m[t[k]].tag) ==> forall i {:trigger m[t[k]].fields[i]} :: 0 <= i < |m[t[k]].fields| ==>
              var w := m[t[k]].fields[i];
              Settled(m, t, w) && Fields(out, Pos(m, t, k))[i] == CodeOf(m, t, 4, w)
  {
    hide Wosize, Tag, MakeHeader, CodeOf, Settled, Reached, Pos;
    ImageHeader(m, root, 4, out, t, k);
    assert IsObject(m, t[k]);
  }

  lemma ImageBlock(m: Mem, root: int, out: seq<int>, t: seq<int>, big: bool)
    requires Mem32Ok(m, big) && IsImage(m, root, 4, out, t)
    ensures BlockOk(out, HeadersOf(m, t), big)
  {
    hide Wosize, Tag, MakeHeader, CodeOf, Settled, Reached, Pos, FieldsOk, Fields, MemOk, Headers;
    ImageHeaders(m, root, 4, out, t);
    var hs := HeadersOf(m, t);
    forall k {:trigger ObjectOk32(out, hs, big, k)} | 0 <= k < |t|
      ensures ObjectOk32(out, hs, big, k)
    {
      ImageHeader(m, root, 4, out, t, k);
      ImageFields(m, root, out, t, k);
      assert Object32Ok(m[t[k]], big);
      if !IsOpaque(m[t[k]].tag) {
        PlainOk(m[t[k]].tag, Fields(out, hs[k]), big);
      }
      HeaderOf(out, hs, k);
    }
  }

  lemma HeaderOf(words: seq<int>, hs: seq<int>, k: int)
    requires Headers(words, hs) && 0 <= k < |hs| - 1
    ensures HeaderAt(words, hs, k)
  {
  }

  lemma PlainOk(tag: int, fields: seq<int>, big: bool)
    requires fields != [] && !IsOpaque(tag)
    ensures FieldsOk(tag, fields, big)
  {
  }

  lemma ForwardedAt(words: seq<int>, hs: seq<int>, source: seq<int>, n: int, k: int)
    requires 0 <= k < n < |hs| && Forwarded(words, hs, source, n) && 0 <= hs[k] < |words| - 1
    ensures |source| == |words| && source[hs[k] + 1] == NewPos(words, hs, k) + 1
  {
  }

  /** The offset of an object leads to its copy. */
  lemma OffsetResolved(m: Mem, root: int, out: seq<int>, t: seq<int>, source: seq<int>, start: int, atom: Atoms, w: int)
    requires MemOk(m) && IsImage(m, root, 4, out, t) && w in t
    requires Forwarded(out, HeadersOf(m, t), source, |t|)
    ensures CodeOf(m, t, 4, w) == 4 * (Pos(m, t, Index(t, w)) + 1) && Pos(m, t, Index(t, w)) + 1 < |out|
    ensures Resolve(source, CodeOf(m, t, 4, w), start, atom) == WidePlacement(m, out, t, start)[w]
  {
    hide Wosize, Tag, MakeHeader, Reached, Pos, NewPos, Forwarded, Laid;
    var k := Index(t, w);
    ImageHeader(m, root, 4, out, t, k);
    assert IsObject(m, w);
    var hs := HeadersOf(m, t);
    assert hs[k] == Pos(m, t, k);
    assert |m[t[k]].fields| > 0;
    ForwardedAt(out, hs, source, |t|, k);
  }

  /** A code in a copy, resolved or not. */
  lemma WideCode(m: Mem, root: int, out: seq<int>, t: seq<int>, source: seq<int>, start: int, atom: Atoms, w: int)
    requires MemOk(m) && IsImage(m, root, 4, out, t) && Settled(m, t, w) && (IsLong(w) ==> 0 <= w < 0x1_0000_0000)
    requires Forwarded(out, HeadersOf(m, t), source, |t|) && start >= 4 * |out| && AtomsOk(atom)
    ensures var f, v := WidePlacement(m, out, t, start), Extend(CodeOf(m, t, 4, w));
            && (v % 4 == 0 ==> 0 <= v / 4 < |out|)
            && Resolve(source, v, start, atom) == WideImage(m, f, atom, w)
            && (v == WideImage(m, f, atom, w) <==> IsLong(w))
  {
    hide IsImage, Forwarded, Pos, NewPos, MemOk, Index, Extend, Resolve, AtomsOk, Settled, WidePlacement, Signed32;
    if IsLong(w) {
      LongCode(source, start, atom, w);
    } else {
      SettledIs(m, t, w);
      TagInRange(m, w);
      if m[w].fields == [] {
        AtomCode(source, start, atom, m[w].tag);
      } else {
        OffsetResolved(m, root, out, t, source, start, atom, w);
        PlaceAbove(m, out, t, start, w);
        OffsetCode(CodeOf(m, t, 4, w), Pos(m, t, Index(t, w)) + 1);
      }
    }
  }

  lemma SettledIs(m: Mem, t: seq<int>, w: int)
    requires Settled(m, t, w) && !IsLong(w)
    ensures w in m && (m[w].fields != [] ==> w in t)
  {
  }

  lemma LongCode(source: seq<int>, start: int, atom: Atoms, w: int)
    requires IsLong(w) && 0 <= w < 0x1_0000_0000
    ensures Extend(w) == Signed32(w) && Extend(w) % 4 != 0 && Resolve(source, Extend(w), start, atom) == Extend(w)
  {
  }

  lemma AtomCode(source: seq<int>, start: int, atom: Atoms, tag: int)
    requires 0 <= tag < 256 && AtomsOk(atom)
    ensures var v := Extend(4 * tag + 2);
            v % 4 != 0 && v != atom(tag) && Resolve(source, v, start, atom) == atom(tag)
  {
  }

  lemma AtomCodeIs(tag: int)
    ensures Extend(4 * tag + 2) == 4 * tag + 2 && (4 * tag + 2) % 4 == 2
  {
    assert 4 * tag + 2 == 2 * (2 * tag + 1);
  }

  lemma OffsetCode(v: int, q: int)
    requires v == 4 * q
    ensures Extend(v) == v && v % 4 == 0 && v / 4 == q
  {
    assert v == 2 * (2 * q);
  }

  lemma TagInRange(m: Mem, w: int)
    requires MemOk(m) && w in m
    ensures 0 <= m[w].tag < 256
  {
    assert ObjectOk(m, w);
  }

  lemma PlaceAbove(m: Mem, out: seq<int>, t: seq<int>, start: int, w: int)
    requires w in t
    ensures w in WidePlacement(m, out, t, start) && WidePlacement(m, out, t, start)[w] > start
  {
    hide Pos, NewPos;
  }

  /** The copy of the object with number `k`. */
  lemma WideObject(m: Mem, root: int, out: seq<int>, t: seq<int>, source: seq<int>, words: seq<int>, start: int,
                   color: int, atom: Atoms, big: bool, k: int)
    requires Mem32Ok(m, big) && IsImage(m, root, 4, out, t) && BlockOk(out, HeadersOf(m, t), big) && 0 <= k < |t|
    requires Finished(out, HeadersOf(m, t), big, source, words, start, color, atom, |t|)
    ensures t[k] in m && ObjectOk(m, t[k]) && Object32Ok(m[t[k]], big)
    ensures |Fields(out, Pos(m, t, k))| == |m[t[k]].fields| && FieldsOk(m[t[k]].tag, Fields(out, Pos(m, t, k)), big)
    ensures var p, n := NewPos(out, HeadersOf(m, t), k), NewWosize(|m[t[k]].fields|, m[t[k]].tag);
            && 0 <= p && 0 <= n && p + 1 + n <= |words| && words[p] == MakeHeader(n, m[t[k]].tag, color)
            && words[p + 1..p + 1 + n] ==
               Resolved(source, m[t[k]].tag, Widened(m[t[k]].tag, Fields(out, Pos(m, t, k)), big), start, atom)
  {
    hide Wosize, Tag, MakeHeader, Reached, Pos, NewPos, Laid, Settled, CodeOf, FieldsOk, Resolve, Widened, Object32Ok,
         ObjectOk, Fields, NewSizeAt;
    ImageHeader(m, root, 4, out, t, k);
    ImageFields(m, root, out, t, k);
    var hs := HeadersOf(m, t);
    assert hs[k] == Pos(m, t, k);
    SizeOk(out, hs, big, k);
    assert ObjectIs(out, hs, words, color, k, FinalFields(out, hs, big, source, start, atom, k));
  }

  lemma MemIsOk(m: Mem, big: bool, a: int)
    requires Mem32Ok(m, big) && a in m
    ensures MemOk(m) && Object32Ok(m[a], big) && 0 <= m[a].tag < 256
  {
    TagInRange(m, a);
  }

  lemma WidenedValues(tag: int, fields: seq<int>, big: bool)
    requires FieldsOk(tag, fields, big) && !IsOpaque(tag)
    ensures |Widened(tag, fields, big)| == |fields|
    ensures forall i :: 0 <= i < |fields| ==> Widened(tag, fields, big)[i] == Extend(fields[i])
  {
    hide FieldsOk, Extend;
  }

  /** Values of an object that is not weak have their images, those of a weak one only integers. */
  lemma WideValues(m: Mem, root: int, out: seq<int>, t: seq<int>, source: seq<int>, start: int, atom: Atoms, big: bool,
                   k: int)
    requires Mem32Ok(m, big) && IsImage(m, root, 4, out, t) && 0 <= k < |t| && t[k] in m && HasValues(m[t[k]].tag)
    requires Forwarded(out, HeadersOf(m, t), source, |t|) && start >= 4 * |out| && AtomsOk(atom)
    requires FieldsOk(m[t[k]].tag, Fields(out, Pos(m, t, k)), big)
    ensures var o, f := m[t[k]], WidePlacement(m, out, t, start);
            var w := Widened(o.tag, Fields(out, Pos(m, t, k)), big);
            && |w| == |o.fields| && (o.tag < NO_SCAN_TAG ==> InsideAll(w, |out|))
            && forall i :: 0 <= i < |w| ==>
                 (Resolved(source, o.tag, w, start, atom)[i] == WideImage(m, f, atom, o.fields[i]) <==>
                    (o.tag == WEAK_TAG ==> IsLong(o.fields[i])))
  {
    hide Wosize, Tag, MakeHeader, Reached, Pos, Laid, Settled, CodeOf, FieldsOk, Resolve, Fields, Extend, Forwarded,
         AtomsOk, WideImage, IsImage, MemOk, Mem32Ok, HeadersOf, WidePlacement, Widened;
    MemIsOk(m, big, t[k]);
    ImageFields(m, root, out, t, k);
    WidenedValues(m[t[k]].tag, Fields(out, Pos(m, t, k)), big);
    var o, f, w := m[t[k]], WidePlacement(m, out, t, start), Widened(m[t[k]].tag, Fields(out, Pos(m, t, k)), big);
    forall i {:trigger w[i]} | 0 <= i < |w|
      ensures w[i] % 4 == 0 ==> 0 <= w[i] / 4 < |out|
      ensures Resolve(source, w[i], start, atom) == WideImage(m, f, atom, o.fields[i])
      ensures w[i] == WideImage(m, f, atom, o.fields[i]) <==> IsLong(o.fields[i])
    {
      assert w[i] == Extend(CodeOf(m, t, 4, o.fields[i]));
      WideCode(m, root, out, t, source, start, atom, o.fields[i]);
    }
  }

  /** The offsets in an image can be resolved. */
  lemma ImageOffsets(m: Mem, root: int, out: seq<int>, t: seq<int>, big: bool)
    requires Mem32Ok(m, big) && IsImage(m, root, 4, out, t) && BlockOk(out, HeadersOf(m, t), big)
    ensures OffsetsInside(out, HeadersOf(m, t), big)
  {
    hide Wosize, Tag, MakeHeader, Reached, Pos, Laid, CodeOf, FieldsOk, Fields, Extend, InsideAll, IsImage, Mem32Ok,
         Widened, BlockOk, NewFields;
    var hs := HeadersOf(m, t);
    forall k {:trigger NewFields(out, hs, big, k)} |
        0 <= k < |hs| - 1 && 0 <= hs[k] < |out| && Tag(out[hs[k]]) < NO_SCAN_TAG
      ensures InsideAll(NewFields(out, hs, big, k), |out|)
    {
      OffsetsOf(m, root, out, t, big, k);
    }
  }

  lemma OffsetsOf(m: Mem, root: int, out: seq<int>, t: seq<int>, big: bool, k: int)
    requires Mem32Ok(m, big) && IsImage(m, root, 4, out, t) && BlockOk(out, HeadersOf(m, t), big) && 0 <= k < |t|
    requires 0 <= Pos(m, t, k) < |out| && Tag(out[Pos(m, t, k)]) < NO_SCAN_TAG
    ensures InsideAll(NewFields(out, HeadersOf(m, t), big, k), |out|)
  {
    hide Wosize, Tag, MakeHeader, Reached, Pos, Laid, CodeOf, FieldsOk, Fields, Extend, Mem32Ok, Widened, BlockOk,
         MemOk;
    var hs := HeadersOf(m, t);
    assert hs[k] == Pos(m, t, k);
    assert IsObject(m, t[k]) && !Refused(m[t[k]].tag);
    MemIsOk(m, big, t[k]);
    ImageHeader(m, root, 4, out, t, k);
    ImageFields(m, root, out, t, k);
    SizeOk(out, hs, big, k);
    var o, w := m[t[k]], NewFields(out, hs, big, k);
    WidenedValues(o.tag, Fields(out, hs[k]), big);
    forall i | 0 <= i < |w| && w[i] % 4 == 0
      ensures 0 <= w[i] / 4 < |out|
    {
      assert w[i] == Extend(CodeOf(m, t, 4, o.fields[i])) && Settled(m, t, o.fields[i]);
      CodeInside(m, root, out, t, o.fields[i]);
    }
  }

  lemma CodeInside(m: Mem, root: int, out: seq<int>, t: seq<int>, w: int)
    requires MemOk(m) && IsImage(m, root, 4, out, t) && Settled(m, t, w) && (IsLong(w) ==> 0 <= w < 0x1_0000_0000)
    ensures var v := Extend(CodeOf(m, t, 4, w)); v % 4 == 0 ==> 0 <= v / 4 < |out|
  {
    hide IsImage, MemOk, Pos, Index, Extend, Settled;
    if IsLong(w) {
      LongCode([], 0, _ => 0, w);
    } else {
      SettledIs(m, t, w);
      if m[w].fields == [] {
        AtomCodeIs(m[w].tag);
      } else {
        CodeBelow(m, root, out, t, w);
        OffsetCode(CodeOf(m, t, 4, w), Pos(m, t, Index(t, w)) + 1);
      }
    }
  }

  lemma CodeBelow(m: Mem, root: int, out: seq<int>, t: seq<int>, w: int)
    requires MemOk(m) && IsImage(m, root, 4, out, t) && w in t
    ensures CodeOf(m, t, 4, w) == 4 * (Pos(m, t, Index(t, w)) + 1) && 0 <= Pos(m, t, Index(t, w)) < |out| - 1
  {
    hide Wosize, Tag, MakeHeader, Reached, Pos, Laid;
    ImageHeader(m, root, 4, out, t, Index(t, w));
    assert IsObject(m, w);
    assert |m[t[Index(t, w)]].fields| > 0;
  }

  lemma PlaceAt(m: Mem, out: seq<int>, t: seq<int>, start: int, k: int)
    requires NoDup(t) && 0 <= k < |t|
    ensures var f := WidePlacement(m, out, t, start);
            t[k] in f && f[t[k]] == start + 8 * (NewPos(out, HeadersOf(m, t), k) + 1) &&
            (f[t[k]] - start) / 8 - 1 == NewPos(out, HeadersOf(m, t), k)
  {
    hide NewPos;
    IndexAt(t, k);
  }

  lemma WidePlacesDiffer(m: Mem, out: seq<int>, t: seq<int>, start: int, k: int, l: int)
    requires NoDup(t) && 0 <= k < l < |t|
    ensures WidePlacement(m, out, t, start)[t[k]] < WidePlacement(m, out, t, start)[t[l]]
  {
    hide WidePlacement, NewSizeAt;
    PlaceAt(m, out, t, start, k);
    PlaceAt(m, out, t, start, l);
    NewPosGrows(out, HeadersOf(m, t), k, l);
  }

  /** A copy is right, unless it is of a weak array with an object or an atom. */
  lemma WideCopy(m: Mem, root: int, out: seq<int>, t: seq<int>, source: seq<int>, words: seq<int>, start: int,
                 color: int, atom: Atoms, big: bool, k: int)
    requires Mem32Ok(m, big) && IsImage(m, root, 4, out, t) && BlockOk(out, HeadersOf(m, t), big) && 0 <= k < |t|
    requires Forwarded(out, HeadersOf(m, t), source, |t|) && start >= 4 * |out| && AtomsOk(atom)
    requires Finished(out, HeadersOf(m, t), big, source, words, start, color, atom, |t|)
    ensures var f := WidePlacement(m, out, t, start);
            t[k] in f && (WideCopiedAt(m, words, start, color, atom, big, f, t[k]) <==> WeakOkAt(m, t[k]))
  {
    hide BlockOk, Forwarded, Finished, IsImage, Mem32Ok, WidePlacement, HeadersOf, MakeHeader, Resolved, Widened,
         NewPos, FieldsOk, Fields, AtomsOk, SameContents, Object32Ok, ObjectOk;
    ImageNoDup(m, root, out, t, k);
    PlaceAt(m, out, t, start, k);
    WideObject(m, root, out, t, source, words, start, color, atom, big, k);
    ContentsSame(m, root, out, t, source, start, atom, big, k);
  }

  lemma ImageNoDup(m: Mem, root: int, out: seq<int>, t: seq<int>, k: int)
    requires IsImage(m, root, 4, out, t) && 0 <= k < |t|
    ensures NoDup(t) && t[k] in m && !Refused(m[t[k]].tag)
  {
    assert IsObject(m, t[k]);
  }

  lemma ContentsSame(m: Mem, root: int, out: seq<int>, t: seq<int>, source: seq<int>, start: int, atom: Atoms,
                     big: bool, k: int)
    requires Mem32Ok(m, big) && IsImage(m, root, 4, out, t) && 0 <= k < |t| && t[k] in m && !Refused(m[t[k]].tag)
    requires Forwarded(out, HeadersOf(m, t), source, |t|) && start >= 4 * |out| && AtomsOk(atom)
    requires FieldsOk(m[t[k]].tag, Fields(out, Pos(m, t, k)), big)
    ensures var o, f := m[t[k]], WidePlacement(m, out, t, start);
            var w := Resolved(source, o.tag, Widened(o.tag, Fields(out, Pos(m, t, k)), big), start, atom);
            SameContents(m, f, atom, big, o, w) <==> WeakOkAt(m, t[k])
  {
    hide IsImage, Forwarded, Mem32Ok, WidePlacement, HeadersOf, Resolve, Widened, FieldsOk, Fields, Pos, BytesOf,
         StringOf, IsString, WideImage, AtomsOk, MemOk, IsLong;
    MemIsOk(m, big, t[k]);
    ImageFields(m, root, out, t, k);
    var o := m[t[k]];
    if o.tag == STRING_TAG {
      SameString(o.fields, big);
    } else if o.tag == DOUBLE_TAG {
      SameDouble(o.fields, big);
    } else {
      WideValues(m, root, out, t, source, start, atom, big, k);
    }
  }

  // ----- The size of the image and of its objects -----

  /** Every object that can be reached has less than 2^21 words. */
  ghost predicate SizesOk(m: Mem, root: int) {
    forall a :: Reached(m, root, a) ==> SizeOkAt(m, a)
  }

  ghost predicate SizeOkAt(m: Mem, a: int) {
    a in m ==> |m[a].fields| < 0x20_0000
  }

  /** The object in which a word lies. */
  lemma {:induction false} ObjectWith(m: Mem, t: seq<int>, l: int, i: int) returns (k: int)
    requires 0 <= l <= |t| && 0 <= i < Pos(m, t, l)
    ensures 0 <= k < l && Pos(m, t, k) <= i <= Pos(m, t, k) + SizeOf(m, t[k])
    decreases l
  {
    if i < Pos(m, t, l - 1) {
      k := ObjectWith(m, t, l - 1, i);
    } else {
      k := l - 1;
    }
  }

  /** The image consists of 32-bit words. */
  lemma ImageWords(m: Mem, root: int, out: seq<int>, t: seq<int>, big: bool)
    requires Mem32Ok(m, big) && IsImage(m, root, 4, out, t) && |out| <= 0x4000_0000
    ensures Words32(out)
  {
    hide Pos, Mem32Ok, SizeOf, IsImage;
    forall i | 0 <= i < |out|
      ensures 0 <= out[i] < 0x1_0000_0000
    {
      ImageLength(m, root, out, t);
      var k := ObjectWith(m, t, |t|, i);
      ImageWord(m, root, out, t, big, k, i);
    }
  }

  lemma ImageLength(m: Mem, root: int, out: seq<int>, t: seq<int>)
    requires IsImage(m, root, 4, out, t)
    ensures |out| == Pos(m, t, |t|)
  {
  }

  lemma ImageWord(m: Mem, root: int, out: seq<int>, t: seq<int>, big: bool, k: int, i: int)
    requires Mem32Ok(m, big) && IsImage(m, root, 4, out, t) && |out| <= 0x4000_0000
    requires 0 <= k < |t| && Pos(m, t, k) <= i <= Pos(m, t, k) + SizeOf(m, t[k])
    ensures i < |out| && 0 <= out[i] < 0x1_0000_0000
  {
    hide Wosize, Tag, Reached, Pos, CodeOf, FieldsOk, Fields, Mem32Ok, MemOk, Settled;
    ImageNoDup(m, root, out, t, k);
    MemIsOk(m, big, t[k]);
    ImageHeader(m, root, 4, out, t, k);
    var o, p := m[t[k]], Pos(m, t, k);
    if i > p {
      assert 0 <= o.fields[i - p - 1] < 0x1_0000_0000;
      if HasValues(o.tag) {
        assert out[p + 1 + (i - p - 1)] == CodeOf(m, t, 4, o.fields[i - p - 1]);
        CodeRange(m, root, out, t, o.fields[i - p - 1]);
      } else {
        assert out[p + 1 + (i - p - 1)] == o.fields[i - p - 1];
      }
    }
  }

  lemma CodeRange(m: Mem, root: int, out: seq<int>, t: seq<int>, w: int)
    requires MemOk(m) && IsImage(m, root, 4, out, t) && Settled(m, t, w) && |out| <= 0x4000_0000
    requires 0 <= w < 0x1_0000_0000
    ensures 0 <= CodeOf(m, t, 4, w) < 0x1_0000_0000
  {
    hide IsImage, Pos, Index, MemOk;
    if !IsLong(w) {
      TagInRange(m, w);
      if m[w].fields != [] {
        CodeBelow(m, root, out, t, w);
      }
    }
  }

  /** An object has a narrow header when it has less than 2^21 words. */
  lemma NarrowObject(m: Mem, root: int, out: seq<int>, t: seq<int>, big: bool, k: int)
    requires Mem32Ok(m, big) && IsImage(m, root, 4, out, t) && Words32(out) && 0 <= k < |t|
    ensures NarrowAt(out, HeadersOf(m, t)[k]) <==> SizeOkAt(m, t[k])
  {
    hide Wosize, Tag, Reached, Pos, MemOk, Laid, ObjectLaid;
    ImageHeader(m, root, 4, out, t, k);
    HeaderRange(out[Pos(m, t, k)]);
  }

  /** The computed size is right, or more than any machine has. */
  lemma ImageSize(m: Mem, root: int, out: seq<int>, t: seq<int>, big: bool)
    requires Mem32Ok(m, big) && IsImage(m, root, 4, out, t) && BlockOk(out, HeadersOf(m, t), big) && Words32(out)
    ensures SizesOk(m, root) ==> ExpandedSize(out, 0) == NewPos(out, HeadersOf(m, t), |t|) <= |out|
    ensures !SizesOk(m, root) ==> ExpandedSize(out, 0) >= TOO_MANY
  {
    hide BlockOk, NewPos, Mem32Ok, Reached, Laid, Words32, ExpandedSize, NarrowAt, SizeOkAt, HeadersOf;
    var hs := HeadersOf(m, t);
    SizeFrom(out, hs, big, 0);
    FirstNewPos(out, hs);
    FirstHeader(m, t);
    NewPosBelow(out, hs, big, |t|);
    HeadersAscendOk(out, hs, big, |t|);
    forall k {:trigger hs[k]} | 0 <= k < |t|
      ensures NarrowAt(out, hs[k]) <==> SizeOkAt(m, t[k])
    {
      NarrowObject(m, root, out, t, big, k);
    }
    if !SizesOk(m, root) {
      var a :| Reached(m, root, a) && !SizeOkAt(m, a);
      var k := Index(t, a);
      assert !NarrowAt(out, hs[k]);
    }
  }

  lemma FirstHeader(m: Mem, t: seq<int>)
    ensures HeadersOf(m, t)[0] == 0
  {
  }

  /** Reading with 64-bit words what `EmitAll` has written with 32-bit words succeeds if and only
      if all objects have less than 2^21 words (and there is room), and then gives a copy of the
      graph if and only if weak arrays hold integers only. The image fits the memory of the machine
      that wrote it; the block of copies lies in the heap, above all numbers that are offsets. */
  lemma WideRoundTrip(m: Mem, root: int, out: seq<int>, t: seq<int>, source: seq<int>, words: seq<int>, room: int,
                      start: int, color: int, atom: Atoms, big: bool)
    requires Mem32Ok(m, big) && IsImage(m, root, 4, out, t) && |out| <= 0x4000_0000
    requires room < TOO_MANY && start >= 4 * |out| && AtomsOk(atom)
    ensures BlockOk(out, HeadersOf(m, t), big) && OffsetsInside(out, HeadersOf(m, t), big) && Words32(out)
    ensures ExpandedSize(out, 0) <= room <==>
              SizesOk(m, root) && NewPos(out, HeadersOf(m, t), |t|) <= room
    ensures Expanded(out, HeadersOf(m, t), big, room, source, words, start, color, atom) ==>
              SizesOk(m, root) &&
              (WeakOk(m, root) <==> IsWideCopy(m, root, words, start, color, atom, big,
                                               WidePlacement(m, out, t, start)))
  {
    hide BlockOk, Forwarded, Finished, Mem32Ok, HeadersOf, NewPos, AtomsOk, WideCopiedAt, WeakOkAt, Reached, Laid,
         MemOk, OffsetsInside, Words32, ExpandedSize, SizesOk, IsImage, WeakOk, IsWideCopy;
    ImageBlock(m, root, out, t, big);
    ImageOffsets(m, root, out, t, big);
    ImageWords(m, root, out, t, big);
    ImageSize(m, root, out, t, big);
    if Expanded(out, HeadersOf(m, t), big, room, source, words, start, color, atom) {
      WideCopyIff(m, root, out, t, source, words, start, color, atom, big);
    }
  }

  lemma WideCopyIff(m: Mem, root: int, out: seq<int>, t: seq<int>, source: seq<int>, words: seq<int>, start: int,
                   color: int, atom: Atoms, big: bool)
    requires Mem32Ok(m, big) && IsImage(m, root, 4, out, t) && start >= 4 * |out| && AtomsOk(atom)
    requires BlockOk(out, HeadersOf(m, t), big)
    requires Forwarded(out, HeadersOf(m, t), source, |t|)
    requires Finished(out, HeadersOf(m, t), big, source, words, start, color, atom, |t|)
    ensures WeakOk(m, root) <==> IsWideCopy(m, root, words, start, color, atom, big, WidePlacement(m, out, t, start))
  {
    hide BlockOk, Forwarded, Finished, Mem32Ok, HeadersOf, NewPos, AtomsOk, WideCopiedAt, WeakOkAt, Reached, Laid,
         MemOk;
    var f := WidePlacement(m, out, t, start);
    forall a | a in t
      ensures a in f && (WideCopiedAt(m, words, start, color, atom, big, f, a) <==> WeakOkAt(m, a))
    {
      WideCopy(m, root, out, t, source, words, start, color, atom, big, Index(t, a));
    }
    forall a, b | a in t && b in t && a != b
      ensures f[a] != f[b]
    {
      var i, j := Index(t, a), Index(t, b);
      WidePlacesDiffer(m, out, t, start, if i < j then i else j, if i < j then j else i);
    }
    if t != [] {
      PlaceAt(m, out, t, start, 0);
      FirstNewPos(out, HeadersOf(m, t));
    }
  }

  // ----- Graphs that do not come back -----

  /** A block of 2^21 integers is written by the one machine and asks for too many words on the
      other. */
  lemma TooWide(big: bool)
    ensures var ones := seq(0x20_0000, _ => 1);
            var m := map[4 := Object(0, ones)];
            var out := [MakeHeader(0x20_0000, 0, BLACK)] + ones;
            && Mem32Ok(m, big) && WeakOk(m, 4) && IsImage(m, 4, 4, out, [4]) && Words32(out)
            && ExpandedSize(out, 0) >= TOO_MANY
  {
    var ones := seq(0x20_0000, _ => 1);
    var m := map[4 := Object(0, ones)];
    var out := [MakeHeader(0x20_0000, 0, BLACK)] + ones;
    OnlyObject(m, 4, 0, ones);
    HeaderRange(out[0]);
    assert |out| == Pos(m, [4], 1);
    assert ObjectLaid(m, [4], 4, out, 1, 0, 0);
  }

  /** In a memory of one object without pointers only that object can be reached. */
  lemma OnlyObject(m: Mem, a: int, tag: int, fields: seq<int>)
    requires m == map[a := Object(tag, fields)] && fields != [] && !IsLong(a)
    requires forall i :: 0 <= i < |fields| ==> IsLong(fields[i])
    ensures forall b :: Reached(m, a, b) <==> b == a
  {
    ReachedRoot(m, a);
    forall b | Reached(m, a, b)
      ensures b == a
    {
      var p :| WalkFromTo(m, p, a, b);
      assert |p| > 1 ==> Points(m, p[|p| - 2], b);
    }
  }
}
