/** Reading, on a machine with 64-bit words, what a machine with 32-bit words has written in the
    fast format (src/runtime/intern.c): the objects are copied word by word, and the place of each
    copy is left in its first word, where the second pass finds it. */
module Widening {
  import opened FastFormat
  import opened FastReader

  // ----- Bytes of words; `big` tells the order of bytes of the machine -----

  type byte = b: int | 0 <= b < 256

  function Split(w: int, n: nat): (s: seq<byte>)
    ensures |s| == n
    decreases n
  {
    if n == 0 then [] else [w % 256] + Split(w / 256, n - 1)
  }

  function Join(s: seq<byte>): int {
    if s == [] then 0 else s[0] + 256 * Join(s[1..])
  }

  function Reverse(s: seq<byte>): (r: seq<byte>)
    ensures |r| == |s|
  {
    if s == [] then [] else Reverse(s[1..]) + [s[0]]
  }

  function WordBytes(w: int, n: nat, big: bool): (s: seq<byte>)
    ensures |s| == n
  {
    if big then Reverse(Split(w, n)) else Split(w, n)
  }

  function JoinBytes(s: seq<byte>, big: bool): int {
    Join(if big then Reverse(s) else s)
  }

  lemma LowestByte(b: byte, w: int)
    ensures (b + 256 * w) % 256 == b && (b + 256 * w) / 256 == w
  {
  }

  lemma {:induction false} SplitJoin(s: seq<byte>)
    ensures Split(Join(s), |s|) == s
    decreases |s|
  {
    if s != [] {
      SplitJoin(s[1..]);
      LowestByte(s[0], Join(s[1..]));
    }
  }

  lemma {:induction false} ReverseLast(s: seq<byte>, b: byte)
    ensures Reverse(s + [b]) == [b] + Reverse(s)
    decreases |s|
  {
    if s != [] {
      assert (s + [b])[1..] == s[1..] + [b];
      ReverseLast(s[1..], b);
    }
  }

  lemma {:induction false} ReverseTwice(s: seq<byte>)
    ensures Reverse(Reverse(s)) == s
    decreases |s|
  {
    if s != [] {
      ReverseTwice(s[1..]);
      ReverseLast(Reverse(s[1..]), s[0]);
    }
  }

  lemma BytesJoined(s: seq<byte>, big: bool)
    ensures WordBytes(JoinBytes(s, big), |s|, big) == s
  {
    hide Split, Join, Reverse;
    SplitJoin(s);
    SplitJoin(Reverse(s));
    ReverseTwice(s);
  }

  /** The bytes of words of `n` bytes each, as they lie in memory. */
  function BytesOf(words: seq<int>, n: nat, big: bool): (s: seq<byte>)
    ensures |s| == n * |words|
  {
    if words == [] then [] else WordBytes(words[0], n, big) + BytesOf(words[1..], n, big)
  }

  /** The string in a block of bytes: the last byte tells how many bytes before it are unused. */
  predicate IsString(bytes: seq<byte>) {
    bytes != [] && bytes[|bytes| - 1] < |bytes|
  }

  function StringOf(bytes: seq<byte>): seq<byte>
    requires IsString(bytes)
  {
    bytes[..|bytes| - 1 - bytes[|bytes| - 1]]
  }

  // ----- The first pass -----

  function Signed32(w: int): int {
    if w >= 0x8000_0000 then w - 0x1_0000_0000 else w
  }

  /** Offsets and atoms are taken without sign, integers with theirs. */
  function Extend(w: int): int {
    if w % 2 == 0 then w else Signed32(w)
  }

  function Zeros(n: nat): (s: seq<byte>)
    ensures |s| == n
  {
    seq(n, _ => 0)
  }

  function NewWosize(size: int, tag: int): int {
    if tag == STRING_TAG then (size * 4 + 7) / 8 else if tag == DOUBLE_TAG then 1 else size
  }

  /** Objects have fields; a string of 32-bit words has up to three unused bytes. */
  predicate FieldsOk(tag: int, fields: seq<int>, big: bool) {
    && fields != []
    && (tag == STRING_TAG ==> BytesOf(fields, 4, big)[4 * |fields| - 1] < 4)
    && (tag == DOUBLE_TAG ==> |fields| == 2)
  }

  /** The bytes of the string with new padding. */
  function Padded(fields: seq<int>, big: bool): (s: seq<byte>)
    requires FieldsOk(STRING_TAG, fields, big)
    ensures |s| == 8 * NewWosize(|fields|, STRING_TAG)
  {
    var bytes, size := BytesOf(fields, 4, big), 8 * NewWosize(|fields|, STRING_TAG);
    var len := |bytes| - 1 - bytes[|bytes| - 1];
    bytes[..len] + Zeros(size - 1 - len) + [size - 1 - len]
  }

  /** The fields of the copy, in which offsets have not been resolved. */
  function Widened(tag: int, fields: seq<int>, big: bool): (s: seq<int>)
    requires FieldsOk(tag, fields, big)
    ensures |s| == NewWosize(|fields|, tag)
  {
    if tag == STRING_TAG then
      var bytes := Padded(fields, big);
      seq(NewWosize(|fields|, tag), q requires 0 <= q < NewWosize(|fields|, tag) =>
                                      JoinBytes(bytes[8 * q..8 * q + 8], big))
    else if tag == DOUBLE_TAG then [JoinBytes(BytesOf(fields, 4, big), big)]
    else seq(|fields|, i requires 0 <= i < |fields| => Extend(fields[i]))
  }

  /** The fields of the object whose header is at index `h`. */
  function Fields(words: seq<int>, h: int): seq<int> {
    if 0 <= h < |words| && 0 <= Wosize(words[h]) && h + 1 + Wosize(words[h]) <= |words| then
      words[h + 1..h + 1 + Wosize(words[h])]
    else []
  }

  ghost predicate ObjectOk32(words: seq<int>, hs: seq<int>, big: bool, k: int)
    requires Headers(words, hs) && 0 <= k < |hs| - 1
  {
    HeaderAt(words, hs, k) && FieldsOk(Tag(words[hs[k]]), Fields(words, hs[k]), big)
  }

  /** A block of 32-bit words with whole objects. */
  ghost predicate BlockOk(words: seq<int>, hs: seq<int>, big: bool) {
    && Headers(words, hs)
    && forall k {:trigger ObjectOk32(words, hs, big, k)} :: 0 <= k < |hs| - 1 ==> ObjectOk32(words, hs, big, k)
  }

  function NewSizeAt(words: seq<int>, h: int): (n: int)
    ensures n >= 0
  {
    if 0 <= h < |words| && 0 <= Wosize(words[h]) then NewWosize(Wosize(words[h]), Tag(words[h])) else 0
  }

  /** The index of the header of the copy of the object with number `k`. */
  function NewPos(words: seq<int>, hs: seq<int>, k: int): (p: int)
    requires 0 <= k <= |hs|
    ensures p >= 0
  {
    if k == 0 then 0 else NewPos(words, hs, k - 1) + 1 + NewSizeAt(words, hs[k - 1])
  }

  lemma {:induction false} NewPosGrows(words: seq<int>, hs: seq<int>, k: int, l: int)
    requires 0 <= k < l <= |hs|
    ensures NewPos(words, hs, k) + 1 + NewSizeAt(words, hs[k]) <= NewPos(words, hs, l)
    decreases l
  {
    hide NewSizeAt;
    if k + 1 < l {
      NewPosGrows(words, hs, k, l - 1);
    }
  }

  /** Copies never lie behind their originals, so that 32 bits are enough for their places. */
  lemma {:induction false} NewPosBelow(words: seq<int>, hs: seq<int>, big: bool, k: int)
    requires BlockOk(words, hs, big) && 0 <= k < |hs|
    ensures NewPos(words, hs, k) <= hs[k]
    decreases k
  {
    hide BytesOf;
    if k > 0 {
      NewPosBelow(words, hs, big, k - 1);
      assert ObjectOk32(words, hs, big, k - 1);
    }
  }

  /** The header in a 32-bit word. The word is read as a signed number and becomes an unsigned one
      of 64 bits, so that the sizes of large objects come out wrong. */
  function SignedHeader(w: int): int {
    if w >= 0x8000_0000 then w + 0xffff_ffff_0000_0000 else w
  }

  predicate Words32(words: seq<int>) {
    forall i :: 0 <= i < |words| ==> 0 <= words[i] < 0x1_0000_0000
  }

  lemma HeaderRange(w: int)
    requires 0 <= w < 0x1_0000_0000
    ensures 0 <= Wosize(SignedHeader(w)) && Tag(SignedHeader(w)) == Tag(w)
    ensures w < 0x8000_0000 ==> SignedHeader(w) == w
    ensures w >= 0x8000_0000 ==> Wosize(SignedHeader(w)) >= 0x3f_ffff_ffe0_0000
    ensures w >= 0x8000_0000 <==> Wosize(w) >= 0x20_0000
  {
  }

  /** The words that the copies of the objects from index `i` on are taken to need. */
  function ExpandedSize(words: seq<int>, i: int): (n: int)
    requires Words32(words) && 0 <= i
    ensures n >= 0
    decreases |words| - i
  {
    if i >= |words| then 0
    else
      HeaderRange(words[i]);
      var hd := SignedHeader(words[i]);
      1 + NewWosize(Wosize(hd), Tag(hd)) + ExpandedSize(words, i + 1 + Wosize(hd))
  }

  /** The size of the block of copies, in words. */
  method SizeAfterExpansion(p: seq<int>) returns (res: int)
    requires Words32(p)
    ensures res == ExpandedSize(p, 0)
  {
    hide Wosize, Tag, SignedHeader;
    var i := 0;
    res := 0;
    while i < |p|
      invariant 0 <= i && res + ExpandedSize(p, i) == ExpandedSize(p, 0)
      decreases |p| - i
    {
      HeaderRange(p[i]);
      var hd := SignedHeader(p[i]);
      i := i + 1;
      res := res + 1;
      var sz := Wosize(hd);
      if Tag(hd) == STRING_TAG {
        res := res + (sz * 4 + 8 - 1) / 8;
      } else if Tag(hd) == DOUBLE_TAG {
        res := res + 8 / 8;
      } else {
        res := res + sz;
      }
      i := i + sz;
    }
  }

  /** No object has so many words that the sign of its header is set. */
  ghost predicate Narrow(words: seq<int>, hs: seq<int>) {
    forall k {:trigger hs[k]} :: 0 <= k < |hs| - 1 ==> NarrowAt(words, hs[k])
  }

  predicate NarrowAt(words: seq<int>, h: int) {
    0 <= h < |words| && words[h] < 0x8000_0000
  }

  /** More words than any machine has. */
  const TOO_MANY := 0x10_0000_0000_0000

  /** Up to the first object that is too large the size is right; with it, it is enormous. */
  lemma {:induction false} SizeFrom(words: seq<int>, hs: seq<int>, big: bool, k: int)
    requires BlockOk(words, hs, big) && Words32(words) && 0 <= k < |hs|
    ensures 0 <= hs[k]
    ensures (forall l {:trigger hs[l]} :: k <= l < |hs| - 1 ==> NarrowAt(words, hs[l])) ==>
              NewPos(words, hs, k) + ExpandedSize(words, hs[k]) == NewPos(words, hs, |hs| - 1)
    ensures (exists l {:trigger hs[l]} :: k <= l < |hs| - 1 && !NarrowAt(words, hs[l])) ==>
              ExpandedSize(words, hs[k]) >= TOO_MANY
    decreases |hs| - k
  {
    hide BlockOk, Words32, NewPos, Wosize, Tag, SignedHeader, FieldsOk, Fields;
    HeadersAscendOk(words, hs, big, k);
    if k < |hs| - 1 {
      SizeOk(words, hs, big, k);
      SizeFrom(words, hs, big, k + 1);
      if !NarrowAt(words, hs[k]) {
        LargeHeader(words, hs, big, k);
      } else {
        SizeStep(words, hs[k]);
      }
    }
  }

  lemma HeadersAscendOk(words: seq<int>, hs: seq<int>, big: bool, k: int)
    requires BlockOk(words, hs, big) && 0 <= k < |hs|
    ensures 0 <= hs[k] <= |words| && (k == |hs| - 1 ==> hs[k] == |words|)
  {
    HeadersAscend(words, hs, k, k);
  }

  lemma LargeHeader(words: seq<int>, hs: seq<int>, big: bool, k: int)
    requires BlockOk(words, hs, big) && Words32(words) && 0 <= k < |hs| - 1 && 0 <= hs[k] && !NarrowAt(words, hs[k])
    ensures ExpandedSize(words, hs[k]) >= TOO_MANY
  {
    hide BytesOf, Wosize, Tag, SignedHeader;
    SizeOk(words, hs, big, k);
    HeaderRange(words[hs[k]]);
  }

  lemma SizeStep(words: seq<int>, h: int)
    requires Words32(words) && 0 <= h < |words| && NarrowAt(words, h) && Wosize(words[h]) >= 0
    ensures ExpandedSize(words, h) ==
            1 + NewWosize(Wosize(words[h]), Tag(words[h])) + ExpandedSize(words, h + 1 + Wosize(words[h]))
  {
    hide Wosize, Tag, NewWosize;
    HeaderRange(words[h]);
  }

  lemma SizeOk(words: seq<int>, hs: seq<int>, big: bool, n: int)
    requires BlockOk(words, hs, big) && 0 <= n < |hs| - 1
    ensures 0 <= hs[n] < |words| && hs[n + 1] == hs[n] + 1 + Wosize(words[hs[n]]) <= |words|
    ensures Wosize(words[hs[n]]) >= 1
    ensures FieldsOk(Tag(words[hs[n]]), Fields(words, hs[n]), big)
    ensures Fields(words, hs[n]) == words[hs[n] + 1..hs[n + 1]]
    ensures NewSizeAt(words, hs[n]) == NewWosize(Wosize(words[hs[n]]), Tag(words[hs[n]]))
    ensures NewPos(words, hs, n + 1) == NewPos(words, hs, n) + 1 + NewSizeAt(words, hs[n])
  {
    hide Wosize, Tag, BytesOf;
    assert ObjectOk32(words, hs, big, n);
  }

  // ----- The copies -----

  /** The object with number `k` has this header and these fields in `dest`. */
  ghost predicate ObjectIs(words: seq<int>, hs: seq<int>, dest: seq<int>, color: int, k: int, fields: seq<int>)
    requires 0 <= k < |hs|
  {
    var h, p := hs[k], NewPos(words, hs, k);
    && 0 <= h < |words| && p + 1 + |fields| <= |dest| && |fields| == NewSizeAt(words, h)
    && dest[p] == MakeHeader(|fields|, Tag(words[h]), color) && dest[p + 1..p + 1 + |fields|] == fields
  }

  /** The value for a field of a copy; `source` has the places of copies. */
  function Resolve(source: seq<int>, v: int, start: int, atom: Atoms): int {
    if v % 4 == 0 then start + 8 * (if 0 <= v / 4 < |source| then source[v / 4] else 0)
    else if v % 4 == 2 then atom(v / 4)
    else v
  }

  function Resolved(source: seq<int>, tag: int, fields: seq<int>, start: int, atom: Atoms): (s: seq<int>)
    ensures |s| == |fields|
  {
    if tag >= NO_SCAN_TAG then fields
    else seq(|fields|, i requires 0 <= i < |fields| => Resolve(source, fields[i], start, atom))
  }

  /** The fields of the copy of an object, before and after the second pass. */
  ghost function NewFields(words: seq<int>, hs: seq<int>, big: bool, k: int): seq<int>
    requires BlockOk(words, hs, big) && 0 <= k < |hs| - 1
  {
    SizeOk(words, hs, big, k);
    Widened(Tag(words[hs[k]]), Fields(words, hs[k]), big)
  }

  ghost function FinalFields(words: seq<int>, hs: seq<int>, big: bool, source: seq<int>, start: int, atom: Atoms,
                             k: int): seq<int>
    requires BlockOk(words, hs, big) && 0 <= k < |hs| - 1
  {
    SizeOk(words, hs, big, k);
    Resolved(source, Tag(words[hs[k]]), NewFields(words, hs, big, k), start, atom)
  }

  /** The places of the first `n` copies have been left in the originals, and what lies behind is
      as it was. */
  ghost predicate Forwarded(words: seq<int>, hs: seq<int>, source: seq<int>, n: int)
    requires 0 <= n < |hs|
  {
    && |source| == |words|
    && (forall k {:trigger hs[k]} ::
          0 <= k < n && 0 <= hs[k] < |words| - 1 ==> source[hs[k] + 1] == NewPos(words, hs, k) + 1)
    && (forall i :: 0 <= i < |words| && hs[n] <= i ==> source[i] == words[i])
  }

  /** The first `n` objects have been copied. */
  ghost predicate Copied(words: seq<int>, hs: seq<int>, big: bool, dest: seq<int>, color: int, n: int)
    requires BlockOk(words, hs, big) && 0 <= n < |hs|
  {
    && |dest| == NewPos(words, hs, |hs| - 1)
    && forall k {:trigger NewFields(words, hs, big, k)} :: 0 <= k < n ==>
         ObjectIs(words, hs, dest, color, k, NewFields(words, hs, big, k))
  }

  /** All objects have been copied, and the offsets in the first `n` copies are resolved. */
  ghost predicate Finished(words: seq<int>, hs: seq<int>, big: bool, source: seq<int>, dest: seq<int>, start: int,
                           color: int, atom: Atoms, n: int)
    requires BlockOk(words, hs, big) && 0 <= n < |hs|
  {
    && |dest| == NewPos(words, hs, |hs| - 1)
    && (forall k {:trigger FinalFields(words, hs, big, source, start, atom, k)} :: 0 <= k < n ==>
          ObjectIs(words, hs, dest, color, k, FinalFields(words, hs, big, source, start, atom, k)))
    && (forall k {:trigger NewFields(words, hs, big, k)} :: n <= k < |hs| - 1 ==>
          ObjectIs(words, hs, dest, color, k, NewFields(words, hs, big, k)))
  }

  /** The objects but one stay when nothing else is written. */
  lemma OthersKept(words: seq<int>, hs: seq<int>, big: bool, before: seq<int>, dest: seq<int>, color: int, n: int,
                   k: int, fields: seq<int>)
    requires BlockOk(words, hs, big) && 0 <= n < |hs| - 1 && 0 <= k < |hs| - 1 && k != n
    requires ObjectIs(words, hs, before, color, k, fields) && |dest| == |before|
    requires forall i ::
               0 <= i < |dest| && !(NewPos(words, hs, n) <= i < NewPos(words, hs, n + 1)) ==> dest[i] == before[i]
    ensures ObjectIs(words, hs, dest, color, k, fields)
  {
    hide BlockOk, NewSizeAt, MakeHeader, Tag;
    var p := NewPos(words, hs, k);
    if k < n {
      NewPosGrows(words, hs, k, n);
    } else {
      NewPosGrows(words, hs, n, k);
    }
    assert dest[p + 1..p + 1 + |fields|] == before[p + 1..p + 1 + |fields|];
  }

  // ----- The expander -----

  /** Words other than `n` of them from index `d` on are as they were. */
  twostate predicate OnlyChanged(dest: array<int>, d: int, n: int)
    reads dest
  {
    forall i :: 0 <= i < dest.Length && !(d <= i < d + n) ==> dest[i] == old(dest[i])
  }

  /** Copies the bytes of a string, and pads it for words of 64 bits. */
  method CopyString(fields: seq<int>, dest: array<int>, d: int, big: bool)
    requires FieldsOk(STRING_TAG, fields, big) && 0 <= d && d + NewWosize(|fields|, STRING_TAG) <= dest.Length
    modifies dest
    ensures dest[d..d + NewWosize(|fields|, STRING_TAG)] == Widened(STRING_TAG, fields, big)
    ensures OnlyChanged(dest, d, NewWosize(|fields|, STRING_TAG))
  {
    hide Padded, JoinBytes, FieldsOk;
    var n, bytes := NewWosize(|fields|, STRING_TAG), Padded(fields, big);
    ghost var w := Widened(STRING_TAG, fields, big);
    var i := 0;
    while i < n
      invariant 0 <= i <= n && OnlyChanged(dest, d, n)
      invariant forall j :: 0 <= j < i ==> dest[d + j] == w[j]
    {
      dest[d + i] := JoinBytes(bytes[8 * i..8 * i + 8], big);
      i := i + 1;
    }
  }

  /** Copies values, each to a word of 64 bits. */
  method CopyValues(tag: int, fields: seq<int>, dest: array<int>, d: int, big: bool)
    requires FieldsOk(tag, fields, big) && !IsOpaque(tag) && 0 <= d && d + |fields| <= dest.Length
    modifies dest
    ensures dest[d..d + |fields|] == Widened(tag, fields, big) && OnlyChanged(dest, d, |fields|)
  {
    hide Extend, FieldsOk;
    ghost var w := Widened(tag, fields, big);
    var i := 0;
    while i < |fields|
      invariant 0 <= i <= |fields| && OnlyChanged(dest, d, |fields|)
      invariant forall j :: 0 <= j < i ==> dest[d + j] == w[j]
    {
      dest[d + i] := Extend(fields[i]);
      i := i + 1;
    }
  }

  /** Copies one object to index `d`. */
  method CopyObject(hd: int, fields: seq<int>, dest: array<int>, d0: int, color: int, big: bool) returns (d: int)
    requires FieldsOk(Tag(hd), fields, big) && 0 <= d0 && d0 + 1 + NewWosize(|fields|, Tag(hd)) <= dest.Length
    modifies dest
    ensures var w := Widened(Tag(hd), fields, big);
            d == d0 + 1 + |w| && dest[d0] == MakeHeader(|w|, Tag(hd), color) && dest[d0 + 1..d] == w
    ensures OnlyChanged(dest, d0, 1 + NewWosize(|fields|, Tag(hd)))
  {
    hide MakeHeader, BytesOf, JoinBytes, Padded, Extend;
    var tag := Tag(hd);
    var n := NewWosize(|fields|, tag);
    dest[d0] := MakeHeader(n, tag, color);
    if tag == STRING_TAG {
      CopyString(fields, dest, d0 + 1, big);
    } else if tag == DOUBLE_TAG {
      dest[d0 + 1] := JoinBytes(BytesOf(fields, 4, big), big);
    } else {
      CopyValues(tag, fields, dest, d0 + 1, big);
    }
    d := d0 + 1 + n;
  }

  /** First pass: copies all objects and leaves the place of each copy in the original. */
  method CopyAll(source: array<int>, dest: array<int>, color: int, big: bool, ghost hs: seq<int>)
    requires source != dest && BlockOk(source[..], hs, big) && Narrow(source[..], hs)
    requires dest.Length == NewPos(source[..], hs, |hs| - 1)
    modifies source, dest
    ensures Forwarded(old(source[..]), hs, source[..], |hs| - 1)
    ensures Copied(old(source[..]), hs, big, dest[..], color, |hs| - 1)
  {
    hide BlockOk, Forwarded, Copied, Wosize, Tag, FieldsOk, Fields, NewPos, NewSizeAt;
    ghost var words := source[..];
    var p, d := 0, 0;
    ghost var n := 0;
    NothingCopied(words, hs, big, dest[..], color);
    while p < source.Length
      invariant 0 <= n < |hs| && p == hs[n] && d == NewPos(words, hs, n)
      invariant Forwarded(words, hs, source[..], n) && Copied(words, hs, big, dest[..], color, n)
      decreases |hs| - n
    {
      p, d := CopyOne(source, dest, p, d, color, big, words, hs, n);
      n := n + 1;
    }
    HeadersEnd(words, hs, big, n);
  }

  lemma HeadersEnd(words: seq<int>, hs: seq<int>, big: bool, n: int)
    requires BlockOk(words, hs, big) && 0 <= n < |hs| && hs[n] >= |words|
    ensures n == |hs| - 1
  {
    HeadersAscend(words, hs, n, |hs| - 1);
  }

  lemma NothingCopied(words: seq<int>, hs: seq<int>, big: bool, dest: seq<int>, color: int)
    requires BlockOk(words, hs, big) && |dest| == NewPos(words, hs, |hs| - 1)
    ensures 0 < |hs| && NewPos(words, hs, 0) == 0 == hs[0]
    ensures Forwarded(words, hs, words, 0) && Copied(words, hs, big, dest, color, 0)
  {
  }

  method CopyOne(source: array<int>, dest: array<int>, p0: int, d0: int, color: int, big: bool, ghost words: seq<int>,
                 ghost hs: seq<int>, ghost n: int) returns (p: int, d: int)
    requires source != dest && BlockOk(words, hs, big) && 0 <= n < |hs| && p0 == hs[n] < source.Length
    requires d0 == NewPos(words, hs, n) && Narrow(words, hs)
    requires Forwarded(words, hs, source[..], n) && Copied(words, hs, big, dest[..], color, n)
    modifies source, dest
    ensures n + 1 < |hs| && p == hs[n + 1] && d == NewPos(words, hs, n + 1)
    ensures Forwarded(words, hs, source[..], n + 1) && Copied(words, hs, big, dest[..], color, n + 1)
  {
    hide BlockOk, Wosize, Tag, FieldsOk, Fields, NewPos, NewSizeAt, Widened, Copied, MakeHeader;
    ForwardedLength(words, hs, source[..], n);
    NotLastOf(words, hs, big, n);
    SizeOk(words, hs, big, n);
    NewPosOf(words, hs, big, dest[..], color, n);
    ghost var before := dest[..];
    assert NarrowAt(words, hs[n]);
    var hd := SignedHeader(source[p0]);
    var sz := Wosize(hd);
    assert source[p0 + 1..p0 + 1 + sz] == words[p0 + 1..p0 + 1 + sz];
    d := CopyObject(hd, source[p0 + 1..p0 + 1 + sz], dest, d0, color, big);
    CopiedNext(words, hs, big, before, dest[..], color, n);
    ghost var src := source[..];
    source[p0 + 1] := d0 + 1;
    ForwardedNext(words, hs, big, src, source[..], n);
    p := p0 + 1 + sz;
  }

  lemma ForwardedLength(words: seq<int>, hs: seq<int>, source: seq<int>, n: int)
    requires 0 <= n < |hs| && Forwarded(words, hs, source, n)
    ensures |source| == |words| && forall i :: 0 <= i < |words| && hs[n] <= i ==> source[i] == words[i]
  {
  }

  lemma NotLastOf(words: seq<int>, hs: seq<int>, big: bool, n: int)
    requires BlockOk(words, hs, big) && 0 <= n < |hs| && hs[n] < |words|
    ensures n < |hs| - 1
  {
  }

  lemma NewPosOf(words: seq<int>, hs: seq<int>, big: bool, dest: seq<int>, color: int, n: int)
    requires BlockOk(words, hs, big) && 0 <= n < |hs| - 1 && Copied(words, hs, big, dest, color, n)
    ensures 0 <= NewPos(words, hs, n) && NewPos(words, hs, n) + 1 + NewSizeAt(words, hs[n]) <= |dest|
  {
    hide BlockOk, NewSizeAt;
    NewPosGrows(words, hs, n, |hs| - 1);
  }

  lemma CopiedNext(words: seq<int>, hs: seq<int>, big: bool, before: seq<int>, dest: seq<int>, color: int, n: int)
    requires BlockOk(words, hs, big) && 0 <= n < |hs| - 1 && Copied(words, hs, big, before, color, n)
    requires |dest| == |before| && ObjectIs(words, hs, dest, color, n, NewFields(words, hs, big, n))
    requires forall i ::
               0 <= i < |dest| && !(NewPos(words, hs, n) <= i < NewPos(words, hs, n + 1)) ==> dest[i] == before[i]
    ensures Copied(words, hs, big, dest, color, n + 1)
  {
    hide BlockOk, ObjectIs, NewFields, NewPos;
    forall k {:trigger NewFields(words, hs, big, k)} | 0 <= k < n + 1
      ensures ObjectIs(words, hs, dest, color, k, NewFields(words, hs, big, k))
    {
      if k < n {
        OthersKept(words, hs, big, before, dest, color, n, k, NewFields(words, hs, big, k));
      }
    }
  }

  lemma ForwardedNext(words: seq<int>, hs: seq<int>, big: bool, before: seq<int>, source: seq<int>, n: int)
    requires BlockOk(words, hs, big) && 0 <= n < |hs| - 1 && Forwarded(words, hs, before, n) && 0 <= hs[n] < |words| - 1
    requires source == before[hs[n] + 1 := NewPos(words, hs, n) + 1]
    ensures Forwarded(words, hs, source, n + 1)
  {
    hide NewPos, NewSizeAt, FieldsOk, Fields, Wosize;
    SizeOk(words, hs, big, n);
    forall k {:trigger hs[k]} | 0 <= k < n
      ensures hs[k] < hs[n]
    {
      HeadersAscend(words, hs, k, n);
    }
  }

  /** Offsets in values are inside the block. */
  ghost predicate OffsetsInside(words: seq<int>, hs: seq<int>, big: bool)
    requires BlockOk(words, hs, big)
  {
    forall k {:trigger NewFields(words, hs, big, k)} ::
      0 <= k < |hs| - 1 && 0 <= hs[k] < |words| && Tag(words[hs[k]]) < NO_SCAN_TAG ==>
        InsideAll(NewFields(words, hs, big, k), |words|)
  }

  ghost predicate InsideAll(fields: seq<int>, size: int) {
    forall i :: 0 <= i < |fields| && fields[i] % 4 == 0 ==> 0 <= fields[i] / 4 < size
  }

  lemma NothingResolved(words: seq<int>, hs: seq<int>, big: bool, source: seq<int>, dest: seq<int>, start: int,
                        color: int, atom: Atoms)
    requires BlockOk(words, hs, big) && Copied(words, hs, big, dest, color, |hs| - 1)
    ensures 0 < |hs| && NewPos(words, hs, 0) == 0
    ensures Finished(words, hs, big, source, dest, start, color, atom, 0)
  {
  }

  /** Second pass: offsets are replaced by the places of the copies. */
  method ResolveAll(source: array<int>, dest: array<int>, start: int, color: int, atom: Atoms, big: bool,
                    ghost words: seq<int>, ghost hs: seq<int>)
    requires source != dest && BlockOk(words, hs, big) && OffsetsInside(words, hs, big) && IsColor(color)
    requires source.Length == |words|
    requires Copied(words, hs, big, dest[..], color, |hs| - 1)
    modifies dest
    ensures Finished(words, hs, big, source[..], dest[..], start, color, atom, |hs| - 1)
  {
    hide BlockOk, Copied, Finished, OffsetsInside, NewPos;
    var d := 0;
    ghost var n := 0;
    NothingResolved(words, hs, big, source[..], dest[..], start, color, atom);
    while d < dest.Length
      invariant 0 <= n < |hs| && d == NewPos(words, hs, n)
      invariant Finished(words, hs, big, source[..], dest[..], start, color, atom, n)
      decreases |hs| - n
    {
      d := ResolveOne(source, dest, d, start, color, atom, big, words, hs, n);
      n := n + 1;
    }
    AllResolved(words, hs, big, source[..], dest[..], start, color, atom, n);
  }

  lemma AllResolved(words: seq<int>, hs: seq<int>, big: bool, source: seq<int>, dest: seq<int>, start: int, color: int,
                    atom: Atoms, n: int)
    requires BlockOk(words, hs, big) && 0 <= n < |hs| && Finished(words, hs, big, source, dest, start, color, atom, n)
    requires NewPos(words, hs, n) >= |dest|
    ensures n == |hs| - 1
  {
    hide NewSizeAt, ObjectIs, BlockOk, NewFields, FinalFields;
    if n < |hs| - 1 {
      NewPosGrows(words, hs, n, |hs| - 1);
    }
  }

  method ResolveOne(source: array<int>, dest: array<int>, d0: int, start: int, color: int, atom: Atoms, big: bool,
                    ghost words: seq<int>, ghost hs: seq<int>, ghost n: int) returns (d: int)
    requires source != dest && BlockOk(words, hs, big) && OffsetsInside(words, hs, big) && IsColor(color)
    requires source.Length == |words|
    requires 0 <= n < |hs| && d0 == NewPos(words, hs, n) < dest.Length
    requires Finished(words, hs, big, source[..], dest[..], start, color, atom, n)
    modifies dest
    ensures n + 1 < |hs| && d == NewPos(words, hs, n + 1)
    ensures Finished(words, hs, big, source[..], dest[..], start, color, atom, n + 1)
  {
    hide BlockOk, Finished, OffsetsInside, NewPos, Wosize, Tag, MakeHeader, NewFields, FinalFields, NewSizeAt, Resolve;
    ghost var before := dest[..];
    NextObject(words, hs, big, source[..], before, start, color, atom, n);
    ghost var fields := NewFields(words, hs, big, n);
    var hd := dest[d0];
    var sz, tag := Wosize(hd), Tag(hd);
    assert before[d0] == hd && dest[d0 + 1..d0 + 1 + sz] == before[d0 + 1..d0 + 1 + sz] == fields;
    if tag < NO_SCAN_TAG {
      ResolveFields(source, dest, d0 + 1, sz, start, atom);
    }
    d := d0 + 1 + sz;
    assert dest[d0 + 1..d0 + 1 + sz] == Resolved(source[..], tag, fields, start, atom);
    ResolvedNext(words, hs, big, source[..], before, dest[..], start, color, atom, n);
  }

  /** Resolves the values from index `d` on. */
  method ResolveFields(source: array<int>, dest: array<int>, d: int, sz: int, start: int, atom: Atoms)
    requires source != dest && 0 <= d && 0 <= sz && d + sz <= dest.Length && InsideAll(dest[d..d + sz], source.Length)
    modifies dest
    ensures dest[d..d + sz] == Resolved(source[..], 0, old(dest[d..d + sz]), start, atom) && OnlyChanged(dest, d, sz)
  {
    ghost var fields := dest[d..d + sz];
    var i := 0;
    while i < sz
      invariant 0 <= i <= sz && OnlyChanged(dest, d, sz)
      invariant forall j :: 0 <= j < i ==> dest[d + j] == Resolve(source[..], fields[j], start, atom)
      invariant forall j :: i <= j < sz ==> dest[d + j] == fields[j]
    {
      var v := dest[d + i];
      assert v == fields[i];
      if v % 4 == 0 {
        dest[d + i] := start + 8 * source[v / 4];
      } else if v % 4 == 2 {
        dest[d + i] := atom(v / 4);
      }
      i := i + 1;
    }
  }

  lemma NextObject(words: seq<int>, hs: seq<int>, big: bool, source: seq<int>, dest: seq<int>, start: int, color: int,
                   atom: Atoms, n: int)
    requires BlockOk(words, hs, big) && OffsetsInside(words, hs, big) && IsColor(color) && 0 <= n < |hs|
    requires NewPos(words, hs, n) < |dest|
    requires Finished(words, hs, big, source, dest, start, color, atom, n)
    ensures n < |hs| - 1 && 0 <= hs[n] < |words|
    ensures var p, fields, hd := NewPos(words, hs, n), NewFields(words, hs, big, n), dest[NewPos(words, hs, n)];
            && 0 <= p && p + 1 + |fields| <= |dest| && dest[p + 1..p + 1 + |fields|] == fields
            && NewPos(words, hs, n + 1) == p + 1 + |fields| && NewSizeAt(words, hs[n]) == |fields|
            && Wosize(hd) == |fields| && Tag(hd) == Tag(words[hs[n]]) && hd == MakeHeader(|fields|, Tag(hd), color)
            && (Tag(hd) < NO_SCAN_TAG ==> InsideAll(fields, |words|))
            && FinalFields(words, hs, big, source, start, atom, n) == Resolved(source, Tag(hd), fields, start, atom)
  {
    hide BlockOk, Wosize, MakeHeader, NewFields, NewSizeAt, Resolved, InsideAll;
    if n == |hs| - 1 {
    } else {
      SizeOk(words, hs, big, n);
      assert ObjectIs(words, hs, dest, color, n, NewFields(words, hs, big, n));
      HeaderParts(|NewFields(words, hs, big, n)|, Tag(words[hs[n]]), color);
    }
  }

  lemma ResolvedNext(words: seq<int>, hs: seq<int>, big: bool, source: seq<int>, before: seq<int>, dest: seq<int>,
                     start: int, color: int, atom: Atoms, n: int)
    requires BlockOk(words, hs, big) && 0 <= n < |hs| - 1 && |dest| == |before|
    requires Finished(words, hs, big, source, before, start, color, atom, n)
    requires ObjectIs(words, hs, dest, color, n, FinalFields(words, hs, big, source, start, atom, n))
    requires forall i ::
               0 <= i < |dest| && !(NewPos(words, hs, n) <= i < NewPos(words, hs, n + 1)) ==> dest[i] == before[i]
    ensures Finished(words, hs, big, source, dest, start, color, atom, n + 1)
  {
    hide BlockOk, ObjectIs, NewFields, FinalFields, NewPos;
    forall k {:trigger FinalFields(words, hs, big, source, start, atom, k)} | 0 <= k < n
      ensures ObjectIs(words, hs, dest, color, k, FinalFields(words, hs, big, source, start, atom, k))
    {
      OthersKept(words, hs, big, before, dest, color, n, k, FinalFields(words, hs, big, source, start, atom, k));
    }
    forall k {:trigger NewFields(words, hs, big, k)} | n + 1 <= k < |hs| - 1
      ensures ObjectIs(words, hs, dest, color, k, NewFields(words, hs, big, k))
    {
      OthersKept(words, hs, big, before, dest, color, n, k, NewFields(words, hs, big, k));
    }
  }

  /** Both passes, for a block of the computed size. The new block lies at address `start`. */
  method ExpandBlock(source: array<int>, dest: array<int>, start: int, color: int, atom: Atoms, big: bool,
                     ghost hs: seq<int>)
    requires source != dest && BlockOk(source[..], hs, big) && OffsetsInside(source[..], hs, big) && IsColor(color)
    requires Words32(source[..]) && dest.Length == ExpandedSize(source[..], 0) < TOO_MANY
    modifies source, dest
    ensures Forwarded(old(source[..]), hs, source[..], |hs| - 1)
    ensures Finished(old(source[..]), hs, big, source[..], dest[..], start, color, atom, |hs| - 1)
  {
    hide Copied, Finished, NewPos, Words32, ExpandedSize, NarrowAt;
    ghost var words := source[..];
    SizeFrom(words, hs, big, 0);
    FirstNewPos(words, hs);
    assert Narrow(words, hs);
    CopyAll(source, dest, color, big, hs);
    ForwardedLength(words, hs, source[..], |hs| - 1);
    ResolveAll(source, dest, start, color, atom, big, words, hs);
  }

  lemma FirstNewPos(words: seq<int>, hs: seq<int>)
    ensures NewPos(words, hs, 0) == 0
  {
  }

  /** What has become of a block that has been read: nothing if there is no room for the size
      that its copies are taken to need. */
  ghost predicate Expanded(words: seq<int>, hs: seq<int>, big: bool, room: int, source: seq<int>, dest: seq<int>,
                           start: int, color: int, atom: Atoms)
    requires BlockOk(words, hs, big) && Words32(words) && hs != []
  {
    && |dest| == ExpandedSize(words, 0) <= room
    && Forwarded(words, hs, source, |hs| - 1)
    && Finished(words, hs, big, source, dest, start, color, atom, |hs| - 1)
  }

  /** Reads a block of 32-bit words into a memory with room for `room` words. */
  method ReadBlock32(source: array<int>, room: int, start: int, color: int, atom: Atoms, big: bool, ghost hs: seq<int>)
    returns (dest: array<int>, ok: bool)
    requires BlockOk(source[..], hs, big) && OffsetsInside(source[..], hs, big) && IsColor(color)
    requires Words32(source[..]) && room < TOO_MANY
    modifies source
    ensures ok <==> ExpandedSize(old(source[..]), 0) <= room
    ensures ok ==> Expanded(old(source[..]), hs, big, room, source[..], dest[..], start, color, atom)
  {
    hide BlockOk, OffsetsInside, Words32, ExpandedSize, Finished, Forwarded;
    var size := SizeAfterExpansion(source[..]);
    ok := size <= room;
    dest := new int[if ok then size else 0];
    if ok {
      ExpandBlock(source, dest, start, color, atom, big, hs);
    }
  }
}
