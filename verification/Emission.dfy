/** The compiler's buffer of bytecode and its labels, with backpatching of forward references
    (src/compiler/Buffcode.sml, src/compiler/Labels.sml, src/compiler/Emitcode.sml). */
module Emission {
  import opened Bytecode
  import opened Expansion
  import opened Encoding
  import opened Threading

  /** An instruction with its numbers and labels, or the place that a label marks. */
  datatype Zam = Mark(name: nat) | Emit(op: int, nums: seq<int>, labels: seq<nat>)

  /** Where a label is, or else the places to patch, each with the address it counts from. */
  datatype Definition = Defined(at: int) | Undefined(pending: seq<(int, int)>)

  ghost predicate CodeOk(code: seq<Zam>) {
    forall i :: 0 <= i < |code| && code[i].Emit? ==> Encodable(code[i].op, code[i].nums, |code[i].labels|)
  }

  // ----- The layout -----

  ghost function Size(z: Zam): nat {
    if z.Mark? || ShapeOf(z.op).None? then 0 else 1 + NumBytes(ShapeOf(z.op).value) + 4 * |z.labels|
  }

  /** The address of item `i`. */
  ghost function Start(code: seq<Zam>, i: int): nat
    requires i <= |code|
  {
    if i <= 0 then 0 else Start(code, i - 1) + Size(code[i - 1])
  }

  ghost predicate IsSlot(code: seq<Zam>, i: int, j: int) {
    0 <= i < |code| && code[i].Emit? && ShapeOf(code[i].op).Some? && 0 <= j < |code[i].labels|
  }

  ghost function SlotOf(code: seq<Zam>, i: int, j: int): int
    requires IsSlot(code, i, j)
  {
    Slot(Start(code, i), code[i].op, j)
  }

  ghost function OriginOf(code: seq<Zam>, i: int, j: int): int
    requires IsSlot(code, i, j)
  {
    Origin(Start(code, i), code[i].op, j)
  }

  ghost predicate Marked(code: seq<Zam>, l: nat, m: int) {
    0 <= m < |code| && code[m] == Mark(l)
  }

  lemma {:induction false} StartMonotone(code: seq<Zam>, i: int, k: int)
    requires 0 <= i <= k <= |code|
    ensures Start(code, i) <= Start(code, k)
    decreases k
  {
    if i < k {
      StartMonotone(code, i, k - 1);
    }
  }

  /** Items lie one after the other. */
  lemma ItemsApart(code: seq<Zam>, i: int, k: int)
    requires 0 <= i < k <= |code|
    ensures Start(code, i) + Size(code[i]) <= Start(code, k)
  {
    hide *;
    StartNext(code, i);
    StartMonotone(code, i + 1, k);
  }

  lemma StartNext(code: seq<Zam>, i: int)
    requires 0 <= i < |code|
    ensures Start(code, i + 1) == Start(code, i) + Size(code[i])
  {
    hide Size;
  }

  /** Different labels have different places. */
  lemma SlotsApart(code: seq<Zam>, i: int, j: int, i': int, j': int)
    requires IsSlot(code, i, j) && IsSlot(code, i', j') && (i, j) != (i', j')
    ensures SlotOf(code, i, j) + 4 <= SlotOf(code, i', j') || SlotOf(code, i', j') + 4 <= SlotOf(code, i, j)
  {
    hide ShapeOf, Start, NumBytes;
    if i < i' {
      ItemsApart(code, i, i');
    } else if i' < i {
      ItemsApart(code, i', i);
    }
  }

  lemma HeadApart(code: seq<Zam>, i: int, i': int, j: int)
    requires 0 <= i < |code| && code[i].Emit? && ShapeOf(code[i].op).Some? && IsSlot(code, i', j)
    ensures var n := 1 + NumBytes(ShapeOf(code[i].op).value);
            Start(code, i) + n <= SlotOf(code, i', j) || SlotOf(code, i', j) + 4 <= Start(code, i)
  {
    hide ShapeOf, Start, NumBytes;
    if i < i' {
      ItemsApart(code, i, i');
    } else if i' < i {
      ItemsApart(code, i', i);
    }
  }

  // ----- What has been written so far -----

  /** Bytes have been written at `p`, and nothing before the old end has changed elsewhere. */
  ghost predicate Wrote(before: seq<byte>, p: int, bytes: seq<byte>, after: seq<byte>) {
    && |before| <= |after| && BytesAt(after, p, bytes)
    && forall i :: 0 <= i < |before| && !(p <= i < p + |bytes|) ==> after[i] == before[i]
  }

  lemma WroteTwice(a: seq<byte>, p: int, x: seq<byte>, b: seq<byte>, y: seq<byte>, c: seq<byte>)
    requires Wrote(a, p, x, b) && Wrote(b, p + |x|, y, c)
    ensures Wrote(a, p, x + y, c)
  {
    assert BytesAt(c, p, x) by {
      Kept(b, p + |x|, y, c, p, x);
    }
    Joined(c, p, x, y);
  }

  /** What does not overlap stays. */
  lemma Kept(before: seq<byte>, p: int, bytes: seq<byte>, after: seq<byte>, q: int, x: seq<byte>)
    requires Wrote(before, p, bytes, after) && BytesAt(before, q, x) && (q + |x| <= p || p + |bytes| <= q)
    ensures BytesAt(after, q, x)
  {
    forall i | 0 <= i < |x|
      ensures after[q..q + |x|][i] == x[i]
    {
      assert before[q..q + |x|][i] == x[i];
      assert after[q + i] == before[q + i];
    }
  }

  /** Label `j` of item `i` comes before label `k` of item `n`. */
  ghost predicate Before(n: int, k: int, i: int, j: int) {
    i < n || (i == n && j < k)
  }

  /** The address reached; with `k < 0` the opcode of item `n` has not been written. */
  ghost function Reached(code: seq<Zam>, n: int, k: int): int
    requires 0 <= n <= |code| && (k >= 0 ==> n < |code| && code[n].Emit? && ShapeOf(code[n].op).Some?)
  {
    if k < 0 then Start(code, n) else Slot(Start(code, n), code[n].op, k)
  }

  ghost function Offset(code: seq<Zam>, table: seq<Definition>, i: int, j: int): int
    requires IsSlot(code, i, j)
  {
    var l := code[i].labels[j];
    if l < |table| && table[l].Defined? then table[l].at - OriginOf(code, i, j) else 0
  }

  ghost predicate HeadsLaid(buf: seq<byte>, code: seq<Zam>, n: int, k: int) {
    forall i {:trigger code[i]} :: 0 <= i < |code| && Before(n, k, i, -1) && code[i].Emit? ==>
      ShapeOf(code[i].op).Some? && |code[i].nums| == NumCount(ShapeOf(code[i].op).value) &&
      BytesAt(buf, Start(code, i), Head(code[i].op, code[i].nums))
  }

  ghost predicate SlotsLaid(buf: seq<byte>, code: seq<Zam>, n: int, k: int, table: seq<Definition>) {
    forall i, j {:trigger IsSlot(code, i, j)} :: IsSlot(code, i, j) && Before(n, k, i, j) ==>
      BytesAt(buf, SlotOf(code, i, j), OutLong(Offset(code, table, i, j)))
  }

  ghost predicate IsRef(code: seq<Zam>, n: int, k: int, l: nat, r: (int, int)) {
    exists i, j :: IsSlot(code, i, j) && Before(n, k, i, j) && code[i].labels[j] == l &&
                   r == (SlotOf(code, i, j), OriginOf(code, i, j))
  }

  /** Every reference to a label that is not defined yet is pending, and nothing else is. */
  ghost predicate RefsOk(code: seq<Zam>, n: int, k: int, table: seq<Definition>) {
    && (forall i, j {:trigger IsSlot(code, i, j)} :: IsSlot(code, i, j) && Before(n, k, i, j) ==>
          code[i].labels[j] < |table| &&
          (table[code[i].labels[j]].Undefined? ==>
             (SlotOf(code, i, j), OriginOf(code, i, j)) in table[code[i].labels[j]].pending))
    && (forall l: nat, r {:trigger IsRef(code, n, k, l, r)} ::
          l < |table| && table[l].Undefined? && r in table[l].pending ==> IsRef(code, n, k, l, r))
  }

  /** The labels that are defined are those marked so far. */
  ghost predicate MarksOk(code: seq<Zam>, n: int, table: seq<Definition>) {
    && (forall m: int, l: nat {:trigger Marked(code, l, m)} :: Marked(code, l, m) && m < n ==>
          l < |table| && table[l] == Defined(Start(code, m)))
    && (forall l: nat :: l < |table| && table[l].Defined? ==> exists m :: Marked(code, l, m) && m < n)
  }

  ghost predicate Laid(buf: seq<byte>, code: seq<Zam>, n: int, k: int, table: seq<Definition>) {
    && 0 <= n <= |code|
    && (k >= 0 ==> n < |code| && code[n].Emit? && ShapeOf(code[n].op).Some? && k <= |code[n].labels|)
    && HeadsLaid(buf, code, n, k) && SlotsLaid(buf, code, n, k, table)
    && RefsOk(code, n, k, table) && MarksOk(code, n, table)
  }

  /** Everything written so far lies below the address reached. */
  lemma BelowReached(code: seq<Zam>, n: int, k: int, i: int)
    requires 0 <= i < |code| && code[i].Emit? && ShapeOf(code[i].op).Some? && 0 <= n <= |code| && Before(n, k, i, -1)
    requires k >= 0 ==> n < |code| && code[n].Emit? && ShapeOf(code[n].op).Some?
    ensures Start(code, i) + 1 + NumBytes(ShapeOf(code[i].op).value) <= Reached(code, n, k)
    ensures forall j :: IsSlot(code, i, j) && Before(n, k, i, j) ==> SlotOf(code, i, j) + 4 <= Reached(code, n, k)
  {
    hide ShapeOf, Start, NumBytes;
    if i < n {
      ItemsApart(code, i, n);
    }
  }

  lemma NothingLaid(buf: seq<byte>, code: seq<Zam>, table: seq<Definition>)
    requires forall l :: 0 <= l < |table| ==> table[l] == Undefined([])
    ensures Laid(buf, code, 0, -1, table)
  {
  }

  /** The head of item `n` is written. */
  lemma HeadWritten(buf: seq<byte>, buf': seq<byte>, code: seq<Zam>, n: int, table: seq<Definition>)
    requires CodeOk(code) && Laid(buf, code, n, -1, table) && n < |code| && code[n].Emit?
    requires Wrote(buf, Start(code, n), Head(code[n].op, code[n].nums), buf')
    ensures Laid(buf', code, n, 0, table)
  {
    hide ShapeOf, Head, Start, NumBytes, Offset;
    var head := Head(code[n].op, code[n].nums);
    forall i {:trigger code[i]} | 0 <= i < |code| && Before(n, 0, i, -1) && code[i].Emit?
      ensures ShapeOf(code[i].op).Some? && |code[i].nums| == NumCount(ShapeOf(code[i].op).value)
      ensures BytesAt(buf', Start(code, i), Head(code[i].op, code[i].nums))
    {
      if i < n {
        BelowReached(code, n, -1, i);
        Kept(buf, Start(code, n), head, buf', Start(code, i), Head(code[i].op, code[i].nums));
      }
    }
    forall i, j {:trigger IsSlot(code, i, j)} | IsSlot(code, i, j) && Before(n, 0, i, j)
      ensures BytesAt(buf', SlotOf(code, i, j), OutLong(Offset(code, table, i, j)))
    {
      BelowReached(code, n, -1, i);
      Kept(buf, Start(code, n), head, buf', SlotOf(code, i, j), OutLong(Offset(code, table, i, j)));
    }
    SameRefs(code, n, -1, n, 0, table);
  }

  lemma SameRefs(code: seq<Zam>, n: int, k: int, n': int, k': int, table: seq<Definition>)
    requires RefsOk(code, n, k, table)
    requires forall i, j {:trigger IsSlot(code, i, j)} :: IsSlot(code, i, j) ==>
               (Before(n, k, i, j) <==> Before(n', k', i, j))
    ensures RefsOk(code, n', k', table)
  {
    hide SlotOf, OriginOf;
    forall l: nat, r {:trigger IsRef(code, n', k', l, r)} | l < |table| && table[l].Undefined? && r in table[l].pending
      ensures IsRef(code, n', k', l, r)
    {
      assert IsRef(code, n, k, l, r);
    }
  }

  /** All labels of item `n` are written. */
  lemma ItemDone(buf: seq<byte>, code: seq<Zam>, n: int, table: seq<Definition>)
    requires 0 <= n < |code| && code[n].Emit? && Laid(buf, code, n, |code[n].labels|, table)
    ensures Laid(buf, code, n + 1, -1, table) && Start(code, n + 1) == Reached(code, n, |code[n].labels|)
  {
    hide Offset, OriginOf;
    SameRefs(code, n, |code[n].labels|, n + 1, -1, table);
  }

  /** More room for labels. */
  lemma TableGrown(buf: seq<byte>, code: seq<Zam>, n: int, k: int, table: seq<Definition>, table': seq<Definition>)
    requires Laid(buf, code, n, k, table) && table <= table'
    requires forall l :: |table| <= l < |table'| ==> table'[l] == Undefined([])
    ensures Laid(buf, code, n, k, table')
  {
    hide SlotOf, OriginOf, ShapeOf, Start, Head;
    forall i, j {:trigger IsSlot(code, i, j)} | IsSlot(code, i, j) && Before(n, k, i, j)
      ensures Offset(code, table', i, j) == Offset(code, table, i, j)
    {
      assert code[i].labels[j] < |table|;
    }
  }

  /** A reference to a label that is defined is written at once. */
  lemma KnownWritten(buf: seq<byte>, buf': seq<byte>, code: seq<Zam>, n: int, k: int, table: seq<Definition>)
    requires Laid(buf, code, n, k, table) && IsSlot(code, n, k) && code[n].labels[k] < |table|
    requires table[code[n].labels[k]].Defined?
    requires Wrote(buf, SlotOf(code, n, k), OutLong(Offset(code, table, n, k)), buf')
    ensures Laid(buf', code, n, k + 1, table)
  {
    hide ShapeOf, Start, NumBytes, Offset, OutLong;
    SlotWritten(buf, buf', code, n, k, table, table);
    forall l: nat, r {:trigger IsRef(code, n, k + 1, l, r)} | l < |table| && table[l].Undefined? &&
      r in table[l].pending
      ensures IsRef(code, n, k + 1, l, r)
    {
      assert IsRef(code, n, k, l, r);
    }
  }

  lemma SlotWritten(buf: seq<byte>, buf': seq<byte>, code: seq<Zam>, n: int, k: int, table: seq<Definition>,
                    table': seq<Definition>)
    requires Laid(buf, code, n, k, table) && IsSlot(code, n, k)
    requires forall i, j {:trigger IsSlot(code, i, j)} :: IsSlot(code, i, j) && Before(n, k, i, j) ==>
               Offset(code, table', i, j) == Offset(code, table, i, j)
    requires Wrote(buf, SlotOf(code, n, k), OutLong(Offset(code, table', n, k)), buf')
    ensures HeadsLaid(buf', code, n, k + 1) && SlotsLaid(buf', code, n, k + 1, table')
  {
    hide ShapeOf, Start, NumBytes, Offset, OutLong, Head, RefsOk, MarksOk;
    var x := OutLong(Offset(code, table', n, k));
    forall i {:trigger code[i]} | 0 <= i < |code| && Before(n, k + 1, i, -1) && code[i].Emit?
      ensures ShapeOf(code[i].op).Some? && |code[i].nums| == NumCount(ShapeOf(code[i].op).value)
      ensures BytesAt(buf', Start(code, i), Head(code[i].op, code[i].nums))
    {
      assert Before(n, k, i, -1);
      HeadApart(code, i, n, k);
      Kept(buf, SlotOf(code, n, k), x, buf', Start(code, i), Head(code[i].op, code[i].nums));
    }
    forall i, j {:trigger IsSlot(code, i, j)} | IsSlot(code, i, j) && Before(n, k + 1, i, j)
      ensures BytesAt(buf', SlotOf(code, i, j), OutLong(Offset(code, table', i, j)))
    {
      if (i, j) != (n, k) {
        assert Before(n, k, i, j);
        SlotsApart(code, i, j, n, k);
        Kept(buf, SlotOf(code, n, k), x, buf', SlotOf(code, i, j), OutLong(Offset(code, table, i, j)));
      }
    }
  }

  /** A forward reference is written as zero and remembered. */
  lemma ForwardWritten(buf: seq<byte>, buf': seq<byte>, code: seq<Zam>, n: int, k: int, table: seq<Definition>)
    requires Laid(buf, code, n, k, table) && IsSlot(code, n, k) && code[n].labels[k] < |table|
    requires table[code[n].labels[k]].Undefined?
    requires Wrote(buf, SlotOf(code, n, k), OutLong(0), buf')
    ensures var l := code[n].labels[k];
            Laid(buf', code, n, k + 1,
                 table[l := Undefined([(SlotOf(code, n, k), OriginOf(code, n, k))] + table[l].pending)])
  {
    hide ShapeOf, Start, NumBytes, SlotOf, OriginOf;
    var l := code[n].labels[k];
    var table' := table[l := Undefined([(SlotOf(code, n, k), OriginOf(code, n, k))] + table[l].pending)];
    SlotWritten(buf, buf', code, n, k, table, table');
    forall l': nat, r {:trigger IsRef(code, n, k + 1, l', r)} |
      l' < |table'| && table'[l'].Undefined? && r in table'[l'].pending
      ensures IsRef(code, n, k + 1, l', r)
    {
      if l' < |table| && table[l'].Undefined? && r in table[l'].pending {
        assert IsRef(code, n, k, l', r);
      }
    }
  }

  // ----- Backpatching -----

  /** The first `d` pending references to label `l` have been patched to lead to `at`. */
  ghost predicate Patched(buf: seq<byte>, buf': seq<byte>, pending: seq<(int, int)>, at: int, d: int)
    requires 0 <= d <= |pending|
  {
    && |buf'| == |buf|
    && (forall c {:trigger pending[c]} :: 0 <= c < d ==> BytesAt(buf', pending[c].0, OutLong(at - pending[c].1)))
    && (forall i :: 0 <= i < |buf| && Untouched(pending, d, i) ==> buf'[i] == buf[i])
  }

  ghost predicate Untouched(pending: seq<(int, int)>, d: int, i: int)
    requires 0 <= d <= |pending|
  {
    forall c {:trigger pending[c]} :: 0 <= c < d ==> !(pending[c].0 <= i < pending[c].0 + 4)
  }

  /** Pending references are the same or do not overlap. */
  ghost predicate Disjoint(pending: seq<(int, int)>) {
    forall c, c' {:trigger pending[c], pending[c']} :: 0 <= c < |pending| && 0 <= c' < |pending| ==>
      pending[c] == pending[c'] || pending[c].0 + 4 <= pending[c'].0 || pending[c'].0 + 4 <= pending[c].0
  }

  lemma PendingDisjoint(code: seq<Zam>, n: int, k: int, table: seq<Definition>, l: nat)
    requires RefsOk(code, n, k, table) && l < |table| && table[l].Undefined?
    ensures Disjoint(table[l].pending)
  {
    hide SlotOf, OriginOf;
    var pending := table[l].pending;
    forall c, c' {:trigger pending[c], pending[c']} | 0 <= c < |pending| && 0 <= c' < |pending|
      ensures pending[c] == pending[c'] || pending[c].0 + 4 <= pending[c'].0 || pending[c'].0 + 4 <= pending[c].0
    {
      assert IsRef(code, n, k, l, pending[c]) && IsRef(code, n, k, l, pending[c']);
      var i, j :| IsSlot(code, i, j) && Before(n, k, i, j) && code[i].labels[j] == l &&
                  pending[c] == (SlotOf(code, i, j), OriginOf(code, i, j));
      var i', j' :| IsSlot(code, i', j') && Before(n, k, i', j') && code[i'].labels[j'] == l &&
                    pending[c'] == (SlotOf(code, i', j'), OriginOf(code, i', j'));
      if (i, j) != (i', j') {
        SlotsApart(code, i, j, i', j');
      }
    }
  }

  lemma PatchStep(buf: seq<byte>, buf1: seq<byte>, buf2: seq<byte>, pending: seq<(int, int)>, at: int, d: int)
    requires 0 <= d < |pending| && Disjoint(pending) && Patched(buf, buf1, pending, at, d) && |buf2| == |buf1|
    requires Wrote(buf1, pending[d].0, OutLong(at - pending[d].1), buf2)
    ensures Patched(buf, buf2, pending, at, d + 1)
  {
    hide OutLong;
    forall c {:trigger pending[c]} | 0 <= c < d + 1
      ensures BytesAt(buf2, pending[c].0, OutLong(at - pending[c].1))
    {
      if pending[c] != pending[d] {
        Kept(buf1, pending[d].0, OutLong(at - pending[d].1), buf2, pending[c].0, OutLong(at - pending[c].1));
      }
    }
    forall i | 0 <= i < |buf| && Untouched(pending, d + 1, i)
      ensures buf2[i] == buf[i]
    {
      assert !(pending[d].0 <= i < pending[d].0 + 4);
      assert buf1[i] == buf[i];
    }
  }

  /** Bytes that no pending reference overlaps stay. */
  lemma PatchedKeeps(buf: seq<byte>, buf': seq<byte>, pending: seq<(int, int)>, at: int, q: int, x: seq<byte>)
    requires Patched(buf, buf', pending, at, |pending|) && BytesAt(buf, q, x)
    requires forall c {:trigger pending[c]} :: 0 <= c < |pending| ==>
               pending[c].0 + 4 <= q || q + |x| <= pending[c].0
    ensures BytesAt(buf', q, x)
  {
    forall i | 0 <= i < |x|
      ensures buf'[q..q + |x|][i] == x[i]
    {
      assert buf[q..q + |x|][i] == x[i];
      assert buf'[q + i] == buf[q + i];
    }
  }

  /** Once all pending references are patched, the label is defined. */
  lemma LabelDefined(buf: seq<byte>, buf': seq<byte>, code: seq<Zam>, n: int, table: seq<Definition>)
    requires Laid(buf, code, n, -1, table) && n < |code| && code[n].Mark? && code[n].name < |table|
    requires table[code[n].name].Undefined?
    requires Patched(buf, buf', table[code[n].name].pending, Start(code, n), |table[code[n].name].pending|)
    ensures Laid(buf', code, n + 1, -1, table[code[n].name := Defined(Start(code, n))])
    ensures Start(code, n + 1) == Start(code, n)
  {
    hide Start, Head, OutLong, Patched, ShapeOf, NumBytes, SlotOf, OriginOf, Offset;
    var l, at := code[n].name, Start(code, n);
    var table' := table[l := Defined(at)];
    PatchedHeads(buf, buf', code, n, table);
    PatchedSlots(buf, buf', code, n, table);
    NextMark(code, n, table);
    forall l': nat, r {:trigger IsRef(code, n + 1, -1, l', r)} |
      l' < |table'| && table'[l'].Undefined? && r in table'[l'].pending
      ensures IsRef(code, n + 1, -1, l', r)
    {
      assert IsRef(code, n, -1, l', r);
    }
    SizeOfMark(code, n);
  }

  lemma SizeOfMark(code: seq<Zam>, n: int)
    requires 0 <= n < |code| && code[n].Mark?
    ensures Start(code, n + 1) == Start(code, n)
  {
  }

  lemma NextMark(code: seq<Zam>, n: int, table: seq<Definition>)
    requires MarksOk(code, n, table) && 0 <= n < |code| && code[n].Mark? && code[n].name < |table|
    requires table[code[n].name].Undefined?
    ensures MarksOk(code, n + 1, table[code[n].name := Defined(Start(code, n))])
  {
    hide Start;
    var l := code[n].name;
    var table' := table[l := Defined(Start(code, n))];
    forall m: int, l': nat {:trigger Marked(code, l', m)} | Marked(code, l', m) && m < n + 1
      ensures l' < |table'| && table'[l'] == Defined(Start(code, m))
    {
      if m < n {
        assert table[l'] == Defined(Start(code, m));
      }
    }
    forall l': nat | l' < |table'| && table'[l'].Defined?
      ensures exists m :: Marked(code, l', m) && m < n + 1
    {
      if l' == l {
        assert Marked(code, l, n);
      }
    }
  }

  lemma PatchedHeads(buf: seq<byte>, buf': seq<byte>, code: seq<Zam>, n: int, table: seq<Definition>)
    requires Laid(buf, code, n, -1, table) && n < |code| && code[n].Mark? && code[n].name < |table|
    requires table[code[n].name].Undefined?
    requires Patched(buf, buf', table[code[n].name].pending, Start(code, n), |table[code[n].name].pending|)
    ensures HeadsLaid(buf', code, n + 1, -1)
  {
    hide Start, OutLong, Patched, ShapeOf, NumBytes, Offset, Head, SlotOf, OriginOf;
    var l, at := code[n].name, Start(code, n);
    var pending := table[l].pending;
    forall i {:trigger code[i]} | 0 <= i < |code| && Before(n + 1, -1, i, -1) && code[i].Emit?
      ensures ShapeOf(code[i].op).Some? && |code[i].nums| == NumCount(ShapeOf(code[i].op).value)
      ensures BytesAt(buf', Start(code, i), Head(code[i].op, code[i].nums))
    {
      assert Before(n, -1, i, -1);
      forall c {:trigger pending[c]} | 0 <= c < |pending|
        ensures pending[c].0 + 4 <= Start(code, i) ||
                Start(code, i) + 1 + NumBytes(ShapeOf(code[i].op).value) <= pending[c].0
      {
        assert IsRef(code, n, -1, l, pending[c]);
        var i', j' :| IsSlot(code, i', j') && Before(n, -1, i', j') && code[i'].labels[j'] == l &&
                      pending[c] == (SlotOf(code, i', j'), OriginOf(code, i', j'));
        HeadApart(code, i, i', j');
      }
      PatchedKeeps(buf, buf', pending, at, Start(code, i), Head(code[i].op, code[i].nums));
    }
  }

  lemma PatchedSlots(buf: seq<byte>, buf': seq<byte>, code: seq<Zam>, n: int, table: seq<Definition>)
    requires Laid(buf, code, n, -1, table) && n < |code| && code[n].Mark? && code[n].name < |table|
    requires table[code[n].name].Undefined?
    requires Patched(buf, buf', table[code[n].name].pending, Start(code, n), |table[code[n].name].pending|)
    ensures SlotsLaid(buf', code, n + 1, -1, table[code[n].name := Defined(Start(code, n))])
  {
    hide Start, OutLong, ShapeOf, NumBytes, SlotOf, OriginOf, HeadsLaid, MarksOk;
    var l, at := code[n].name, Start(code, n);
    var pending, table' := table[l].pending, table[l := Defined(at)];
    forall i, j {:trigger IsSlot(code, i, j)} | IsSlot(code, i, j) && Before(n + 1, -1, i, j)
      ensures BytesAt(buf', SlotOf(code, i, j), OutLong(Offset(code, table', i, j)))
    {
      assert Before(n, -1, i, j);
      var r := (SlotOf(code, i, j), OriginOf(code, i, j));
      if code[i].labels[j] == l {
        var c :| 0 <= c < |pending| && pending[c] == r;
      } else {
        NotPending(code, n, table, l, i, j);
        PatchedKeeps(buf, buf', pending, at, SlotOf(code, i, j), OutLong(Offset(code, table, i, j)));
      }
    }
  }

  lemma NotPending(code: seq<Zam>, n: int, table: seq<Definition>, l: nat, i: int, j: int)
    requires RefsOk(code, n, -1, table) && l < |table| && table[l].Undefined? && IsSlot(code, i, j)
    requires code[i].labels[j] != l
    ensures var pending := table[l].pending; forall c {:trigger pending[c]} :: 0 <= c < |pending| ==>
              pending[c].0 + 4 <= SlotOf(code, i, j) || SlotOf(code, i, j) + 4 <= pending[c].0
  {
    hide SlotOf, OriginOf;
    var pending := table[l].pending;
    forall c {:trigger pending[c]} | 0 <= c < |pending|
      ensures pending[c].0 + 4 <= SlotOf(code, i, j) || SlotOf(code, i, j) + 4 <= pending[c].0
    {
      assert IsRef(code, n, -1, l, pending[c]);
      var i', j' :| IsSlot(code, i', j') && Before(n, -1, i', j') && code[i'].labels[j'] == l &&
                    pending[c] == (SlotOf(code, i', j'), OriginOf(code, i', j'));
      SlotsApart(code, i, j, i', j');
    }
  }

  // ----- The emitter -----

  ghost predicate MarksDistinct(code: seq<Zam>, n: int) {
    forall m, m', l: nat {:trigger Marked(code, l, m), Marked(code, l, m')} ::
      Marked(code, l, m) && Marked(code, l, m') && m < n && m' < n ==> m == m'
  }

  class Emitter {
    var outBuffer: array<byte>
    var outPosition: int
    var labelTable: seq<Definition>

    ghost predicate Valid()
      reads this
    {
      0 <= outPosition <= outBuffer.Length && 1 <= outBuffer.Length && labelTable != []
    }

    /** What has been written lies as it should, up to label `k` of item `n`. */
    ghost predicate At(code: seq<Zam>, n: int, k: int)
      reads this, outBuffer
    {
      Valid() && Laid(outBuffer[..], code, n, k, labelTable) && outPosition == Reached(code, n, k)
    }

    constructor ()
      ensures Valid() && outPosition == 0 && fresh(outBuffer) && forall code :: At(code, 0, -1)
    {
      outBuffer := new byte[64](_ => 0);
      outPosition := 0;
      labelTable := seq(16, _ => Undefined([]));
      new;
      forall code: seq<Zam>
        ensures At(code, 0, -1)
      {
        NothingLaid(outBuffer[..], code, labelTable);
      }
    }

    /** Doubles the buffer. */
    method ReallocOutBuffer()
      requires Valid()
      modifies this`outBuffer
      ensures fresh(outBuffer) && outBuffer.Length == 2 * old(outBuffer.Length)
      ensures outBuffer[..old(outBuffer.Length)] == old(outBuffer[..])
    {
      var len, old_ := outBuffer.Length, outBuffer;
      outBuffer := new byte[2 * len](_ => 0);
      var i := 0;
      while i < len
        invariant 0 <= i <= len && fresh(outBuffer) && outBuffer.Length == 2 * len
        invariant outBuffer[..i] == old_[..i] && old_[..] == old(outBuffer[..])
      {
        outBuffer[i] := old_[i];
        i := i + 1;
      }
    }

    /** Writes the low byte of a number. */
    method Out(b: int)
      requires Valid()
      modifies this`outBuffer, this`outPosition, outBuffer
      ensures Valid() && outPosition == old(outPosition) + 1 && (outBuffer == old(outBuffer) || fresh(outBuffer))
      ensures Wrote(old(outBuffer[..]), old(outPosition), [b % 0x100], outBuffer[..])
      ensures old(outPosition) < old(outBuffer.Length) ==> outBuffer == old(outBuffer)
    {
      if outPosition >= outBuffer.Length {
        ReallocOutBuffer();
      }
      outBuffer[outPosition] := b % 0x100;
      outPosition := outPosition + 1;
    }

    method EmitShort(s: int)
      requires Valid()
      modifies this`outBuffer, this`outPosition, outBuffer
      ensures Valid() && outPosition == old(outPosition) + 2 && (outBuffer == old(outBuffer) || fresh(outBuffer))
      ensures Wrote(old(outBuffer[..]), old(outPosition), OutShort(s), outBuffer[..])
    {
      ghost var a := outBuffer[..];
      Out(s);
      ghost var b := outBuffer[..];
      Out(s / 0x100);
      WroteTwice(a, old(outPosition), [s % 0x100], b, [s / 0x100 % 0x100], outBuffer[..]);
      assert [s % 0x100] + [s / 0x100 % 0x100] == OutShort(s);
    }

    method EmitLong(l: int)
      requires Valid()
      modifies this`outBuffer, this`outPosition, outBuffer
      ensures Valid() && outPosition == old(outPosition) + 4 && (outBuffer == old(outBuffer) || fresh(outBuffer))
      ensures Wrote(old(outBuffer[..]), old(outPosition), OutLong(l), outBuffer[..])
      ensures old(outPosition) + 4 <= old(outBuffer.Length) ==> outBuffer == old(outBuffer)
    {
      hide Wrote;
      ghost var a, p := outBuffer[..], outPosition;
      Out(l);
      ghost var b := outBuffer[..];
      Out(l / 0x100);
      ghost var c := outBuffer[..];
      Out(l / 0x1_0000);
      ghost var d := outBuffer[..];
      Out(l / 0x100_0000);
      var x0, x1, x2, x3 := l % 0x100, l / 0x100 % 0x100, l / 0x1_0000 % 0x100, l / 0x100_0000 % 0x100;
      WroteTwice(a, p, [x0], b, [x1], c);
      WroteTwice(a, p, [x0] + [x1], c, [x2], d);
      WroteTwice(a, p, [x0] + [x1] + [x2], d, [x3], outBuffer[..]);
      assert [x0] + [x1] + [x2] + [x3] == OutLong(l);
    }

    /** Makes room for a label. */
    method ExtendLabelTable(needed: int)
      requires labelTable != [] && |labelTable| <= needed
      modifies this`labelTable
      ensures old(labelTable) <= labelTable && needed < |labelTable|
      ensures forall l :: |old(labelTable)| <= l < |labelTable| ==> labelTable[l] == Undefined([])
    {
      var size := |labelTable|;
      Multiple(needed, size);
      labelTable := labelTable + seq((needed / size + 1) * size - size, _ => Undefined([]));
    }

    /** Writes the offset of a label from `origin`, or remembers to do so. */
    method OutLabelWithOrig(ghost code: seq<Zam>, ghost n: int, ghost k: int, origin: int, lbl: nat)
      requires At(code, n, k) && IsSlot(code, n, k) && lbl == code[n].labels[k] && origin == OriginOf(code, n, k)
      modifies this, outBuffer
      ensures At(code, n, k + 1) && (outBuffer == old(outBuffer) || fresh(outBuffer))
    {
      hide Laid, SlotOf, OriginOf, Wrote, OutLong;
      if lbl >= |labelTable| {
        ghost var t := labelTable;
        ExtendLabelTable(lbl);
        TableGrown(outBuffer[..], code, n, k, t, labelTable);
      }
      ghost var a := outBuffer[..];
      ReachedSlot(code, n, k);
      match labelTable[lbl] {
        case Defined(def) =>
          EmitLong(def - origin);
          KnownWritten(a, outBuffer[..], code, n, k, labelTable);
        case Undefined(pending) =>
          ghost var t := labelTable;
          labelTable := labelTable[lbl := Undefined([(outPosition, origin)] + pending)];
          EmitLong(0);
          ForwardWritten(a, outBuffer[..], code, n, k, t);
      }
    }

    /** Overwrites the four bytes at `p`. */
    method Patch(p: int, l: int)
      requires Valid() && 0 <= p && p + 4 <= outBuffer.Length
      modifies this`outPosition, this`outBuffer, outBuffer
      ensures Valid() && outBuffer == old(outBuffer) && outBuffer.Length == old(outBuffer.Length)
      ensures Wrote(old(outBuffer[..]), p, OutLong(l), outBuffer[..])
    {
      outPosition := p;
      EmitLong(l);
    }

    /** Defines a label here and patches the references to it; fails if it is defined already. */
    method DefineLabel(ghost code: seq<Zam>, ghost n: int, lbl: nat) returns (ok: bool)
      requires At(code, n, -1) && 0 <= n < |code| && code[n] == Mark(lbl)
      modifies this, outBuffer
      ensures ok ==> At(code, n + 1, -1) && outBuffer == old(outBuffer)
      ensures ok <==> forall m :: Marked(code, lbl, m) ==> m >= n
    {
      hide Laid, Wrote, OutLong, Patched, Disjoint;
      if lbl >= |labelTable| {
        ghost var t := labelTable;
        ExtendLabelTable(lbl);
        TableGrown(outBuffer[..], code, n, -1, t, labelTable);
      }
      WhenMarked(outBuffer[..], code, n, labelTable, lbl);
      match labelTable[lbl] {
        case Defined(_) => return false;
        case Undefined(pending) =>
          var currpos := outPosition;
          ghost var a, t' := outBuffer[..], labelTable;
          PendingInside(a, code, n, labelTable, lbl);
          var d := 0;
          NothingPatched(a, pending, currpos);
          while d < |pending|
            invariant 0 <= d <= |pending| && Valid() && outBuffer == old(outBuffer) && labelTable == t'
            invariant |outBuffer[..]| == |a| && Patched(a, outBuffer[..], pending, currpos, d)
          {
            ghost var b := outBuffer[..];
            Patch(pending[d].0, currpos - pending[d].1);
            PatchStep(a, b, outBuffer[..], pending, currpos, d);
            d := d + 1;
          }
          LabelDefined(a, outBuffer[..], code, n, labelTable);
          outPosition := currpos;
          labelTable := labelTable[lbl := Defined(currpos)];
          ok := true;
      }
    }

    /** The opcode and the numbers of an instruction. */
    method EmitHead(op: int, nums: seq<int>)
      requires Valid() && ShapeOf(op).Some? && |nums| == NumCount(ShapeOf(op).value)
      modifies this`outBuffer, this`outPosition, outBuffer
      ensures Valid() && outPosition == old(outPosition) + |Head(op, nums)|
      ensures outBuffer == old(outBuffer) || fresh(outBuffer)
      ensures Wrote(old(outBuffer[..]), old(outPosition), Head(op, nums), outBuffer[..])
    {
      hide Wrote, ShapeOf, OutShort, OutLong, Head;
      OpByte(op);
      HeadIs(op, nums);
      ghost var a, p := outBuffer[..], outPosition;
      Out(op);
      ghost var b := outBuffer[..];
      match ShapeOf(op).value {
        case Byte | ByteLabel | Table =>
          Out(nums[0]);
          WroteTwice(a, p, [op], b, [nums[0] % 0x100], outBuffer[..]);
        case SignedShort | Short =>
          EmitShort(nums[0]);
          WroteTwice(a, p, [op], b, OutShort(nums[0]), outBuffer[..]);
        case SignedLong | Long =>
          EmitLong(nums[0]);
          WroteTwice(a, p, [op], b, OutLong(nums[0]), outBuffer[..]);
        case ByteShort =>
          EmitPair(false, nums[0], nums[1]);
          WroteTwice(a, p, [op], b, [nums[0] % 0x100] + OutShort(nums[1]), outBuffer[..]);
        case ShortLong =>
          EmitPair(true, nums[0], nums[1]);
          WroteTwice(a, p, [op], b, OutShort(nums[0]) + OutLong(nums[1]), outBuffer[..]);
        case _ =>
      }
    }

    /** Two numbers, of a byte and a short, or of a short and four bytes. */
    method EmitPair(long: bool, n: int, n': int)
      requires Valid()
      modifies this`outBuffer, this`outPosition, outBuffer
      ensures Valid() && outPosition == old(outPosition) + (if long then 6 else 3)
      ensures outBuffer == old(outBuffer) || fresh(outBuffer)
      ensures Wrote(old(outBuffer[..]), old(outPosition),
                    if long then OutShort(n) + OutLong(n') else [n % 0x100] + OutShort(n'), outBuffer[..])
    {
      hide Wrote, OutShort, OutLong;
      ghost var a, p := outBuffer[..], outPosition;
      if long {
        EmitShort(n);
        ghost var b := outBuffer[..];
        EmitLong(n');
        WroteTwice(a, p, OutShort(n), b, OutLong(n'), outBuffer[..]);
      } else {
        Out(n);
        ghost var b := outBuffer[..];
        EmitShort(n');
        WroteTwice(a, p, [n % 0x100], b, OutShort(n'), outBuffer[..]);
      }
    }

    /** One item; fails if it marks a label again. */
    method EmitZam(ghost code: seq<Zam>, ghost n: int, z: Zam) returns (ok: bool)
      requires At(code, n, -1) && 0 <= n < |code| && z == code[n] && CodeOk(code)
      modifies this, outBuffer
      ensures ok ==> At(code, n + 1, -1) && (outBuffer == old(outBuffer) || fresh(outBuffer))
      ensures ok <==> (z.Mark? ==> forall m :: Marked(code, z.name, m) ==> m >= n)
    {
      hide Laid, Head, Wrote, CodeOk;
      match z {
        case Mark(lbl) =>
          ok := DefineLabel(code, n, lbl);
        case Emit(op, nums, labels) =>
          ItemOk(code, n);
          ghost var a := outBuffer[..];
          EmitHead(op, nums);
          HeadWritten(a, outBuffer[..], code, n, labelTable);
          var orig := outPosition;
          var i := 0;
          while i < |labels|
            invariant 0 <= i <= |labels| && At(code, n, i) && (outBuffer == old(outBuffer) || fresh(outBuffer))
          {
            FromWhere(code, n, i, orig);
            OutLabelWithOrig(code, n, i, if op == SWITCH then orig else outPosition, labels[i]);
            i := i + 1;
          }
          ItemDone(outBuffer[..], code, n, labelTable);
          ok := true;
      }
    }

    /** The whole code; fails if and only if a label is marked twice. */
    method EmitCode(code: seq<Zam>) returns (ok: bool)
      requires At(code, 0, -1) && CodeOk(code)
      modifies this, outBuffer
      ensures ok <==> MarksDistinct(code, |code|)
      ensures ok ==> At(code, |code|, -1)
    {
      hide Laid, CodeOk, Start;
      var n := 0;
      while n < |code|
        invariant 0 <= n <= |code| && At(code, n, -1) && MarksDistinct(code, n)
        invariant outBuffer == old(outBuffer) || fresh(outBuffer)
      {
        MarksStep(code, n);
        ok := EmitZam(code, n, code[n]);
        if !ok {
          return;
        }
        n := n + 1;
      }
      ok := true;
    }
  }

  lemma OpByte(op: int)
    requires ShapeOf(op).Some?
    ensures 0 <= op < 0x100 && op % 0x100 == op
  {
  }

  lemma ItemOk(code: seq<Zam>, n: int)
    requires CodeOk(code) && 0 <= n < |code| && code[n].Emit?
    ensures ShapeOf(code[n].op).Some? && |code[n].nums| == NumCount(ShapeOf(code[n].op).value)
    ensures Reached(code, n, 0) == Start(code, n) + |Head(code[n].op, code[n].nums)|
  {
    hide ShapeOf, Start;
  }

  lemma FromWhere(code: seq<Zam>, n: int, k: int, orig: int)
    requires CodeOk(code) && 0 <= n < |code| && code[n].Emit? && 0 <= k < |code[n].labels|
    requires ShapeOf(code[n].op).Some? && orig == Reached(code, n, 0)
    ensures IsSlot(code, n, k)
    ensures OriginOf(code, n, k) == if code[n].op == SWITCH then orig else Reached(code, n, k)
  {
    hide Start;
  }

  lemma MarksStep(code: seq<Zam>, n: int)
    requires 0 <= n < |code| && MarksDistinct(code, n)
    ensures (code[n].Mark? ==> forall m :: Marked(code, code[n].name, m) ==> m >= n) ==> MarksDistinct(code, n + 1)
    ensures !(code[n].Mark? ==> forall m :: Marked(code, code[n].name, m) ==> m >= n) ==> !MarksDistinct(code, |code|)
  {
    if !(code[n].Mark? ==> forall m :: Marked(code, code[n].name, m) ==> m >= n) {
      var m :| Marked(code, code[n].name, m) && m < n;
      assert Marked(code, code[n].name, n);
    }
  }

  lemma NothingPatched(buf: seq<byte>, pending: seq<(int, int)>, at: int)
    ensures Patched(buf, buf, pending, at, 0)
  {
  }

  lemma Multiple(needed: int, size: int)
    requires 0 < size <= needed
    ensures needed < (needed / size + 1) * size && size <= (needed / size + 1) * size
  {
    var q := needed / size;
    assert needed == q * size + needed % size;
    assert (q + 1) * size == q * size + size;
  }

  lemma ReachedSlot(code: seq<Zam>, n: int, k: int)
    requires IsSlot(code, n, k)
    ensures Reached(code, n, k) == SlotOf(code, n, k) && Reached(code, n, k + 1) == SlotOf(code, n, k) + 4
  {
  }

  lemma WhenMarked(buf: seq<byte>, code: seq<Zam>, n: int, table: seq<Definition>, l: nat)
    requires Laid(buf, code, n, -1, table) && l < |table|
    ensures table[l].Defined? <==> exists m :: Marked(code, l, m) && m < n
  {
    hide HeadsLaid, SlotsLaid, RefsOk, Start;
  }

  lemma PendingInside(buf: seq<byte>, code: seq<Zam>, n: int, table: seq<Definition>, l: nat)
    requires Laid(buf, code, n, -1, table) && l < |table| && table[l].Undefined?
    ensures Disjoint(table[l].pending)
    ensures var pending := table[l].pending; forall c {:trigger pending[c]} :: 0 <= c < |pending| ==>
              0 <= pending[c].0 && pending[c].0 + 4 <= |buf|
  {
    hide Disjoint, HeadsLaid, MarksOk, OutLong, SlotOf, OriginOf;
    PendingDisjoint(code, n, -1, table, l);
    var pending := table[l].pending;
    forall c {:trigger pending[c]} | 0 <= c < |pending|
      ensures 0 <= pending[c].0 && pending[c].0 + 4 <= |buf|
    {
      assert IsRef(code, n, -1, l, pending[c]);
      var i, j :| IsSlot(code, i, j) && Before(n, -1, i, j) && code[i].labels[j] == l &&
                  pending[c] == (SlotOf(code, i, j), OriginOf(code, i, j));
      assert BytesAt(buf, SlotOf(code, i, j), OutLong(Offset(code, table, i, j)));
    }
  }

  // ----- The finished code -----

  /** The targets of the labels of item `i` are where those labels are marked. */
  ghost predicate Leads(code: seq<Zam>, i: int, targets: seq<int>) {
    && 0 <= i < |code| && code[i].Emit? && |targets| == |code[i].labels|
    && forall j :: 0 <= j < |targets| ==> LeadsTo(code, code[i].labels[j], targets[j])
  }

  ghost predicate LeadsTo(code: seq<Zam>, l: nat, t: int) {
    exists m :: Marked(code, l, m) && t == Start(code, m)
  }

  /** Every instruction lies at its place, and its labels lead to the places they mark. */
  ghost predicate IsAssembly(code: seq<Zam>, prog: seq<byte>) {
    && |prog| == Start(code, |code|)
    && forall i, targets {:trigger Leads(code, i, targets)} ::
         Leads(code, i, targets) ==> EncodedAt(prog, Start(code, i), code[i].op, code[i].nums, targets)
  }

  lemma CutAt(buf: seq<byte>, n: int, p: int, x: seq<byte>)
    requires 0 <= n <= |buf| && BytesAt(buf, p, x) && p + |x| <= n
    ensures BytesAt(buf[..n], p, x)
  {
    assert buf[..n][p..p + |x|] == buf[p..p + |x|];
  }

  lemma LeadsWhere(code: seq<Zam>, table: seq<Definition>, l: nat, t: int)
    requires MarksOk(code, |code|, table) && LeadsTo(code, l, t)
    ensures l < |table| && table[l] == Defined(t) && 0 <= t <= Start(code, |code|)
  {
    var m :| Marked(code, l, m) && t == Start(code, m);
    StartMonotone(code, m, |code|);
  }

  lemma ItemAssembled(buf: seq<byte>, code: seq<Zam>, table: seq<Definition>, i: int, targets: seq<int>)
    requires CodeOk(code) && Laid(buf, code, |code|, -1, table) && Start(code, |code|) <= |buf|
    requires Start(code, |code|) <= 0x8000_0000 && Leads(code, i, targets)
    ensures EncodedAt(buf[..Start(code, |code|)], Start(code, i), code[i].op, code[i].nums, targets)
  {
    hide Start, Head, OutLong, ShapeOf, NumBytes, RefsOk, MarksOk, BytesAt, Slot, Origin, LeadsTo, Encodable;
    var end := Start(code, |code|);
    ItemOk(code, i);
    BelowReached(code, |code|, -1, i);
    CutAt(buf, end, Start(code, i), Head(code[i].op, code[i].nums));
    forall j | 0 <= j < |targets|
      ensures var d := targets[j] - Origin(Start(code, i), code[i].op, j);
              BytesAt(buf[..end], Slot(Start(code, i), code[i].op, j), OutLong(d)) && -0x8000_0000 <= d < 0x8000_0000
    {
      assert IsSlot(code, i, j);
      LeadsWhere(code, table, code[i].labels[j], targets[j]);
      OriginInside(code, i, j);
      assert Offset(code, table, i, j) == targets[j] - OriginOf(code, i, j);
      CutAt(buf, end, SlotOf(code, i, j), OutLong(targets[j] - OriginOf(code, i, j)));
    }
  }

  lemma Assembled(buf: seq<byte>, code: seq<Zam>, table: seq<Definition>)
    requires CodeOk(code) && Laid(buf, code, |code|, -1, table) && Start(code, |code|) <= |buf|
    requires Start(code, |code|) <= 0x8000_0000
    ensures IsAssembly(code, buf[..Start(code, |code|)])
  {
    hide Start, EncodedAt, LeadsTo, Laid, CodeOk;
    var end := Start(code, |code|);
    forall i, targets {:trigger Leads(code, i, targets)} | Leads(code, i, targets)
      ensures EncodedAt(buf[..end], Start(code, i), code[i].op, code[i].nums, targets)
    {
      ItemAssembled(buf, code, table, i, targets);
    }
  }

  lemma OriginInside(code: seq<Zam>, i: int, j: int)
    requires IsSlot(code, i, j)
    ensures 1 <= OriginOf(code, i, j) <= SlotOf(code, i, j)
  {
    hide Start;
  }

  /** The bytes of a whole program; fails if and only if a label is marked twice. */
  method Assemble(code: seq<Zam>) returns (prog: seq<byte>, ok: bool)
    requires CodeOk(code)
    ensures ok <==> MarksDistinct(code, |code|)
    ensures ok && Start(code, |code|) <= 0x8000_0000 ==> IsAssembly(code, prog)
  {
    hide Start, Laid, CodeOk, IsAssembly;
    var e := new Emitter();
    ok := e.EmitCode(code);
    if !ok {
      return [], false;
    }
    prog := e.outBuffer[..e.outPosition];
    AtEnd(code);
    if Start(code, |code|) <= 0x8000_0000 {
      Assembled(e.outBuffer[..], code, e.labelTable);
    }
  }

  lemma AtEnd(code: seq<Zam>)
    ensures Reached(code, |code|, -1) == Start(code, |code|)
  {
  }

  // ----- The finished code can be run -----

  ghost predicate AllMarked(code: seq<Zam>) {
    forall i, j {:trigger IsSlot(code, i, j)} :: IsSlot(code, i, j) ==> IsMarked(code, code[i].labels[j])
  }

  ghost predicate IsMarked(code: seq<Zam>, l: nat) {
    exists m :: Marked(code, l, m)
  }

  /** No label is marked at the very end. */
  ghost predicate MarksInside(code: seq<Zam>) {
    forall m :: 0 <= m < |code| && code[m].Mark? ==> Start(code, m) < Start(code, |code|)
  }

  /** A RESTART lies right before each GRAB. */
  ghost predicate GrabsOk(code: seq<Zam>) {
    forall i :: 0 <= i < |code| && code[i].Emit? && code[i].op == GRAB ==> AfterRestart(code, i)
  }

  ghost predicate AfterRestart(code: seq<Zam>, i: int)
    requires i <= |code|
  {
    exists r :: 0 <= r < |code| && code[r] == Emit(RESTART, [], []) && Start(code, i) == Start(code, r) + 1
  }

  ghost function PlaceOf(code: seq<Zam>, l: nat): int
    requires IsMarked(code, l)
  {
    var m :| Marked(code, l, m);
    Start(code, m)
  }

  lemma LabelsMarked(code: seq<Zam>, i: int)
    requires AllMarked(code) && 0 <= i < |code| && code[i].Emit? && ShapeOf(code[i].op).Some?
    ensures forall j {:trigger code[i].labels[j]} :: 0 <= j < |code[i].labels| ==> IsMarked(code, code[i].labels[j])
  {
    hide IsMarked, ShapeOf;
    forall j {:trigger code[i].labels[j]} | 0 <= j < |code[i].labels|
      ensures IsMarked(code, code[i].labels[j])
    {
      assert IsSlot(code, i, j);
    }
  }

  ghost function TargetsOf(code: seq<Zam>, i: int): (targets: seq<int>)
    requires AllMarked(code) && CodeOk(code) && 0 <= i < |code| && code[i].Emit?
    ensures Leads(code, i, targets)
  {
    ItemOk(code, i);
    LabelsMarked(code, i);
    seq(|code[i].labels|, j requires 0 <= j < |code[i].labels| => PlaceOf(code, code[i].labels[j]))
  }

  /** An instruction of the code, decoded. */
  lemma ItemDecoded(code: seq<Zam>, prog: seq<byte>, i: int)
    requires IsAssembly(code, prog) && CodeOk(code) && AllMarked(code) && 0 <= i < |code| && code[i].Emit?
    ensures var pc := Start(code, i);
            Instruction(prog, pc) && prog[pc] == code[i].op && Nums(prog, pc) == code[i].nums &&
              Labels(prog, pc) == TargetsOf(code, i) && pc + ByteSize(prog, pc) == Start(code, i + 1)
  {
    hide Start, Nums, Labels, ShapeOf, Instruction, Encodable, BytesAt, NumBytes, ByteSize;
    Decoded(prog, Start(code, i), code[i].op, code[i].nums, TargetsOf(code, i));
    NextItem(code, i);
  }

  lemma NextItem(code: seq<Zam>, i: int)
    requires CodeOk(code) && 0 <= i < |code| && code[i].Emit?
    ensures Start(code, i + 1) == Start(code, i) + |Head(code[i].op, code[i].nums)| + 4 * |code[i].labels|
  {
    hide Head, ShapeOf, NumBytes;
  }

  lemma {:induction false} ItemsStart(code: seq<Zam>, prog: seq<byte>, i: int)
    requires IsAssembly(code, prog) && CodeOk(code) && AllMarked(code) && 0 <= i <= |code|
    ensures IsStart(prog, 0, Start(code, i))
    decreases i
  {
    hide Nums, Labels, ShapeOf, Instruction, ByteSize, IsStart, IsAssembly, CodeOk, AllMarked;
    if i == 0 {
      AtFirst(prog);
    } else {
      ItemsStart(code, prog, i - 1);
      if code[i - 1].Emit? {
        ItemDecoded(code, prog, i - 1);
        NextStart(prog, 0, Start(code, i - 1));
      }
    }
  }

  lemma {:induction false} ItemsScanned(code: seq<Zam>, prog: seq<byte>, i: int)
    requires IsAssembly(code, prog) && CodeOk(code) && AllMarked(code) && 0 <= i <= |code|
    ensures Scanned(prog, Start(code, i)) == Good
    decreases |code| - i
  {
    hide Nums, Labels, ShapeOf, ByteSize, CodeOk, AllMarked, Start;
    if i < |code| {
      ItemsScanned(code, prog, i + 1);
      if code[i].Emit? {
        ItemDecoded(code, prog, i);
      } else {
        SizeOfMark(code, i);
      }
    }
  }

  /** Instructions start nowhere else. */
  lemma {:induction false} OnlyItemsStart(code: seq<Zam>, prog: seq<byte>, i: int, a: int) returns (k: int)
    requires IsAssembly(code, prog) && CodeOk(code) && AllMarked(code) && 0 <= i <= |code|
    requires IsStart(prog, Start(code, i), a) && a < |prog|
    ensures 0 <= k < |code| && code[k].Emit? && a == Start(code, k)
    decreases |code| - i
  {
    hide Nums, Labels, ShapeOf, ByteSize, CodeOk, AllMarked, Start;
    if code[i].Mark? {
      SizeOfMark(code, i);
      k := OnlyItemsStart(code, prog, i + 1, a);
    } else if a == Start(code, i) {
      k := i;
    } else {
      ItemDecoded(code, prog, i);
      k := OnlyItemsStart(code, prog, i + 1, a);
    }
  }

  /** Code with its labels marked inside it, and a RESTART before each GRAB, can be run; so it can be
      expanded, and its threaded code does the same. */
  lemma AssemblyRuns(code: seq<Zam>, prog: seq<byte>)
    requires IsAssembly(code, prog) && CodeOk(code) && AllMarked(code) && MarksInside(code) && GrabsOk(code)
    ensures Runnable(prog)
  {
    hide Nums, Labels, ShapeOf, ByteSize, CodeOk, AllMarked, Start, IsStart, Scanned, IsAssembly, Instruction;
    AtZero(code);
    ItemsScanned(code, prog, 0);
    forall a {:trigger IsStart(prog, 0, a)} | IsStart(prog, 0, a) && Instruction(prog, a)
      ensures LinksOk(prog, a)
    {
      InstructionInside(prog, a);
      var i := OnlyItemsStart(code, prog, 0, a);
      ItemDecoded(code, prog, i);
      forall j | 0 <= j < |Labels(prog, a)|
        ensures Target(prog, Labels(prog, a)[j])
      {
        var m :| Marked(code, code[i].labels[j], m) && TargetsOf(code, i)[j] == Start(code, m);
        ItemsStart(code, prog, m);
        AssemblySize(code, prog);
      }
      if prog[a] == GRAB {
        var r :| 0 <= r < |code| && code[r] == Emit(RESTART, [], []) && Start(code, i) == Start(code, r) + 1;
        ItemsStart(code, prog, r);
        ItemDecoded(code, prog, r);
      }
    }
  }

  lemma AtZero(code: seq<Zam>)
    ensures Start(code, 0) == 0
  {
  }

  lemma InstructionInside(prog: seq<byte>, a: int)
    requires Instruction(prog, a)
    ensures 0 <= a < |prog|
  {
  }

  lemma AssemblySize(code: seq<Zam>, prog: seq<byte>)
    requires IsAssembly(code, prog)
    ensures |prog| == Start(code, |code|)
  {
  }
}
