/** The numbering of the variable moves in src/mosmlyac/lalr.c (`set_goto_map`,
    `map_goto`): a counting sort by variable, then by state. */
module Gotos {
  import opened Options
  import opened Grammars
  import opened Lookahead

  /** The moves on variable `ntokens + x` are numbered from `index[x]` up to
      `index[x + 1]`; move `k` leads from `from[k]` to `to[k]`. */
  datatype GotoTable = GotoTable(index: seq<int>, from: seq<int>, to: seq<int>) {
    ghost predicate InSection(x: int, k: int) {
      0 <= x && x + 1 < |index| && index[x] <= k < index[x + 1]
    }

    ghost predicate HasEntry(x: int, p: int) {
      exists k {:trigger InSection(x, k)} :: InSection(x, k) && 0 <= k < |from| && from[k] == p
    }

    ghost predicate Sized(g: Grammar) {
      && g.ntokens < g.nsyms && |index| == g.nsyms - g.ntokens + 1 && |from| == |to|
      && index[0] == 0 && index[|index| - 1] == |from|
      && forall x, y :: 0 <= x <= y < |index| ==> index[x] <= index[y]
    }

    /** Every variable move has exactly one number. */
    ghost predicate Ok(g: Grammar, a: Automaton) {
      && a.Sized() && Sized(g)
      && (forall x, k {:trigger InSection(x, k)} :: InSection(x, k) ==> a.Trans(from[k], g.ntokens + x, to[k]))
      && (forall x, k, l {:trigger InSection(x, k), InSection(x, l)} ::
            InSection(x, k) && InSection(x, l) && k < l ==> from[k] < from[l])
      && (forall p, s, q {:trigger a.Trans(p, s, q)} :: a.Trans(p, s, q) && g.IsVar(s) ==> HasEntry(s - g.ntokens, p))
    }

    /** The move with number `k`; numbers out of range stand for no move. */
    ghost function MoveOf(a: Automaton, k: int): Move {
      if 0 <= k < |from| == |to| && 0 <= to[k] < |a.accessing| then Move(from[k], a.accessing[to[k]])
      else Move(-1, -1)
    }

    /** Every number lies in the section of some variable. */
    lemma {:induction false} SectionOf(g: Grammar, k: int, n: int) returns (x: int)
      requires Sized(g) && 0 <= n < |index| && 0 <= k < index[n]
      ensures InSection(x, k) && 0 <= x < n
      decreases n
    {
      if n == 0 {
      } else if index[n - 1] <= k {
        x := n - 1;
      } else {
        x := SectionOf(g, k, n - 1);
      }
    }

    lemma MoveIsMove(g: Grammar, a: Automaton, k: int)
      requires Ok(g, a) && 0 <= k < |from|
      ensures a.IsState(from[k]) && a.IsState(to[k])
      ensures a.Trans(from[k], a.accessing[to[k]], to[k]) && IsMove(g, a, MoveOf(a, k))
      ensures InSection(a.accessing[to[k]] - g.ntokens, k)
    {
      var x := SectionOf(g, k, |index| - 1);
    }

    lemma MoveNumber(g: Grammar, a: Automaton, m: Move) returns (k: int)
      requires Ok(g, a) && a.IsLr0(g) && IsMove(g, a, m)
      ensures 0 <= k < |from| && a.IsState(to[k]) && MoveOf(a, k) == m && InSection(m.symbol - g.ntokens, k)
    {
      hide Automaton.IsLr0, Sized;
      var q :| a.Trans(m.state, m.symbol, q);
      k := EntryNumber(g, a, m.state, m.symbol, q);
      EntryMove(g, a, m.symbol - g.ntokens, k);
    }

    lemma EntryNumber(g: Grammar, a: Automaton, p: int, s: int, q: int) returns (k: int)
      requires Ok(g, a) && a.Trans(p, s, q) && g.IsVar(s)
      ensures InSection(s - g.ntokens, k) && 0 <= k < |from| && from[k] == p
    {
      hide Sized;
      assert HasEntry(s - g.ntokens, p);
      k :| InSection(s - g.ntokens, k) && 0 <= k < |from| && from[k] == p;
    }

    lemma EntryMove(g: Grammar, a: Automaton, x: int, k: int)
      requires Ok(g, a) && InSection(x, k) && 0 <= k < |from|
      ensures a.IsState(to[k]) && MoveOf(a, k) == Move(from[k], g.ntokens + x)
    {
    }

    lemma MovesDistinct(g: Grammar, a: Automaton, k: int, l: int)
      requires Ok(g, a) && 0 <= k < |from| && 0 <= l < |from|
      requires a.IsState(to[k]) && a.IsState(to[l]) && MoveOf(a, k) == MoveOf(a, l)
      ensures k == l
    {
      MoveIsMove(g, a, k);
      MoveIsMove(g, a, l);
    }

    /** Finds the number of a move by binary search in the section of its variable.
        The probe never runs past the section, and the search range never becomes
        empty: the number is always there. */
    method MapGoto(g: Grammar, a: Automaton, state: int, symbol: int) returns (middle: int)
      requires Ok(g, a) && g.IsVar(symbol) && exists q :: a.Trans(state, symbol, q)
      ensures InSection(symbol - g.ntokens, middle) && 0 <= middle < |from| && from[middle] == state
    {
      ghost var x := symbol - g.ntokens;
      ghost var q :| a.Trans(state, symbol, q);
      assert HasEntry(x, state);
      ghost var k :| InSection(x, k) && 0 <= k < |from| && from[k] == state;
      var low := index[symbol - g.ntokens];
      var high := index[symbol - g.ntokens + 1];
      while true
        invariant index[x] <= low <= k <= high <= index[x + 1]
        decreases high - low
      {
        assert low <= high;
        middle := (low + high) / 2;
        assert InSection(x, middle);
        var s := from[middle];
        if s == state {
          return;
        } else if s < state {
          low := middle + 1;
        } else {
          high := middle - 1;
        }
      }
    }
  }

  // ----- Counting -----

  /** State `p` moves on `s` to one of its successors from position `i` on. */
  ghost predicate HasShift(a: Automaton, p: int, s: int, i: int)
    requires a.Sized() && a.IsState(p)
  {
    exists j :: 0 <= i <= j < |a.shifts[p]| && 0 <= a.shifts[p][j] < |a.accessing| && a.accessing[a.shifts[p][j]] == s
  }

  ghost function One(b: bool): int {
    if b then 1 else 0
  }

  /** How many of the first `p` states move on `s`. */
  ghost function Count(a: Automaton, s: int, p: int): (n: int)
    requires a.Sized() && 0 <= p <= |a.kernels|
    ensures n >= 0
  {
    if p == 0 then 0 else Count(a, s, p - 1) + One(HasShift(a, p - 1, s, 0))
  }

  lemma {:induction false} CountMonotone(a: Automaton, s: int, p: int, p': int)
    requires a.Sized() && 0 <= p <= p' <= |a.kernels|
    ensures Count(a, s, p) <= Count(a, s, p')
    decreases p'
  {
    if p < p' {
      CountMonotone(a, s, p, p' - 1);
    }
  }

  ghost function Sum(c: seq<int>, n: int): int
    requires 0 <= n <= |c|
  {
    if n == 0 then 0 else Sum(c, n - 1) + c[n - 1]
  }

  lemma {:induction false} SumUpdate(c: seq<int>, x: int, v: int, n: int)
    requires 0 <= n <= |c| && 0 <= x < |c|
    ensures Sum(c[x := v], n) == Sum(c, n) + (if x < n then v - c[x] else 0)
  {
    if n > 0 {
      SumUpdate(c, x, v, n - 1);
    }
  }

  lemma {:induction false} SumMonotone(c: seq<int>, x: int, y: int)
    requires 0 <= x <= y <= |c| && forall k :: 0 <= k < |c| ==> c[k] >= 0
    ensures Sum(c, x) <= Sum(c, y)
    decreases y
  {
    if x < y {
      SumMonotone(c, x, y - 1);
    }
  }

  lemma {:induction false} SumZero(c: seq<int>, n: int)
    requires 0 <= n <= |c| && forall k :: 0 <= k < |c| ==> c[k] == 0
    ensures Sum(c, n) == 0
  {
    if n > 0 {
      SumZero(c, n - 1);
    }
  }

  ghost function Counts(g: Grammar, a: Automaton): (c: seq<int>)
    requires a.IsLr0(g)
    ensures |c| == g.nsyms - g.ntokens
    ensures forall x :: 0 <= x < |c| ==> c[x] == Count(a, g.ntokens + x, |a.kernels|)
  {
    seq(g.nsyms - g.ntokens, x requires 0 <= x => Count(a, g.ntokens + x, |a.kernels|))
  }

  /** What has been counted when the successors of `p` at and below `i` remain. */
  ghost predicate Counted(g: Grammar, a: Automaton, c: seq<int>, base: seq<int>, p: int, i: int)
    requires a.Sized() && a.IsState(p) && g.ntokens < g.nsyms
  {
    && |c| == |base| == g.nsyms - g.ntokens
    && forall x :: 0 <= x < |c| ==>
         c[x] == base[x] + Count(a, g.ntokens + x, p) + One(HasShift(a, p, g.ntokens + x, i + 1))
  }

  /** Once a token is met, no variable remains: the successors are sorted. */
  lemma NoMoreVariables(g: Grammar, a: Automaton, p: int, i: int, s: int)
    requires a.IsLr0(g) && a.IsState(p) && -1 <= i < |a.shifts[p]| && g.IsVar(s)
    requires i >= 0 ==> 0 <= a.shifts[p][i] < |a.accessing| && a.accessing[a.shifts[p][i]] < g.ntokens
    ensures HasShift(a, p, s, 0) == HasShift(a, p, s, i + 1)
  {
    assert a.StateOk(g, p);
    if HasShift(a, p, s, 0) {
      var j :| 0 <= j < |a.shifts[p]| && 0 <= a.shifts[p][j] < |a.accessing| && a.accessing[a.shifts[p][j]] == s;
      assert i + 1 <= j;
    }
  }

  lemma CountedRow(g: Grammar, a: Automaton, c: seq<int>, base: seq<int>, p: int, i: int)
    requires a.IsLr0(g) && a.IsState(p) && -1 <= i < |a.shifts[p]|
    requires i >= 0 ==> 0 <= a.shifts[p][i] < |a.accessing| && a.accessing[a.shifts[p][i]] < g.ntokens
    requires Counted(g, a, c, base, p, i)
    ensures forall x :: 0 <= x < |c| ==> c[x] == base[x] + Count(a, g.ntokens + x, p + 1)
  {
    forall x | 0 <= x < |c|
      ensures c[x] == base[x] + Count(a, g.ntokens + x, p + 1)
    {
      NoMoreVariables(g, a, p, i, g.ntokens + x);
    }
  }

  lemma CountedStep(g: Grammar, a: Automaton, c: seq<int>, base: seq<int>, p: int, i: int)
    requires a.IsLr0(g) && a.IsState(p) && 0 <= i < |a.shifts[p]| && Counted(g, a, c, base, p, i)
    requires 0 <= a.shifts[p][i] < |a.accessing| && g.ntokens <= a.accessing[a.shifts[p][i]] < g.nsyms
    ensures var x := a.accessing[a.shifts[p][i]] - g.ntokens; Counted(g, a, c[x := c[x] + 1], base, p, i - 1)
    ensures !HasShift(a, p, a.accessing[a.shifts[p][i]], i + 1)
  {
    assert a.StateOk(g, p);
    var s := a.accessing[a.shifts[p][i]];
    forall x {:trigger g.ntokens + x} | 0 <= x < |c|
      ensures HasShift(a, p, g.ntokens + x, i) == (HasShift(a, p, g.ntokens + x, i + 1) || g.ntokens + x == s)
    {
      if g.ntokens + x == s {
        assert 0 <= i <= i < |a.shifts[p]|;
      }
    }
  }

  lemma CountedStart(g: Grammar, a: Automaton, c: seq<int>, base: seq<int>, p: int)
    requires a.IsLr0(g) && a.IsState(p) && |c| == |base| == g.nsyms - g.ntokens
    requires forall x :: 0 <= x < |c| ==> c[x] == base[x] + Count(a, g.ntokens + x, p)
    ensures Counted(g, a, c, base, p, |a.shifts[p]| - 1)
  {
  }

  /** Symbols of moves are symbols of the grammar. */
  lemma AccessingInRange(g: Grammar, a: Automaton, p: int, j: int)
    requires a.IsLr0(g) && a.IsState(p) && 0 <= j < |a.shifts[p]|
    ensures 0 < a.shifts[p][j] < |a.kernels| && 0 < a.accessing[a.shifts[p][j]] < g.nsyms
    ensures a.Trans(p, a.accessing[a.shifts[p][j]], a.shifts[p][j])
  {
    var q := a.shifts[p][j];
    assert a.StateOk(g, p) && a.Advances(g, p, q);
    var i := a.kernels[q][0];
    assert i in a.kernels[q];
    if i - 1 > 0 {
      ItemHasRule(g, i - 1);
      var r, k :| ItemAt(g, i - 1, r, k);
      ItemSymbol(g, i - 1, r, k);
    }
  }

  /** First pass: how many moves each variable has.  The program gives up when there
      are more than a C short can number. */
  method CountGotos(g: Grammar, a: Automaton) returns (ngotos: int, count: array<int>, ok: bool)
    requires a.IsLr0(g)
    ensures fresh(count) && count.Length == g.nsyms - g.ntokens
    ensures ok ==> count[..] == Counts(g, a) && ngotos == Sum(Counts(g, a), g.nsyms - g.ntokens) <= MAXSHORT
    ensures !ok ==> Sum(Counts(g, a), g.nsyms - g.ntokens) > MAXSHORT
  {
    var nvars := g.nsyms - g.ntokens;
    ghost var zeros := seq(nvars, _ => 0);
    count := new int[nvars](_ => 0);
    ngotos, ok := 0, true;
    SumZero(count[..], nvars);
    var p := 0;
    while p < |a.kernels|
      invariant 0 <= p <= |a.kernels| && fresh(count) && count.Length == nvars
      invariant forall x :: 0 <= x < nvars ==> count[x] == zeros[x] + Count(a, g.ntokens + x, p)
      invariant ngotos == Sum(count[..], nvars) <= MAXSHORT && ok
    {
      ngotos, ok := CountRow(g, a, p, count, ngotos, zeros);
      if !ok {
        return;
      }
      p := p + 1;
    }
    assert count[..] == Counts(g, a);
  }

  method CountRow(g: Grammar, a: Automaton, p: int, count: array<int>, n: int, ghost zeros: seq<int>)
    returns (ngotos: int, ok: bool)
    requires a.IsLr0(g) && a.IsState(p) && count.Length == |zeros| == g.nsyms - g.ntokens
    requires forall x :: 0 <= x < |zeros| ==> zeros[x] == 0
    requires forall x :: 0 <= x < count.Length ==> count[x] == zeros[x] + Count(a, g.ntokens + x, p)
    requires n == Sum(count[..], count.Length) <= MAXSHORT
    modifies count
    ensures ok ==> forall x :: 0 <= x < count.Length ==> count[x] == zeros[x] + Count(a, g.ntokens + x, p + 1)
    ensures ok ==> ngotos == Sum(count[..], count.Length) <= MAXSHORT
    ensures !ok ==> Sum(Counts(g, a), count.Length) > MAXSHORT
  {
    hide Automaton.IsLr0, Grammar.WellFormed, HasShift, Count, Sum, Counts;
    Basics(g, a);
    ngotos := n;
    var i := |a.shifts[p]| - 1;
    CountedStart(g, a, count[..], zeros, p);
    while i >= 0
      invariant -1 <= i < |a.shifts[p]|
      invariant Counted(g, a, count[..], zeros, p, i)
      invariant ngotos == Sum(count[..], count.Length) <= MAXSHORT
    {
      AccessingInRange(g, a, p, i);
      var symbol := a.accessing[a.shifts[p][i]];
      if symbol < g.ntokens {
        break;
      }
      CountedStep(g, a, count[..], zeros, p, i);
      ghost var c := count[..];
      ghost var x := symbol - g.ntokens;
      SumUpdate(c, x, c[x] + 1, |c|);
      if ngotos == MAXSHORT {
        TooMany(g, a, c[x := c[x] + 1], zeros, p, i - 1);
        return ngotos, false;
      }
      ngotos := ngotos + 1;
      count[symbol - g.ntokens] := count[symbol - g.ntokens] + 1;
      assert count[..] == c[x := c[x] + 1];
      i := i - 1;
    }
    CountedRow(g, a, count[..], zeros, p, i);
    ok := true;
  }

  /** What has been counted so far never exceeds the final counts. */
  lemma TooMany(g: Grammar, a: Automaton, c: seq<int>, zeros: seq<int>, p: int, i: int)
    requires a.IsLr0(g) && a.IsState(p) && -1 <= i < |a.shifts[p]|
    requires Counted(g, a, c, zeros, p, i) && forall x :: 0 <= x < |zeros| ==> zeros[x] == 0
    ensures Sum(c, |c|) <= Sum(Counts(g, a), |c|)
  {
    forall x | 0 <= x < |c|
      ensures c[x] <= Counts(g, a)[x]
    {
      CountMonotone(a, g.ntokens + x, p + 1, |a.kernels|);
    }
    SumBelow(c, Counts(g, a), |c|);
  }

  lemma {:induction false} SumBelow(c: seq<int>, d: seq<int>, n: int)
    requires 0 <= n <= |c| == |d| && forall x :: 0 <= x < |c| ==> c[x] <= d[x]
    ensures Sum(c, n) <= Sum(d, n)
  {
    if n > 0 {
      SumBelow(c, d, n - 1);
    }
  }

  /** Second pass: where the moves of each variable start. */
  method SectionStarts(g: Grammar, a: Automaton, count: array<int>) returns (start: array<int>, total: int)
    requires a.IsLr0(g) && count.Length == g.nsyms - g.ntokens && count[..] == Counts(g, a)
    ensures fresh(start) && start.Length == count.Length
    ensures forall x :: 0 <= x < start.Length ==> start[x] == Sum(Counts(g, a), x)
    ensures total == Sum(Counts(g, a), count.Length)
  {
    hide *;
    ghost var c := Counts(g, a);
    SumStart(c);
    assert forall y :: 0 <= y < count.Length ==> count[y] == count[..][y];
    start := new int[count.Length];
    total := 0;
    var x := 0;
    while x < count.Length
      invariant 0 <= x <= count.Length && total == Sum(c, x)
      invariant forall y :: 0 <= y < count.Length ==> count[y] == c[y]
      invariant forall y :: 0 <= y < x ==> start[y] == Sum(c, y)
    {
      start[x] := total;
      total := total + count[x];
      SumNext(c, x);
      x := x + 1;
    }
  }

  lemma SumStart(c: seq<int>)
    ensures Sum(c, 0) == 0
  {
  }

  lemma SumNext(c: seq<int>, x: int)
    requires 0 <= x < |c|
    ensures Sum(c, x + 1) == Sum(c, x) + c[x]
  {
  }

  /** State `p'` moves on `s` and has been dealt with when the successors of `p` at
      and below `i` remain. */
  ghost predicate Before(a: Automaton, p': int, s: int, p: int, i: int)
    requires a.Sized() && a.IsState(p)
  {
    (0 <= p' < p && HasShift(a, p', s, 0)) || (p' == p && HasShift(a, p, s, i + 1))
  }

  ghost predicate Entered(lo: int, hi: int, from: seq<int>, p: int)
    requires 0 <= lo <= hi <= |from|
  {
    exists k :: lo <= k < hi && from[k] == p
  }

  /** The section from `lo` to `hi` holds, in order, the moves on `s` dealt with so far. */
  ghost predicate SectionOk(a: Automaton, s: int, lo: int, hi: int, from: seq<int>, to: seq<int>, p: int, i: int)
    requires a.Sized() && a.IsState(p)
  {
    && 0 <= lo <= hi <= |from| == |to|
    && hi == lo + Count(a, s, p) + One(HasShift(a, p, s, i + 1))
    && (forall k :: lo <= k < hi ==> a.Trans(from[k], s, to[k]) && Before(a, from[k], s, p, i))
    && (forall k, l :: lo <= k < l < hi ==> from[k] < from[l])
    && (forall p' {:trigger Entered(lo, hi, from, p')} :: Before(a, p', s, p, i) ==> Entered(lo, hi, from, p'))
  }

  ghost predicate Filled(g: Grammar, a: Automaton, start: seq<int>, next: seq<int>, from: seq<int>, to: seq<int>,
                         p: int, i: int)
    requires a.Sized() && a.IsState(p) && g.ntokens < g.nsyms
  {
    && |start| == |next| == g.nsyms - g.ntokens
    && forall x :: 0 <= x < |start| ==> SectionOk(a, g.ntokens + x, start[x], next[x], from, to, p, i)
  }

  /** A move on another variable leaves the section alone. */
  lemma SectionKept(g: Grammar, a: Automaton, s: int, lo: int, hi: int, from: seq<int>, to: seq<int>, p: int, i: int,
                    k: int, q: int)
    requires a.IsLr0(g) && a.IsState(p) && 0 <= i < |a.shifts[p]| && SectionOk(a, s, lo, hi, from, to, p, i)
    requires 0 <= a.shifts[p][i] < |a.accessing| && a.accessing[a.shifts[p][i]] != s
    requires 0 <= k < |from| && !(lo <= k < hi)
    ensures SectionOk(a, s, lo, hi, from[k := p], to[k := q], p, i - 1)
  {
    assert HasShift(a, p, s, i) == HasShift(a, p, s, i + 1);
    forall p' {:trigger Entered(lo, hi, from[k := p], p')} | Before(a, p', s, p, i - 1)
      ensures Entered(lo, hi, from[k := p], p')
    {
      assert Entered(lo, hi, from, p');
      var l :| lo <= l < hi && from[l] == p';
      assert from[k := p][l] == p';
    }
  }

  /** The move of `p` on `s` is appended to its section. */
  lemma SectionGrown(g: Grammar, a: Automaton, s: int, lo: int, hi: int, from: seq<int>, to: seq<int>, p: int, i: int)
    requires a.IsLr0(g) && a.IsState(p) && 0 <= i < |a.shifts[p]| && SectionOk(a, s, lo, hi, from, to, p, i)
    requires 0 <= a.shifts[p][i] < |a.accessing| && a.accessing[a.shifts[p][i]] == s
    requires hi < |from|
    ensures SectionOk(a, s, lo, hi + 1, from[hi := p], to[hi := a.shifts[p][i]], p, i - 1)
  {
    assert a.StateOk(g, p);
    assert !HasShift(a, p, s, i + 1);
    hide Automaton.IsLr0, Automaton.StateOk;
    assert HasShift(a, p, s, i) by {
      assert 0 <= i <= i < |a.shifts[p]|;
    }
    forall p' {:trigger Entered(lo, hi + 1, from[hi := p], p')} | Before(a, p', s, p, i - 1)
      ensures Entered(lo, hi + 1, from[hi := p], p')
    {
      if p' < p {
        assert Entered(lo, hi, from, p');
        var k :| lo <= k < hi && from[k] == p';
        assert from[hi := p][k] == p';
      } else {
        assert from[hi := p][hi] == p;
      }
    }
  }

  /** Nothing is left of row `p`, and row `p + 1` has not begun. */
  lemma SectionRowDone(g: Grammar, a: Automaton, s: int, lo: int, hi: int, from: seq<int>, to: seq<int>, p: int, i: int)
    requires a.IsLr0(g) && a.IsState(p) && -1 <= i < |a.shifts[p]| && SectionOk(a, s, lo, hi, from, to, p, i)
    requires i >= 0 ==> 0 <= a.shifts[p][i] < |a.accessing| && a.accessing[a.shifts[p][i]] < g.ntokens
    requires g.IsVar(s)
    ensures SectionOk(a, s, lo, hi, from, to, p, -1)
    ensures p + 1 < |a.kernels| ==> SectionOk(a, s, lo, hi, from, to, p + 1, |a.shifts[p + 1]| - 1)
  {
    NoMoreVariables(g, a, p, i, s);
    hide Automaton.IsLr0;
  }

  /** There is room for one more move in its section, below the next section. */
  lemma SectionRoom(g: Grammar, a: Automaton, x: int, p: int, i: int, hi: int)
    requires a.IsLr0(g) && a.IsState(p) && -1 <= i < |a.shifts[p]| && 0 <= x < g.nsyms - g.ntokens
    requires hi == Sum(Counts(g, a), x) + Count(a, g.ntokens + x, p) + One(HasShift(a, p, g.ntokens + x, i + 1))
    ensures hi <= Sum(Counts(g, a), x + 1)
  {
    CountMonotone(a, g.ntokens + x, p + 1, |a.kernels|);
  }

  lemma FilledLengths(g: Grammar, a: Automaton, start: seq<int>, next: seq<int>, from: seq<int>, to: seq<int>,
                      p: int, i: int)
    requires a.Sized() && a.IsState(p) && g.ntokens < g.nsyms && Filled(g, a, start, next, from, to, p, i)
    ensures |start| == |next| == g.nsyms - g.ntokens
  {
  }

  lemma SectionsApart(g: Grammar, a: Automaton, x: int, y: int)
    requires a.IsLr0(g) && 0 <= x < y <= g.nsyms - g.ntokens
    ensures Sum(Counts(g, a), x + 1) <= Sum(Counts(g, a), y)
  {
    SumMonotone(Counts(g, a), x + 1, y);
  }

  ghost predicate StartsAt(g: Grammar, a: Automaton, start: seq<int>)
    requires a.IsLr0(g)
  {
    |start| == g.nsyms - g.ntokens && forall x :: 0 <= x < |start| ==> start[x] == Sum(Counts(g, a), x)
  }

  /** Where the section of a variable starts, and how far it is filled. */
  lemma SectionEnds(g: Grammar, a: Automaton, start: seq<int>, next: seq<int>, from: seq<int>, to: seq<int>, p: int,
                    i: int, x: int)
    requires a.IsLr0(g) && a.IsState(p) && g.ntokens < g.nsyms
    requires Filled(g, a, start, next, from, to, p, i) && StartsAt(g, a, start) && 0 <= x < |next|
    ensures |start| == |next| == g.nsyms - g.ntokens && 0 <= start[x] <= next[x] && start[x] == Sum(Counts(g, a), x)
    ensures next[x] == start[x] + Count(a, g.ntokens + x, p) + One(HasShift(a, p, g.ntokens + x, i + 1))
  {
    hide Automaton.IsLr0, Sum, Counts, Count, HasShift;
    Basics(g, a);
    assert SectionOk(a, g.ntokens + x, start[x], next[x], from, to, p, i);
  }

  /** The sections of two variables do not meet, and there is room for the next move. */
  lemma SectionsDisjoint(g: Grammar, a: Automaton, start: seq<int>, next: seq<int>, from: seq<int>, to: seq<int>,
                         p: int, i: int, x: int, y: int)
    requires a.IsLr0(g) && a.IsState(p) && 0 <= i < |a.shifts[p]|
    requires Filled(g, a, start, next, from, to, p, i) && StartsAt(g, a, start)
    requires |from| == |to| == Sum(Counts(g, a), g.nsyms - g.ntokens)
    requires 0 <= x < |next| && 0 <= a.shifts[p][i] < |a.accessing| && a.accessing[a.shifts[p][i]] == g.ntokens + x
    requires 0 <= y < |next|
    ensures 0 <= next[x] < |from|
    ensures x != y ==> !(start[y] <= next[x] < next[y])
  {
    hide *;
    Basics(g, a);
    SectionEnds(g, a, start, next, from, to, p, i, x);
    SectionEnds(g, a, start, next, from, to, p, i, y);
    SectionRoomBeyond(g, a, x, p, i, next[x]);
    SectionsApart(g, a, x, |next|);
    SectionRoom(g, a, y, p, i, next[y]);
    if y < x {
      SectionsApart(g, a, y, x);
    } else if x < y {
      SectionsApart(g, a, x, y);
    }
  }

  /** One move entered into the section of its variable. */
  lemma FillStep(g: Grammar, a: Automaton, start: seq<int>, next: seq<int>, from: seq<int>, to: seq<int>,
                 p: int, i: int, x: int)
    requires a.IsLr0(g) && a.IsState(p) && 0 <= i < |a.shifts[p]|
    requires Filled(g, a, start, next, from, to, p, i) && StartsAt(g, a, start)
    requires |from| == |to| == Sum(Counts(g, a), g.nsyms - g.ntokens)
    requires 0 <= x < |next| && 0 <= a.shifts[p][i] < |a.accessing| && a.accessing[a.shifts[p][i]] == g.ntokens + x
    ensures 0 <= next[x] < |from|
    ensures Filled(g, a, start, next[x := next[x] + 1], from[next[x] := p], to[next[x] := a.shifts[p][i]], p, i - 1)
  {
    hide Automaton.IsLr0, SectionOk, Sum, Count, HasShift, Grammar.WellFormed, StartsAt, Automaton.Trans, Counts;
    Basics(g, a);
    SectionsDisjoint(g, a, start, next, from, to, p, i, x, x);
    var next' := next[x := next[x] + 1];
    var from' := from[next[x] := p];
    var to' := to[next[x] := a.shifts[p][i]];
    forall y | 0 <= y < |next|
      ensures SectionOk(a, g.ntokens + y, start[y], next'[y], from', to', p, i - 1)
    {
      assert SectionOk(a, g.ntokens + y, start[y], next[y], from, to, p, i);
      if y == x {
        SectionGrown(g, a, g.ntokens + x, start[x], next[x], from, to, p, i);
      } else {
        SectionsDisjoint(g, a, start, next, from, to, p, i, x, y);
        SectionKept(g, a, g.ntokens + y, start[y], next[y], from, to, p, i, next[x], a.shifts[p][i]);
      }
    }
  }

  lemma SectionRoomBeyond(g: Grammar, a: Automaton, x: int, p: int, i: int, hi: int)
    requires a.IsLr0(g) && a.IsState(p) && 0 <= i < |a.shifts[p]| && 0 <= x < g.nsyms - g.ntokens
    requires 0 <= a.shifts[p][i] < |a.accessing| && a.accessing[a.shifts[p][i]] == g.ntokens + x
    requires hi == Sum(Counts(g, a), x) + Count(a, g.ntokens + x, p) + One(HasShift(a, p, g.ntokens + x, i + 1))
    ensures hi + 1 <= Sum(Counts(g, a), x + 1)
  {
    assert a.StateOk(g, p);
    assert !HasShift(a, p, g.ntokens + x, i + 1);
    assert 0 <= i <= i < |a.shifts[p]|;
    assert HasShift(a, p, g.ntokens + x, i);
    SectionRoom(g, a, x, p, i - 1, hi + 1);
  }

  lemma RowDone(g: Grammar, a: Automaton, start: seq<int>, next: seq<int>, from: seq<int>, to: seq<int>, p: int, i: int)
    requires a.IsLr0(g) && a.IsState(p) && -1 <= i < |a.shifts[p]| && Filled(g, a, start, next, from, to, p, i)
    requires i >= 0 ==> 0 <= a.shifts[p][i] < |a.accessing| && a.accessing[a.shifts[p][i]] < g.ntokens
    ensures Filled(g, a, start, next, from, to, p, -1)
    ensures p + 1 < |a.kernels| ==> Filled(g, a, start, next, from, to, p + 1, |a.shifts[p + 1]| - 1)
  {
    forall x | 0 <= x < |start|
      ensures SectionOk(a, g.ntokens + x, start[x], next[x], from, to, p, -1)
      ensures p + 1 < |a.kernels| ==>
                SectionOk(a, g.ntokens + x, start[x], next[x], from, to, p + 1, |a.shifts[p + 1]| - 1)
    {
      SectionRowDone(g, a, g.ntokens + x, start[x], next[x], from, to, p, i);
    }
  }

  /** Enters the move from `p` to `q` at the end of section `x`. */
  method Enter(x: int, p: int, q: int, next: array<int>, from: array<int>, to: array<int>)
    requires next != from && next != to && from != to && 0 <= x < next.Length
    requires 0 <= next[x] < from.Length == to.Length
    modifies next, from, to
    ensures next[..] == old(next[..][x := next[x] + 1])
    ensures from[..] == old(from[..][next[x] := p]) && to[..] == old(to[..][next[x] := q])
  {
    var k := next[x];
    next[x] := k + 1;
    from[k] := p;
    to[k] := q;
  }

  /** Third pass, one state: enters the variable moves of `p`. */
  method FillRow(g: Grammar, a: Automaton, p: int, ghost start: seq<int>, next: array<int>, from: array<int>,
                 to: array<int>)
    requires a.IsLr0(g) && a.IsState(p) && StartsAt(g, a, start) && next != from && next != to && from != to
    requires from.Length == to.Length == Sum(Counts(g, a), g.nsyms - g.ntokens)
    requires Filled(g, a, start, next[..], from[..], to[..], p, |a.shifts[p]| - 1)
    modifies next, from, to
    ensures Filled(g, a, start, next[..], from[..], to[..], p, -1)
    ensures p + 1 < |a.kernels| ==>
              Filled(g, a, start, next[..], from[..], to[..], p + 1, |a.shifts[p + 1]| - 1)
  {
    hide Automaton.IsLr0, Grammar.WellFormed, Filled, StartsAt, Counts, Sum, Automaton.Trans;
    Basics(g, a);
    FilledLengths(g, a, start, next[..], from[..], to[..], p, |a.shifts[p]| - 1);
    var i := |a.shifts[p]| - 1;
    while i >= 0
      invariant -1 <= i < |a.shifts[p]|
      invariant Filled(g, a, start, next[..], from[..], to[..], p, i)
    {
      AccessingInRange(g, a, p, i);
      var symbol := a.accessing[a.shifts[p][i]];
      if symbol < g.ntokens {
        break;
      }
      FillStep(g, a, start, next[..], from[..], to[..], p, i, symbol - g.ntokens);
      Enter(symbol - g.ntokens, p, a.shifts[p][i], next, from, to);
      i := i - 1;
    }
    RowDone(g, a, start, next[..], from[..], to[..], p, i);
  }

  lemma TotalNonnegative(g: Grammar, a: Automaton)
    requires a.IsLr0(g)
    ensures 0 <= Sum(Counts(g, a), g.nsyms - g.ntokens)
  {
    SumMonotone(Counts(g, a), 0, g.nsyms - g.ntokens);
  }

  /** Two more than the number of moves still fits in a short. */
  ghost predicate MovesFit(g: Grammar, a: Automaton)
    requires a.IsLr0(g)
  {
    g.ntokens <= g.nsyms && Sum(Counts(g, a), g.nsyms - g.ntokens) + 2 <= MAXSHORT
  }

  /** Numbers the variable moves, or gives up when there are too many for a short. */
  method SetGotoMap(g: Grammar, a: Automaton) returns (r: Option<GotoTable>)
    requires a.IsLr0(g)
    ensures r.Some? ==> r.value.Ok(g, a) && |r.value.from| == Sum(Counts(g, a), g.nsyms - g.ntokens)
    ensures r.None? <==> Sum(Counts(g, a), g.nsyms - g.ntokens) > MAXSHORT
  {
    hide Automaton.IsLr0, Grammar.WellFormed, Filled, Sum, Counts;
    Basics(g, a);
    var ngotos, count, ok := CountGotos(g, a);
    if !ok {
      return None;
    }
    var nvars := g.nsyms - g.ntokens;
    var start, total := SectionStarts(g, a, count);
    TotalNonnegative(g, a);
    var next := new int[nvars](x requires 0 <= x < start.Length reads start => start[x]);
    var from, to := new int[ngotos], new int[ngotos];
    ghost var s := start[..];
    assert next[..] == s;
    FillStart(g, a, s, next[..], from[..], to[..]);
    var p := 0;
    while p < |a.kernels|
      invariant 0 <= p <= |a.kernels| && start[..] == s
      invariant p < |a.kernels| ==> Filled(g, a, s, next[..], from[..], to[..], p, |a.shifts[p]| - 1)
      invariant p == |a.kernels| ==> Filled(g, a, s, next[..], from[..], to[..], p - 1, -1)
    {
      FillRow(g, a, p, s, next, from, to);
      p := p + 1;
    }
    var t := GotoTable(start[..] + [ngotos], from[..], to[..]);
    FilledIsTable(g, a, s, next[..], t);
    return Some(t);
  }

  lemma FillStart(g: Grammar, a: Automaton, start: seq<int>, next: seq<int>, from: seq<int>, to: seq<int>)
    requires a.IsLr0(g) && StartsAt(g, a, start) && next == start && |from| == |to| == Sum(Counts(g, a), |start|)
    ensures Filled(g, a, start, next, from, to, 0, |a.shifts[0]| - 1)
  {
    forall x | 0 <= x < |start|
      ensures 0 <= start[x] <= |from|
    {
      SumMonotone(Counts(g, a), 0, x);
      SumMonotone(Counts(g, a), x, |start|);
    }
  }

  lemma SectionFull(a: Automaton, s: int, lo: int, hi: int, from: seq<int>, to: seq<int>, p: int)
    requires a.Sized() && a.IsState(p) && SectionOk(a, s, lo, hi, from, to, p, -1)
    ensures hi == lo + Count(a, s, p + 1)
  {
  }

  lemma FilledSection(g: Grammar, a: Automaton, start: seq<int>, next: seq<int>, t: GotoTable, x: int)
    requires a.IsLr0(g) && StartsAt(g, a, start) && 0 <= x < |start|
    requires Filled(g, a, start, next, t.from, t.to, |a.kernels| - 1, -1)
    requires |t.from| == Sum(Counts(g, a), |start|) && t.index == start + [|t.from|]
    ensures SectionOk(a, g.ntokens + x, t.index[x], t.index[x + 1], t.from, t.to, |a.kernels| - 1, -1)
  {
    hide Automaton.IsLr0, Grammar.WellFormed, SectionOk;
    Basics(g, a);
    SectionFull(a, g.ntokens + x, start[x], next[x], t.from, t.to, |a.kernels| - 1);
    assert next[x] == start[x] + Counts(g, a)[x];
  }

  lemma TableSized(g: Grammar, a: Automaton, start: seq<int>, t: GotoTable)
    requires a.IsLr0(g) && StartsAt(g, a, start)
    requires |t.from| == |t.to| == Sum(Counts(g, a), |start|) && t.index == start + [|t.from|]
    ensures t.Sized(g)
  {
    var c := Counts(g, a);
    assert forall x :: 0 <= x < |t.index| ==> t.index[x] == Sum(c, x);
    forall x, y | 0 <= x <= y < |t.index|
      ensures t.index[x] <= t.index[y]
    {
      SumMonotone(c, x, y);
    }
  }

  lemma TableComplete(g: Grammar, a: Automaton, t: GotoTable, p: int, s: int, q: int)
    requires a.IsLr0(g) && a.Trans(p, s, q) && g.IsVar(s) && t.Sized(g)
    requires SectionOk(a, s, t.index[s - g.ntokens], t.index[s - g.ntokens + 1], t.from, t.to, |a.kernels| - 1, -1)
    ensures t.HasEntry(s - g.ntokens, p)
  {
    var x := s - g.ntokens;
    assert a.StateOk(g, p);
    assert HasShift(a, p, s, 0);
    assert Before(a, p, s, |a.kernels| - 1, -1);
    assert Entered(t.index[x], t.index[x + 1], t.from, p);
    var k :| t.index[x] <= k < t.index[x + 1] && t.from[k] == p;
    assert t.InSection(x, k);
  }

  lemma SectionEntry(a: Automaton, s: int, lo: int, hi: int, from: seq<int>, to: seq<int>, p: int, k: int)
    requires a.Sized() && a.IsState(p) && SectionOk(a, s, lo, hi, from, to, p, -1) && lo <= k < hi
    ensures a.Trans(from[k], s, to[k])
  {
  }

  lemma SectionOrder(a: Automaton, s: int, lo: int, hi: int, from: seq<int>, to: seq<int>, p: int, k: int, l: int)
    requires a.Sized() && a.IsState(p) && SectionOk(a, s, lo, hi, from, to, p, -1) && lo <= k < l < hi
    ensures from[k] < from[l]
  {
  }

  lemma FilledIsTable(g: Grammar, a: Automaton, start: seq<int>, next: seq<int>, t: GotoTable)
    requires a.IsLr0(g) && StartsAt(g, a, start)
    requires Filled(g, a, start, next, t.from, t.to, |a.kernels| - 1, -1)
    requires |t.from| == |t.to| == Sum(Counts(g, a), |start|) && t.index == start + [|t.from|]
    ensures t.Ok(g, a)
  {
    hide Automaton.IsLr0, Grammar.WellFormed, Filled, StartsAt, SectionOk, Sum, Counts, Automaton.Trans;
    Basics(g, a);
    TableSized(g, a, start, t);
    forall p, s, q | a.Trans(p, s, q) && g.IsVar(s)
      ensures t.HasEntry(s - g.ntokens, p)
    {
      FilledSection(g, a, start, next, t, s - g.ntokens);
      TableComplete(g, a, t, p, s, q);
    }
    forall x, k {:trigger t.InSection(x, k)} | t.InSection(x, k)
      ensures a.Trans(t.from[k], g.ntokens + x, t.to[k])
    {
      FilledEntry(g, a, start, next, t, x, k);
    }
    forall x, k, l {:trigger t.InSection(x, k), t.InSection(x, l)} | t.InSection(x, k) && t.InSection(x, l) && k < l
      ensures t.from[k] < t.from[l]
    {
      FilledOrder(g, a, start, next, t, x, k, l);
    }
  }

  lemma FilledEntry(g: Grammar, a: Automaton, start: seq<int>, next: seq<int>, t: GotoTable, x: int, k: int)
    requires a.IsLr0(g) && StartsAt(g, a, start)
    requires Filled(g, a, start, next, t.from, t.to, |a.kernels| - 1, -1)
    requires |t.from| == |t.to| == Sum(Counts(g, a), |start|) && t.index == start + [|t.from|]
    requires t.Sized(g) && t.InSection(x, k)
    ensures a.Sized() && a.Trans(t.from[k], g.ntokens + x, t.to[k])
  {
    hide Automaton.IsLr0, Grammar.WellFormed, Filled, StartsAt, SectionOk, Sum, Counts, Automaton.Trans;
    Basics(g, a);
    FilledSection(g, a, start, next, t, x);
    SectionEntry(a, g.ntokens + x, t.index[x], t.index[x + 1], t.from, t.to, |a.kernels| - 1, k);
  }

  lemma FilledOrder(g: Grammar, a: Automaton, start: seq<int>, next: seq<int>, t: GotoTable, x: int, k: int, l: int)
    requires a.IsLr0(g) && StartsAt(g, a, start)
    requires Filled(g, a, start, next, t.from, t.to, |a.kernels| - 1, -1)
    requires |t.from| == |t.to| == Sum(Counts(g, a), |start|) && t.index == start + [|t.from|]
    requires t.Sized(g) && t.InSection(x, k) && t.InSection(x, l) && k < l
    ensures t.from[k] < t.from[l]
  {
    hide Automaton.IsLr0, Grammar.WellFormed, Filled, StartsAt, SectionOk, Sum, Counts, Automaton.Trans;
    Basics(g, a);
    FilledSection(g, a, start, next, t, x);
    SectionOrder(a, g.ntokens + x, t.index[x], t.index[x + 1], t.from, t.to, |a.kernels| - 1, k, l);
  }
}
