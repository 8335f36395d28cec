/** LALR(1) lookahead sets (src/mosmlyac/lalr.c): the read and include relations are
    built over the numbered variable moves, closed with `Digraph`, and collected per
    reduction. */
module Lalr {
  import opened Relations
  import Digraph
  import T = Traversals
  import opened Grammars
  import opened Trees
  import opened Lookahead
  import opened Gotos

  ghost predicate Input(g: Grammar, a: Automaton, nullable: seq<bool>, t: GotoTable) {
    a.IsLr0(g) && NullableTable(g, nullable) && t.Ok(g, a)
  }

  lemma InputBasics(g: Grammar, a: Automaton, nullable: seq<bool>, t: GotoTable)
    requires Input(g, a, nullable, t)
    ensures g.WellFormed() && a.Sized() && 0 < g.ntokens && g.ntokens + 1 < g.nsyms
    ensures |t.from| == |t.to| && |nullable| == g.nsyms
  {
  }

  /** Tokens, in particular, are not nullable. */
  lemma TokenNotNullable(g: Grammar, s: int)
    requires g.WellFormed() && s < g.ntokens
    ensures !Nullable(g, s)
  {
    forall t | IsTree(g, t) && Yield(t) == []
      ensures Root(g, t) >= g.ntokens
    {
      assert g.IsRule(t.rule);
    }
  }

  // ----- Direct reads and the read relation -----

  /** The tokens that state `q` shifts: they come first in its row. */
  method RowTokens(g: Grammar, a: Automaton, nullable: seq<bool>, t: GotoTable, q: int)
    returns (tokens: set<int>, j: int)
    requires Input(g, a, nullable, t) && a.Sized() && a.IsState(q)
    ensures forall s :: s in tokens <==> s < g.ntokens && HasTrans(a, q, s)
    ensures 0 <= j <= |a.shifts[q]| && forall i :: 0 <= i < j ==> RowSymbol(a, q, i) < g.ntokens
    ensures j < |a.shifts[q]| ==> g.ntokens <= RowSymbol(a, q, j)
  {
    hide Automaton.IsLr0, Grammar.WellFormed, GotoTable.Ok, Nullable, HasTrans;
    RowSorted(g, a, nullable, t, q);
    tokens, j := {}, 0;
    while j < |a.shifts[q]|
      invariant 0 <= j <= |a.shifts[q]|
      invariant forall s :: s in tokens ==> s < g.ntokens && HasTrans(a, q, s)
      invariant forall i :: 0 <= i < j ==> RowSymbol(a, q, i) in tokens && RowSymbol(a, q, i) < g.ntokens
    {
      var symbol := a.accessing[a.shifts[q][j]];
      RowTrans(a, q, j);
      if symbol >= g.ntokens {
        break;
      }
      tokens := tokens + {symbol};
      j := j + 1;
    }
    forall s | s < g.ntokens && HasTrans(a, q, s)
      ensures s in tokens
    {
      var i := TransInRow(a, q, s);
    }
  }

  /** The numbers of the moves of `q` on nullable variables, found from position
      `first` of its row on. */
  method RowEdges(g: Grammar, a: Automaton, nullable: seq<bool>, t: GotoTable, q: int, first: int)
    returns (edges: seq<int>)
    requires Input(g, a, nullable, t) && a.Sized() && a.IsState(q)
    requires 0 <= first <= |a.shifts[q]| && forall i :: 0 <= i < first ==> RowSymbol(a, q, i) < g.ntokens
    requires first < |a.shifts[q]| ==> g.ntokens <= RowSymbol(a, q, first)
    ensures forall k :: k in edges <==> 0 <= k < |t.from| && PassesNullable(g, a, t, q, k)
  {
    hide Automaton.IsLr0, Grammar.WellFormed, GotoTable.Ok, Nullable;
    InputBasics(g, a, nullable, t);
    RowSorted(g, a, nullable, t, q);
    edges := [];
    var j := first;
    while j < |a.shifts[q]|
      invariant first <= j <= |a.shifts[q]|
      invariant forall k :: k in edges ==> 0 <= k < |t.from| && PassesNullable(g, a, t, q, k)
      invariant forall i :: first <= i < j && Nullable(g, RowSymbol(a, q, i)) ==>
                  HasNumber(a, t, edges, Move(q, RowSymbol(a, q, i)))
    {
      var symbol := a.accessing[a.shifts[q][j]];
      RowTrans(a, q, j);
      ghost var before := edges;
      if nullable[symbol] {
        var k := t.MapGoto(g, a, q, symbol);
        NumberedMove(g, a, t, k, symbol - g.ntokens);
        edges := edges + [k];
        assert edges[|edges| - 1] == k;
      }
      NumbersKept(a, t, before, edges);
      j := j + 1;
    }
    forall k | 0 <= k < |t.from| && PassesNullable(g, a, t, q, k)
      ensures k in edges
    {
      EdgeFound(g, a, nullable, t, q, first, edges, k);
    }
  }

  lemma EdgeFound(g: Grammar, a: Automaton, nullable: seq<bool>, t: GotoTable, q: int, first: int, edges: seq<int>,
                  k: int)
    requires Input(g, a, nullable, t) && a.Sized() && a.IsState(q)
    requires 0 <= first <= |a.shifts[q]| && forall i :: 0 <= i < first ==> RowSymbol(a, q, i) < g.ntokens
    requires forall l :: l in edges ==> 0 <= l < |t.from|
    requires forall i :: first <= i < |a.shifts[q]| && Nullable(g, RowSymbol(a, q, i)) ==>
               HasNumber(a, t, edges, Move(q, RowSymbol(a, q, i)))
    requires 0 <= k < |t.from| && PassesNullable(g, a, t, q, k)
    ensures k in edges
  {
    hide Nullable;
    t.MoveIsMove(g, a, k);
    var m := t.MoveOf(a, k);
    assert HasTrans(a, q, m.symbol);
    var i := TransInRow(a, q, m.symbol);
    var l :| l in edges && t.MoveOf(a, l) == Move(q, RowSymbol(a, q, i));
    t.MoveIsMove(g, a, l);
    t.MovesDistinct(g, a, k, l);
  }

  /** The number of the move is among the given ones. */
  ghost predicate HasNumber(a: Automaton, t: GotoTable, edges: seq<int>, m: Move) {
    exists k :: k in edges && t.MoveOf(a, k) == m
  }

  lemma NumbersKept(a: Automaton, t: GotoTable, before: seq<int>, after: seq<int>)
    requires before <= after
    ensures forall m: Move :: HasNumber(a, t, before, m) ==> HasNumber(a, t, after, m)
  {
    forall m: Move | HasNumber(a, t, before, m)
      ensures HasNumber(a, t, after, m)
    {
      var k :| k in before && t.MoveOf(a, k) == m;
      assert k in after;
    }
  }

  ghost function RowSymbol(a: Automaton, q: int, i: int): int
    requires a.Sized() && a.IsState(q) && 0 <= i < |a.shifts[q]|
  {
    if 0 <= a.shifts[q][i] < |a.accessing| then a.accessing[a.shifts[q][i]] else -1
  }

  ghost predicate HasTrans(a: Automaton, q: int, s: int)
    requires a.Sized()
  {
    exists q' :: a.Trans(q, s, q')
  }

  lemma RowTrans(a: Automaton, q: int, i: int)
    requires a.Sized() && a.IsState(q) && 0 <= i < |a.shifts[q]| && 0 <= a.shifts[q][i] < |a.accessing|
    ensures HasTrans(a, q, RowSymbol(a, q, i))
  {
    assert a.Trans(q, RowSymbol(a, q, i), a.shifts[q][i]);
  }

  lemma TransInRow(a: Automaton, q: int, s: int) returns (i: int)
    requires a.Sized() && a.IsState(q) && HasTrans(a, q, s)
    ensures 0 <= i < |a.shifts[q]| && RowSymbol(a, q, i) == s
  {
    var q' :| a.Trans(q, s, q');
    i :| 0 <= i < |a.shifts[q]| && a.shifts[q][i] == q';
  }

  /** Move `k` leaves `q` on a nullable variable. */
  ghost predicate PassesNullable(g: Grammar, a: Automaton, t: GotoTable, q: int, k: int) {
    t.MoveOf(a, k).state == q && Nullable(g, t.MoveOf(a, k).symbol)
  }

  lemma RowSorted(g: Grammar, a: Automaton, nullable: seq<bool>, t: GotoTable, q: int)
    requires Input(g, a, nullable, t) && a.Sized() && a.IsState(q)
    ensures forall j :: 0 <= j < |a.shifts[q]| ==> 0 < a.shifts[q][j] < |a.kernels|
    ensures forall j :: 0 <= j < |a.shifts[q]| ==> 0 < RowSymbol(a, q, j) < g.nsyms
    ensures forall i, j :: 0 <= i < j < |a.shifts[q]| ==> RowSymbol(a, q, i) < RowSymbol(a, q, j)
    ensures forall s :: 0 <= s < g.nsyms ==> (nullable[s] <==> Nullable(g, s))
  {
    assert a.StateOk(g, q);
    forall j | 0 <= j < |a.shifts[q]|
      ensures RowSymbol(a, q, j) < g.nsyms
    {
      AccessingInRange(g, a, q, j);
    }
  }

  lemma NumberedMove(g: Grammar, a: Automaton, t: GotoTable, k: int, x: int)
    requires a.Sized() && t.Ok(g, a) && t.InSection(x, k) && 0 <= k < |t.from|
    ensures t.MoveOf(a, k) == Move(t.from[k], g.ntokens + x)
    ensures a.Trans(t.from[k], g.ntokens + x, t.to[k])
  {
  }

  ghost predicate DirectRows(g: Grammar, a: Automaton, t: GotoTable, f: seq<set<int>>)
    requires a.Sized()
  {
    && |f| == |t.from|
    && forall i, s :: 0 <= i < |f| ==> (s in f[i] <==> DirectRead(g, a, t.MoveOf(a, i), s))
  }

  /** `readRel` is the read relation on numbers. */
  ghost predicate ReadNumbers(g: Grammar, a: Automaton, t: GotoTable, readRel: Relation)
    requires a.Sized()
  {
    && IsRelation(readRel, |t.from|)
    && forall i, j {:trigger Edge(readRel, i, j)} :: 0 <= i < |t.from| && 0 <= j < |t.from| ==>
         (Edge(readRel, i, j) <==> Reads(g, a, t.MoveOf(a, i), t.MoveOf(a, j)))
  }

  /** What `initialize_F` has filled in after `n` rows, before the end marker. */
  ghost predicate ReadRowOk(g: Grammar, a: Automaton, t: GotoTable, f: set<int>, edges: seq<int>, i: int)
    requires a.Sized() && 0 <= i < |t.from| == |t.to|
  {
    && (forall s :: s in f <==> s < g.ntokens && HasTrans(a, t.to[i], s))
    && (forall k :: k in edges <==> 0 <= k < |t.from| && PassesNullable(g, a, t, t.to[i], k))
  }

  lemma ReadRowMeans(g: Grammar, a: Automaton, nullable: seq<bool>, t: GotoTable, f: set<int>, edges: seq<int>, i: int)
    requires Input(g, a, nullable, t) && a.Sized() && 0 <= i < |t.from| == |t.to| && ReadRowOk(g, a, t, f, edges, i)
    ensures forall s :: DirectRead(g, a, t.MoveOf(a, i), s) <==>
                          s in f || (t.MoveOf(a, i) == Move(0, g.Goal()) && s == 0)
    ensures forall j :: 0 <= j < |t.from| ==> (j in edges <==> Reads(g, a, t.MoveOf(a, i), t.MoveOf(a, j)))
  {
    t.MoveIsMove(g, a, i);
    var m := t.MoveOf(a, i);
    forall q | a.Trans(m.state, m.symbol, q)
      ensures q == t.to[i]
    {
      TransUnique(g, a, m.state, m.symbol, q, t.to[i]);
    }
    forall s, q' | a.Trans(t.to[i], s, q')
      ensures 0 < s
    {
      assert a.StateOk(g, t.to[i]);
    }
    forall j | 0 <= j < |t.from|
      ensures IsMove(g, a, t.MoveOf(a, j))
    {
      t.MoveIsMove(g, a, j);
    }
  }

  /** The goal's move from state 0 has number 0. */
  lemma GoalIsFirst(g: Grammar, a: Automaton, nullable: seq<bool>, t: GotoTable)
    requires Input(g, a, nullable, t) && a.Sized()
    ensures |t.from| > 0 && t.MoveOf(a, 0) == Move(0, g.Goal())
  {
    assert 1 in a.kernels[0];
    ClosureOfKernel(g, a.kernels[0], 1);
    assert a.StateOk(g, 0) && a.In(g, 0, 1);
    var q :| a.Trans(0, g.Goal(), q);
    var k := t.MoveNumber(g, a, Move(0, g.Goal()));
    if t.InSection(0, 0) {
      NoStartMove(g, a, t.from[0], g.ntokens, t.to[0]);
    }
    assert t.InSection(1, k) && t.index[1] == 0;
    assert t.InSection(1, 0);
    NumberedMove(g, a, t, 0, 1);
  }

  /** The augmented start symbol is never moved on. */
  lemma NoStartMove(g: Grammar, a: Automaton, p: int, s: int, q: int)
    requires a.IsLr0(g) && a.Trans(p, s, q)
    ensures s != g.ntokens
  {
    assert a.Advances(g, p, q);
    var i := a.kernels[q][0];
    assert i in a.kernels[q];
    if i - 1 > 0 {
      ItemHasRule(g, i - 1);
      var r, k :| ItemAt(g, i - 1, r, k);
      ItemSymbol(g, i - 1, r, k);
    }
  }

  /** The direct-read rows and the read relation; the end marker is added to row 0. */
  method InitializeF(g: Grammar, a: Automaton, nullable: seq<bool>, t: GotoTable)
    returns (f: array<set<int>>, readRel: Relation)
    requires Input(g, a, nullable, t) && a.Sized()
    ensures fresh(f) && DirectRows(g, a, t, f[..]) && ReadNumbers(g, a, t, readRel)
  {
    hide Automaton.IsLr0, Grammar.WellFormed, GotoTable.Ok;
    InputBasics(g, a, nullable, t);
    var n := |t.from|;
    f := new set<int>[n](_ => {});
    readRel := [];
    var i := 0;
    while i < n
      invariant 0 <= i <= n == f.Length && |readRel| == i
      invariant forall k :: 0 <= k < i ==> ReadRowOk(g, a, t, f[k], readRel[k], k)
    {
      GotoStates(g, a, nullable, t, i);
      var tokens, first := RowTokens(g, a, nullable, t, t.to[i]);
      var edges := RowEdges(g, a, nullable, t, t.to[i], first);
      f[i] := tokens;
      readRel := readRel + [edges];
      i := i + 1;
    }
    GoalIsFirst(g, a, nullable, t);
    ghost var rows := f[..];
    f[0] := f[0] + {0};
    forall k | 0 <= k < n
      ensures forall s :: s in f[k] <==> DirectRead(g, a, t.MoveOf(a, k), s)
      ensures forall l :: 0 <= l < n ==> (l in readRel[k] <==> Reads(g, a, t.MoveOf(a, k), t.MoveOf(a, l)))
      ensures forall l :: l in readRel[k] ==> 0 <= l < n
    {
      ReadRowMeans(g, a, nullable, t, rows[k], readRel[k], k);
      if t.MoveOf(a, k) == Move(0, g.Goal()) {
        GotoStates(g, a, nullable, t, 0);
        GotoStates(g, a, nullable, t, k);
        t.MovesDistinct(g, a, 0, k);
      }
    }
    assert forall k, e :: 0 <= k < n && 0 <= e < |readRel[k]| ==> readRel[k][e] in readRel[k];
  }

  lemma GotoStates(g: Grammar, a: Automaton, nullable: seq<bool>, t: GotoTable, i: int)
    requires Input(g, a, nullable, t) && a.Sized() && 0 <= i < |t.from|
    ensures |t.from| == |t.to| && a.IsState(t.from[i]) && a.IsState(t.to[i])
    ensures a.Trans(t.from[i], a.accessing[t.to[i]], t.to[i])
    ensures g.IsVar(a.accessing[t.to[i]]) && IsMove(g, a, t.MoveOf(a, i))
    ensures t.MoveOf(a, i) == Move(t.from[i], a.accessing[t.to[i]])
  {
    t.MoveIsMove(g, a, i);
  }

  // ----- Includes and lookback -----

  method FindShift(g: Grammar, a: Automaton, p: int, symbol: int) returns (q: int)
    requires a.IsLr0(g) && a.Sized() && a.IsState(p) && HasTrans(a, p, symbol)
    ensures a.Trans(p, symbol, q)
  {
    assert a.StateOk(g, p);
    ghost var q' :| a.Trans(p, symbol, q');
    ghost var i :| 0 <= i < |a.shifts[p]| && a.shifts[p][i] == q';
    var j := 0;
    q := p;
    while j < |a.shifts[p]|
      invariant 0 <= j <= i
    {
      q := a.shifts[p][j];
      if a.accessing[q] == symbol {
        break;
      }
      j := j + 1;
    }
  }

  /** Walks over the right-hand side of rule `r` from `p`, recording the states. */
  method WalkRule(g: Grammar, a: Automaton, p: int, r: int) returns (states: seq<int>)
    requires a.IsLr0(g) && a.Sized() && a.IsState(p) && 3 <= r < |g.rlhs| && a.In(g, p, g.rrhs[r])
    ensures g.IsRule(r) && Walk(a, states, g.Rhs(r)) && states[0] == p && |states| == g.RhsLength(r) + 1
    ensures a.IsState(states[|states| - 1]) && a.In(g, states[|states| - 1], g.Terminator(r))
  {
    assert g.IsRule(r);
    hide Automaton.IsLr0, Grammar.WellFormed, Grammar.InClosure, Automaton.Trans;
    Basics(g, a);
    states := [p];
    var rp := g.rrhs[r];
    RuleBounds(g, r);
    while g.ritem[rp] >= 0
      invariant g.rrhs[r] <= rp <= g.Terminator(r) && |states| == rp - g.rrhs[r] + 1
      invariant Walk(a, states, g.Rhs(r)[..rp - g.rrhs[r]]) && states[0] == p
      invariant a.IsState(states[|states| - 1]) && a.In(g, states[|states| - 1], rp)
      decreases g.Terminator(r) - rp
    {
      ghost var k := rp - g.rrhs[r];
      ItemSymbol(g, rp, r, k);
      ghost var q' := AdvanceItem(g, a, states[k], r, k);
      assert HasTrans(a, states[k], g.Rhs(r)[k]);
      var q := FindShift(g, a, states[|states| - 1], g.ritem[rp]);
      TransUnique(g, a, states[k], g.Rhs(r)[k], q, q');
      WalkExtend(a, states, g.Rhs(r)[..k], g.Rhs(r)[k], q);
      assert g.Rhs(r)[..k] + [g.Rhs(r)[k]] == g.Rhs(r)[..k + 1];
      states := states + [q];
      rp := rp + 1;
    }
    ItemSymbol(g, rp, r, rp - g.rrhs[r]);
    assert g.Rhs(r)[..rp - g.rrhs[r]] == g.Rhs(r);
  }

  lemma WalkExtend(a: Automaton, states: seq<int>, symbols: seq<int>, s: int, q: int)
    requires a.Sized() && Walk(a, states, symbols) && a.Trans(states[|symbols|], s, q)
    ensures Walk(a, states + [q], symbols + [s])
    ensures a.IsState(q)
  {
  }

  /** The move numbered `e` is on the symbol at position `k` of the rule, and the rest
      of the rule is nullable. */
  ghost predicate EdgeAt(g: Grammar, a: Automaton, t: GotoTable, states: seq<int>, r: int, k: int, e: int)
    requires g.WellFormed() && g.IsRule(r) && |states| == g.RhsLength(r) + 1
  {
    0 <= k < g.RhsLength(r) && t.MoveOf(a, e) == Move(states[k], g.Rhs(r)[k]) && NullableAfter(g, r, k)
  }

  ghost predicate NoneBefore(g: Grammar, a: Automaton, t: GotoTable, states: seq<int>, r: int, length: int)
    requires g.WellFormed() && g.IsRule(r) && |states| == g.RhsLength(r) + 1
  {
    forall k, e :: 0 <= k < length && 0 <= e < |t.from| ==> !EdgeAt(g, a, t, states, r, k, e)
  }

  lemma StopsAtSymbol(g: Grammar, a: Automaton, t: GotoTable, states: seq<int>, r: int, length: int)
    requires g.WellFormed() && g.IsRule(r) && |states| == g.RhsLength(r) + 1 && 0 <= length < g.RhsLength(r)
    requires length == 0 || !Nullable(g, g.Rhs(r)[length])
    ensures NoneBefore(g, a, t, states, r, length)
  {
    hide Nullable;
  }

  lemma StopsAtToken(g: Grammar, a: Automaton, nullable: seq<bool>, t: GotoTable, states: seq<int>, r: int, length: int)
    requires Input(g, a, nullable, t) && g.WellFormed() && g.IsRule(r) && |states| == g.RhsLength(r) + 1
    requires 0 <= length <= g.RhsLength(r) && (length == 0 || g.Rhs(r)[length - 1] < g.ntokens)
    ensures NoneBefore(g, a, t, states, r, length)
  {
    hide Automaton.IsLr0, Grammar.WellFormed, GotoTable.Ok, Nullable;
    InputBasics(g, a, nullable, t);
    if length > 0 {
      TokenNotNullable(g, g.Rhs(r)[length - 1]);
    }
    forall k, e | 0 <= k < length && 0 <= e < |t.from|
      ensures !EdgeAt(g, a, t, states, r, k, e)
    {
      GotoStates(g, a, nullable, t, e);
    }
  }

  ghost predicate EdgesFrom(g: Grammar, a: Automaton, t: GotoTable, states: seq<int>, r: int, length: int,
                            edges: seq<int>)
    requires a.Sized() && g.WellFormed() && g.IsRule(r) && Walk(a, states, g.Rhs(r))
  {
    forall e ::
      e in edges ==> 0 <= e < |t.from| && exists k :: length <= k && EdgeAt(g, a, t, states, r, k, e)
  }

  lemma NoEdges(g: Grammar, a: Automaton, t: GotoTable, states: seq<int>, r: int, length: int)
    requires a.Sized() && g.WellFormed() && g.IsRule(r) && Walk(a, states, g.Rhs(r))
    ensures EdgesFrom(g, a, t, states, r, length, [])
  {
  }

  lemma MoreEdges(g: Grammar, a: Automaton, t: GotoTable, states: seq<int>, r: int, length: int, edges: seq<int>,
                  e: int)
    requires a.Sized() && g.WellFormed() && g.IsRule(r) && Walk(a, states, g.Rhs(r))
    requires EdgesFrom(g, a, t, states, r, length + 1, edges)
    requires 0 <= e < |t.from| && EdgeAt(g, a, t, states, r, length, e)
    ensures EdgesFrom(g, a, t, states, r, length, edges + [e])
  {
    hide Grammar.WellFormed, EdgeAt;
  }

  lemma EdgesAreEdges(g: Grammar, a: Automaton, t: GotoTable, states: seq<int>, r: int, length: int, edges: seq<int>)
    requires a.Sized() && g.WellFormed() && g.IsRule(r) && Walk(a, states, g.Rhs(r))
    requires EdgesFrom(g, a, t, states, r, length, edges)
    ensures forall e :: e in edges ==> 0 <= e < |t.from| && exists k :: EdgeAt(g, a, t, states, r, k, e)
  {
    hide Grammar.WellFormed, EdgeAt;
  }

  /** Runs back over the rule, from variable to variable, as long as they are nullable. */
  method RuleEdges(g: Grammar, a: Automaton, nullable: seq<bool>, t: GotoTable, states: seq<int>, r: int)
    returns (edges: seq<int>)
    requires Input(g, a, nullable, t) && a.Sized() && g.WellFormed() && g.IsRule(r) && Walk(a, states, g.Rhs(r))
    ensures forall e :: e in edges <==> 0 <= e < |t.from| && exists k :: EdgeAt(g, a, t, states, r, k, e)
  {
    hide Automaton.IsLr0, Grammar.WellFormed, GotoTable.Ok, Nullable, EdgesFrom;
    InputBasics(g, a, nullable, t);
    RuleBounds(g, r);
    NoEdges(g, a, t, states, r, |states| - 1);
    BeforeOpening(g, r);
    edges := [];
    var length := |states| - 1;
    var rp := g.Terminator(r);
    var done := false;
    while !done
      invariant 0 <= length <= g.RhsLength(r) && (!done ==> rp == g.rrhs[r] + length)
      invariant forall j :: length <= j < g.RhsLength(r) && (j > length || !done) ==> Nullable(g, g.Rhs(r)[j])
      invariant EdgesFrom(g, a, t, states, r, length, edges)
      invariant forall k :: length <= k < g.RhsLength(r) ==> HasNumber(a, t, edges, Move(states[k], g.Rhs(r)[k]))
      invariant done ==> NoneBefore(g, a, t, states, r, length)
      decreases length, !done
    {
      done := true;
      rp := rp - 1;
      if g.ritem[rp] >= g.ntokens {
        length := length - 1;
        ItemSymbol(g, rp, r, length);
        assert a.Trans(states[length], g.Rhs(r)[length], states[length + 1]);
        var e := t.MapGoto(g, a, states[length], g.ritem[rp]);
        NumberedMove(g, a, t, e, g.ritem[rp] - g.ntokens);
        assert EdgeAt(g, a, t, states, r, length, e);
        MoreEdges(g, a, t, states, r, length, edges, e);
        NumbersKept(a, t, edges, edges + [e]);
        edges := edges + [e];
        assert edges[|edges| - 1] == e;
        if nullable[g.ritem[rp]] && length > 0 {
          done := false;
        } else {
          StopsAtSymbol(g, a, t, states, r, length);
        }
      } else {
        if length > 0 {
          ItemSymbol(g, rp, r, length - 1);
        }
        StopsAtToken(g, a, nullable, t, states, r, length);
      }
    }
    EdgesAreEdges(g, a, t, states, r, length, edges);
    forall e | 0 <= e < |t.from| && exists k :: EdgeAt(g, a, t, states, r, k, e)
      ensures e in edges
    {
      var k :| EdgeAt(g, a, t, states, r, k, e);
      EdgeListed(g, a, nullable, t, states, r, edges, k, e);
    }
  }

  /** A move has only one number, so the one that was listed is this one. */
  lemma EdgeListed(g: Grammar, a: Automaton, nullable: seq<bool>, t: GotoTable, states: seq<int>, r: int,
                   edges: seq<int>, k: int, e: int)
    requires Input(g, a, nullable, t) && a.Sized() && g.WellFormed() && g.IsRule(r) && Walk(a, states, g.Rhs(r))
    requires 0 <= e < |t.from| && EdgeAt(g, a, t, states, r, k, e)
    requires HasNumber(a, t, edges, Move(states[k], g.Rhs(r)[k])) && forall e' :: e' in edges ==> 0 <= e' < |t.from|
    ensures e in edges
  {
    hide Automaton.IsLr0, Grammar.WellFormed, GotoTable.Ok, Nullable;
    InputBasics(g, a, nullable, t);
    var e' :| e' in edges && t.MoveOf(a, e') == Move(states[k], g.Rhs(r)[k]);
    GotoStates(g, a, nullable, t, e);
    GotoStates(g, a, nullable, t, e');
    t.MovesDistinct(g, a, e, e');
  }

  /** The numbering of the reductions: those of state `q` have the numbers from
      `lookaheads[q]` up to `lookaheads[q + 1]`. */
  datatype LaIndex = LaIndex(lookaheads: seq<int>, ruleno: seq<int>) {
    ghost predicate InRow(q: int, k: int) {
      0 <= q && q + 1 < |lookaheads| && lookaheads[q] <= k < lookaheads[q + 1]
    }

    ghost predicate RowOk(a: Automaton, q: int)
      requires a.Sized() && a.IsState(q)
    {
      && q + 1 < |lookaheads|
      && 0 <= lookaheads[q] && lookaheads[q + 1] == lookaheads[q] + |a.reductions[q]| <= |ruleno|
      && forall j :: 0 <= j < |a.reductions[q]| ==> ruleno[lookaheads[q] + j] == a.reductions[q][j]
    }

    ghost predicate Ok(a: Automaton) {
      && a.Sized() && |lookaheads| == |a.kernels| + 1
      && lookaheads[0] == 0 && lookaheads[|a.kernels|] == |ruleno|
      && (forall q {:trigger RowOk(a, q)} :: a.IsState(q) ==> RowOk(a, q))
      && (forall q, q', k {:trigger InRow(q, k), InRow(q', k)} :: InRow(q, k) && InRow(q', k) ==> q == q')
    }
  }

  method InitializeLA(g: Grammar, a: Automaton) returns (la: LaIndex)
    requires a.IsLr0(g)
    ensures la.Ok(a)
  {
    Basics(g, a);
    hide Automaton.IsLr0, Grammar.WellFormed;
    var lookaheads := [0];
    var ruleno := [];
    var q := 0;
    while q < |a.kernels|
      invariant 0 <= q <= |a.kernels| && |lookaheads| == q + 1 && lookaheads[q] == |ruleno|
      invariant forall p {:trigger LaIndex(lookaheads, ruleno).RowOk(a, p)} ::
                  0 <= p < q ==> LaIndex(lookaheads, ruleno).RowOk(a, p)
      invariant forall p, p' :: 0 <= p <= p' <= q ==> 0 == lookaheads[0] <= lookaheads[p] <= lookaheads[p']
    {
      ghost var before := LaIndex(lookaheads, ruleno);
      ruleno := ruleno + a.reductions[q];
      lookaheads := lookaheads + [lookaheads[q] + |a.reductions[q]|];
      ghost var after := LaIndex(lookaheads, ruleno);
      forall p | 0 <= p < q + 1
        ensures after.RowOk(a, p)
      {
        assert p < q ==> before.RowOk(a, p);
      }
      q := q + 1;
    }
    la := LaIndex(lookaheads, ruleno);
  }

  /** What the lookback list of reduction `k` holds: of the moves before `n`, and of
      move `n` for the given rules, those that the reduction can uncover. */
  ghost predicate LookbackOk(g: Grammar, a: Automaton, t: GotoTable, la: LaIndex, lookback: seq<seq<int>>,
                             n: int, rules: seq<int>)
    requires a.Sized() && g.WellFormed()
  {
    && |lookback| == |la.ruleno|
    && forall q, k, i {:trigger la.InRow(q, k), i in lookback[k]} :: la.InRow(q, k) && 0 <= k < |lookback| ==>
         (i in lookback[k] <==> UncoversUpTo(g, a, t, q, la.ruleno[k], i, n, rules))
  }

  ghost predicate UncoversUpTo(g: Grammar, a: Automaton, t: GotoTable, q: int, r: int, i: int, n: int, rules: seq<int>)
    requires a.Sized() && g.WellFormed()
  {
    (0 <= i < n || (i == n && r in rules)) && Lookback(g, a, q, r, t.MoveOf(a, i))
  }

  method AddLookbackEdge(g: Grammar, a: Automaton, t: GotoTable, la: LaIndex, lookback: array<seq<int>>,
                         stateno: int, r: int, gotono: int, ghost rules: seq<int>)
    requires a.Sized() && g.WellFormed() && la.Ok(a) && a.IsState(stateno) && r in a.reductions[stateno]
    requires 0 <= gotono < |t.from| && LookbackOk(g, a, t, la, lookback[..], gotono, rules) && r !in rules
    requires Distinct(a.reductions[stateno])
    requires forall q {:trigger a.IsState(q)} :: a.IsState(q) ==>
               (Lookback(g, a, q, r, t.MoveOf(a, gotono)) <==> q == stateno)
    modifies lookback
    ensures LookbackOk(g, a, t, la, lookback[..], gotono, rules + [r])
  {
    hide Lookback;
    assert la.RowOk(a, stateno);
    ghost var j :| 0 <= j < |a.reductions[stateno]| && a.reductions[stateno][j] == r;
    var i := la.lookaheads[stateno];
    var k := la.lookaheads[stateno + 1];
    var found := false;
    while !found && i < k
      invariant la.lookaheads[stateno] <= i <= la.lookaheads[stateno] + j < k
      invariant found ==> la.ruleno[i] == r
      decreases k - i, !found
    {
      if la.ruleno[i] == r {
        found := true;
      } else {
        i := i + 1;
      }
    }
    assert found;
    ghost var before := lookback[..];
    lookback[i] := [gotono] + lookback[i];
    assert la.InRow(stateno, i);
    LookbackGrown(g, a, t, la, before, stateno, r, gotono, rules, i);
    assert lookback[..] == before[i := [gotono] + before[i]];
  }

  ghost predicate Distinct(s: seq<int>) {
    forall i, j :: 0 <= i < j < |s| ==> s[i] != s[j]
  }

  lemma SameNumber(a: Automaton, la: LaIndex, q: int, k: int, l: int)
    requires la.Ok(a) && a.IsState(q) && Distinct(a.reductions[q]) && la.InRow(q, k) && la.InRow(q, l)
    requires 0 <= k < |la.ruleno| && 0 <= l < |la.ruleno| && la.ruleno[k] == la.ruleno[l]
    ensures k == l
  {
    assert la.RowOk(a, q);
    var i, j := k - la.lookaheads[q], l - la.lookaheads[q];
    assert a.reductions[q][i] == a.reductions[q][j];
  }

  lemma LookbackGrown(g: Grammar, a: Automaton, t: GotoTable, la: LaIndex, before: seq<seq<int>>,
                      stateno: int, r: int, gotono: int, rules: seq<int>, at: int)
    requires a.Sized() && g.WellFormed() && la.Ok(a) && a.IsState(stateno)
    requires 0 <= gotono < |t.from| && LookbackOk(g, a, t, la, before, gotono, rules) && r !in rules
    requires Distinct(a.reductions[stateno])
    requires forall q {:trigger a.IsState(q)} :: a.IsState(q) ==>
               (Lookback(g, a, q, r, t.MoveOf(a, gotono)) <==> q == stateno)
    requires la.InRow(stateno, at) && 0 <= at < |la.ruleno| && la.ruleno[at] == r
    ensures LookbackOk(g, a, t, la, before[at := [gotono] + before[at]], gotono, rules + [r])
  {
    hide Lookback;
    var after := before[at := [gotono] + before[at]];
    forall q, k, i {:trigger la.InRow(q, k), i in after[k]} | la.InRow(q, k) && 0 <= k < |after|
      ensures i in after[k] <==> UncoversUpTo(g, a, t, q, la.ruleno[k], i, gotono, rules + [r])
    {
      assert a.IsState(q) && la.RowOk(a, q);
      assert i in before[k] <==> UncoversUpTo(g, a, t, q, la.ruleno[k], i, gotono, rules);
      if k == at {
        assert la.InRow(q, at) && la.InRow(stateno, at);
      }
      if q == stateno && la.ruleno[k] == r {
        SameNumber(a, la, q, k, at);
      }
    }
  }

  lemma EdgeMeansIncludes(g: Grammar, a: Automaton, nullable: seq<bool>, t: GotoTable, states: seq<int>,
                          i: int, r: int, k: int, e: int)
    requires Input(g, a, nullable, t) && a.Sized() && g.WellFormed() && g.IsRule(r) && Walk(a, states, g.Rhs(r))
    requires 0 <= i < |t.from| && states[0] == t.MoveOf(a, i).state && g.rlhs[r] == t.MoveOf(a, i).symbol
    ensures EdgeAt(g, a, t, states, r, k, e) <==> IncludesVia(g, a, t.MoveOf(a, e), t.MoveOf(a, i), r, k)
  {
    hide Automaton.IsLr0, Grammar.WellFormed, GotoTable.Ok, GotoTable.MoveOf, Nullable;
    RuleBounds(g, r);
    if 0 <= k < g.RhsLength(r) {
      WalkPrefix(a, states, g.Rhs(r), k);
      if Spells(a, states[0], g.Rhs(r)[..k], t.MoveOf(a, e).state) {
        SpellsUnique(g, a, states[0], g.Rhs(r)[..k], t.MoveOf(a, e).state, states[k]);
      }
    }
  }

  lemma WalkPrefix(a: Automaton, states: seq<int>, symbols: seq<int>, k: int)
    requires a.Sized() && Walk(a, states, symbols) && 0 <= k <= |symbols|
    ensures Spells(a, states[0], symbols[..k], states[k])
  {
    assert Walk(a, states[..k + 1], symbols[..k]);
  }

  /** The walk over the rule ends in the one state whose reduction looks back to move `i`. */
  lemma WalkMeansLookback(g: Grammar, a: Automaton, nullable: seq<bool>, t: GotoTable, states: seq<int>, i: int, r: int)
    requires Input(g, a, nullable, t) && a.Sized() && g.WellFormed() && g.IsRule(r) && Walk(a, states, g.Rhs(r))
    requires 0 <= i < |t.from| && states[0] == t.MoveOf(a, i).state && g.rlhs[r] == t.MoveOf(a, i).symbol
    requires a.IsState(states[|states| - 1]) && a.In(g, states[|states| - 1], g.Terminator(r))
    ensures r in a.reductions[states[|states| - 1]] && Distinct(a.reductions[states[|states| - 1]])
    ensures forall q {:trigger a.IsState(q)} :: a.IsState(q) ==>
              (Lookback(g, a, q, r, t.MoveOf(a, i)) <==> q == states[|states| - 1])
  {
    assert a.StateOk(g, states[|states| - 1]);
    WalkPrefix(a, states, g.Rhs(r), |g.Rhs(r)|);
    assert g.Rhs(r)[..|g.Rhs(r)|] == g.Rhs(r);
    GotoStates(g, a, nullable, t, i);
    hide Automaton.IsLr0, Grammar.WellFormed, GotoTable.Ok, GotoTable.MoveOf, Nullable;
    forall q | a.IsState(q) && Lookback(g, a, q, r, t.MoveOf(a, i))
      ensures q == states[|states| - 1]
    {
      SpellsUnique(g, a, states[0], g.Rhs(r), q, states[|states| - 1]);
    }
  }

  /** The moves included, through the given rules, by move `i`'s variable. */
  ghost predicate IncludeRow(g: Grammar, a: Automaton, t: GotoTable, edges: seq<int>, i: int, rules: seq<int>)
    requires a.Sized() && g.WellFormed()
  {
    forall e :: e in edges <==> 0 <= e < |t.from| && IncludedBy(g, a, t, e, i, rules)
  }

  ghost predicate IncludedBy(g: Grammar, a: Automaton, t: GotoTable, e: int, i: int, rules: seq<int>)
    requires a.Sized() && g.WellFormed()
  {
    exists r, k :: r in rules && IncludesVia(g, a, t.MoveOf(a, e), t.MoveOf(a, i), r, k)
  }

  lemma IncludeRowGrown(g: Grammar, a: Automaton, nullable: seq<bool>, t: GotoTable, states: seq<int>,
                        i: int, rules: seq<int>, r: int, old_: seq<int>, more: seq<int>)
    requires Input(g, a, nullable, t) && a.Sized() && g.WellFormed() && g.IsRule(r) && Walk(a, states, g.Rhs(r))
    requires 0 <= i < |t.from| && states[0] == t.MoveOf(a, i).state && g.rlhs[r] == t.MoveOf(a, i).symbol
    requires IncludeRow(g, a, t, old_, i, rules)
    requires forall e :: e in more <==> 0 <= e < |t.from| && exists k :: EdgeAt(g, a, t, states, r, k, e)
    ensures IncludeRow(g, a, t, old_ + more, i, rules + [r])
  {
    hide Input, Grammar.WellFormed, EdgeAt, IncludesVia;
    RuleBounds(g, r);
    forall e
      ensures e in old_ + more <==> 0 <= e < |t.from| && IncludedBy(g, a, t, e, i, rules + [r])
    {
      forall k
        ensures EdgeAt(g, a, t, states, r, k, e) <==> IncludesVia(g, a, t.MoveOf(a, e), t.MoveOf(a, i), r, k)
      {
        EdgeMeansIncludes(g, a, nullable, t, states, i, r, k, e);
      }
      assert IncludedBy(g, a, t, e, i, rules + [r]) <==>
        IncludedBy(g, a, t, e, i, rules) || exists k :: IncludesVia(g, a, t.MoveOf(a, e), t.MoveOf(a, i), r, k);
    }
  }

  ghost predicate IncludedIn(g: Grammar, a: Automaton, t: GotoTable, edges: seq<int>, i: int)
    requires a.Sized() && g.WellFormed()
  {
    forall e :: e in edges <==> 0 <= e < |t.from| && Includes(g, a, t.MoveOf(a, e), t.MoveOf(a, i))
  }

  /** One row of `build_relations`. */
  method BuildRow(g: Grammar, a: Automaton, nullable: seq<bool>, t: GotoTable, la: LaIndex, lookback: array<seq<int>>,
                  i: int)
    returns (edges: seq<int>)
    requires Input(g, a, nullable, t) && a.Sized() && g.WellFormed() && la.Ok(a) && 0 <= i < |t.from|
    requires LookbackOk(g, a, t, la, lookback[..], i, [])
    modifies lookback
    ensures LookbackOk(g, a, t, la, lookback[..], i + 1, [])
    ensures IncludedIn(g, a, t, edges, i)
  {
    hide Automaton.IsLr0, Grammar.WellFormed, GotoTable.Ok, LaIndex.Ok, Lookback, LookbackOk, IncludeRow, Walk;
    GotoStates(g, a, nullable, t, i);
    InputBasics(g, a, nullable, t);
    var state1 := t.from[i];
    var symbol1 := a.accessing[t.to[i]];
    NoStartMove(g, a, state1, symbol1, t.to[i]);
    RuleTwo(g);
    var rules := Derives(g, symbol1, |g.rlhs|);
    edges := [];
    IncludeRowEmpty(g, a, t, i);
    var d := 0;
    while d < |rules|
      invariant 0 <= d <= |rules|
      invariant LookbackOk(g, a, t, la, lookback[..], i, rules[..d])
      invariant IncludeRow(g, a, t, edges, i, rules[..d])
    {
      var r := rules[d];
      assert r in rules && g.IsRule(r);
      DerivesDistinct(g, symbol1, |g.rlhs|, d);
      GotoHasOpening(g, a, state1, t.to[i], r);
      var states := WalkRule(g, a, state1, r);
      WalkMeansLookback(g, a, nullable, t, states, i, r);
      AddLookbackEdge(g, a, t, la, lookback, states[|states| - 1], r, i, rules[..d]);
      var more := RuleEdges(g, a, nullable, t, states, r);
      IncludeRowGrown(g, a, nullable, t, states, i, rules[..d], r, edges, more);
      edges := edges + more;
      assert rules[..d] + [r] == rules[..d + 1];
      d := d + 1;
    }
    assert rules[..d] == rules;
    AllRulesDone(g, a, nullable, t, la, lookback[..], i, edges);
  }

  lemma RuleTwo(g: Grammar)
    requires g.WellFormed()
    ensures g.rlhs[2] == g.ntokens && |g.rlhs| > 2
  {
    assert g.IsRule(2);
  }

  lemma IncludeRowEmpty(g: Grammar, a: Automaton, t: GotoTable, i: int)
    requires a.Sized() && g.WellFormed()
    ensures IncludeRow(g, a, t, [], i, [])
  {
  }

  lemma {:induction false} DerivesDistinct(g: Grammar, s: int, n: int, d: int)
    requires 2 <= n <= |g.rlhs| && 0 <= d < |Derives(g, s, n)|
    ensures Derives(g, s, n)[d] !in Derives(g, s, n)[..d]
  {
    if n > 2 {
      var rest := Derives(g, s, n - 1);
      if d < |rest| {
        DerivesDistinct(g, s, n - 1, d);
        assert Derives(g, s, n)[..d] == rest[..d];
      } else {
        assert Derives(g, s, n)[..d] == rest;
        assert n - 1 !in rest;
      }
    }
  }

  lemma AllRulesDone(g: Grammar, a: Automaton, nullable: seq<bool>, t: GotoTable, la: LaIndex, lookback: seq<seq<int>>,
                     i: int, edges: seq<int>)
    requires Input(g, a, nullable, t) && a.Sized() && g.WellFormed() && 0 <= i < |t.from|
    requires LookbackOk(g, a, t, la, lookback, i, Derives(g, t.MoveOf(a, i).symbol, |g.rlhs|))
    requires IncludeRow(g, a, t, edges, i, Derives(g, t.MoveOf(a, i).symbol, |g.rlhs|))
    ensures LookbackOk(g, a, t, la, lookback, i + 1, [])
    ensures IncludedIn(g, a, t, edges, i)
  {
    hide Input, GotoTable.MoveOf, Grammar.WellFormed, IncludeRow;
    RuleTwo(g);
    var rules := Derives(g, t.MoveOf(a, i).symbol, |g.rlhs|);
    forall q, r, j
      ensures UncoversUpTo(g, a, t, q, r, j, i, rules) <==> UncoversUpTo(g, a, t, q, r, j, i + 1, [])
    {
    }
    GotoStates(g, a, nullable, t, i);
    forall e
      ensures e in edges <==> 0 <= e < |t.from| && Includes(g, a, t.MoveOf(a, e), t.MoveOf(a, i))
    {
      if 0 <= e < |t.from| {
        GotoStates(g, a, nullable, t, e);
        assert Includes(g, a, t.MoveOf(a, e), t.MoveOf(a, i)) <==> IncludedBy(g, a, t, e, i, rules);
      }
      RowMember(g, a, t, edges, i, rules, e);
    }
  }

  lemma RowMember(g: Grammar, a: Automaton, t: GotoTable, edges: seq<int>, i: int, rules: seq<int>, e: int)
    requires a.Sized() && g.WellFormed() && IncludeRow(g, a, t, edges, i, rules)
    ensures e in edges <==> 0 <= e < |t.from| && IncludedBy(g, a, t, e, i, rules)
  {
  }

  /** `includeRel` is the include relation on numbers. */
  ghost predicate IncludeNumbers(g: Grammar, a: Automaton, t: GotoTable, includeRel: Relation)
    requires a.Sized() && g.WellFormed()
  {
    && IsRelation(includeRel, |t.from|)
    && forall i, j {:trigger Edge(includeRel, i, j)} :: 0 <= i < |t.from| && 0 <= j < |t.from| ==>
         (Edge(includeRel, i, j) <==> Includes(g, a, t.MoveOf(a, i), t.MoveOf(a, j)))
  }

  /** The edges of the vertices before `i`, and the first `e` edges of `i`, turned around. */
  ghost predicate Turned(r: Relation, s: Relation, i: int, e: int) {
    && |s| == |r| && 0 <= i <= |r| && (if i < |r| then 0 <= e <= |r[i]| else e == 0)
    && forall v, w {:trigger w in s[v]} :: 0 <= v < |s| ==>
         (w in s[v] <==> (0 <= w < i && v in r[w]) || (w == i < |r| && v in r[i][..e]))
  }

  lemma TurnEdge(r: Relation, s: Relation, i: int, e: int)
    requires IsRelation(r, |r|) && 0 <= i < |r| && 0 <= e < |r[i]| && Turned(r, s, i, e)
    ensures Turned(r, s[r[i][e] := s[r[i][e]] + [i]], i, e + 1)
  {
    var j := r[i][e];
    assert r[i][..e + 1] == r[i][..e] + [j];
    assert forall x :: x in r[i][..e + 1] <==> x in r[i][..e] || x == j;
    assert forall w :: w in s[j] + [i] <==> w in s[j] || w == i;
  }

  lemma TurnNext(r: Relation, s: Relation, i: int)
    requires 0 <= i < |r| && Turned(r, s, i, |r[i]|)
    ensures Turned(r, s, i + 1, 0)
  {
    assert r[i][..|r[i]|] == r[i];
  }

  lemma TurnedAll(r: Relation, s: Relation)
    requires Turned(r, s, |r|, 0)
    ensures IsRelation(s, |r|)
    ensures forall v, w {:trigger Edge(s, v, w)} :: 0 <= v < |r| && 0 <= w < |r| ==> (Edge(s, v, w) <==> Edge(r, w, v))
  {
    forall v, e | 0 <= v < |s| && 0 <= e < |s[v]|
      ensures 0 <= s[v][e] < |r|
    {
      assert s[v][e] in s[v];
    }
  }

  /** Turns every edge of the relation around. */
  method Transpose(r: Relation) returns (reversed: array<seq<int>>)
    requires IsRelation(r, |r|)
    ensures fresh(reversed) && IsRelation(reversed[..], |r|)
    ensures forall v, w {:trigger Edge(reversed[..], v, w)} :: 0 <= v < |r| && 0 <= w < |r| ==>
              (Edge(reversed[..], v, w) <==> Edge(r, w, v))
  {
    reversed := new seq<int>[|r|](_ => []);
    var i := 0;
    while i < |r|
      invariant 0 <= i <= |r| == reversed.Length && Turned(r, reversed[..], i, 0)
    {
      var e := 0;
      while e < |r[i]|
        invariant 0 <= e <= |r[i]| && Turned(r, reversed[..], i, e)
      {
        TurnEdge(r, reversed[..], i, e);
        ghost var s := reversed[..];
        var j := r[i][e];
        reversed[j] := reversed[j] + [i];
        assert reversed[..] == s[j := s[j] + [i]];
        e := e + 1;
      }
      TurnNext(r, reversed[..], i);
      i := i + 1;
    }
    TurnedAll(r, reversed[..]);
  }

  /** The include relation and the lookback lists. */
  method BuildRelations(g: Grammar, a: Automaton, nullable: seq<bool>, t: GotoTable, la: LaIndex)
    returns (includeRel: array<seq<int>>, lookback: array<seq<int>>)
    requires Input(g, a, nullable, t) && a.Sized() && g.WellFormed() && la.Ok(a)
    ensures fresh(includeRel) && IncludeNumbers(g, a, t, includeRel[..])
    ensures fresh(lookback) && LookbackOk(g, a, t, la, lookback[..], |t.from|, [])
  {
    hide Automaton.IsLr0, Grammar.WellFormed, GotoTable.Ok, LaIndex.Ok, Includes, Lookback;
    InputBasics(g, a, nullable, t);
    lookback := new seq<int>[|la.ruleno|](_ => []);
    var rows: Relation := [];
    var i := 0;
    while i < |t.from|
      invariant 0 <= i <= |t.from| && |rows| == i && fresh(lookback)
      invariant LookbackOk(g, a, t, la, lookback[..], i, [])
      invariant forall k :: 0 <= k < i ==> IncludedIn(g, a, t, rows[k], k)
    {
      var edges := BuildRow(g, a, nullable, t, la, lookback, i);
      rows := rows + [edges];
      i := i + 1;
    }
    forall k, e | 0 <= k < i && 0 <= e < |rows[k]|
      ensures 0 <= rows[k][e] < |t.from|
    {
      assert IncludedIn(g, a, t, rows[k], k) && rows[k][e] in rows[k];
    }
    includeRel := Transpose(rows);
    forall v, w {:trigger Edge(includeRel[..], v, w)} | 0 <= v < i && 0 <= w < i
      ensures Edge(includeRel[..], v, w) <==> Includes(g, a, t.MoveOf(a, v), t.MoveOf(a, w))
    {
      assert IncludedIn(g, a, t, rows[w], w) && (Edge(rows, w, v) <==> v in rows[w]);
    }
  }

  /** Collects, per reduction, the follow rows of the moves it looks back to. */
  method ComputeLookaheads(f: seq<set<int>>, lookback: seq<seq<int>>) returns (la: array<set<int>>)
    requires forall k, e :: 0 <= k < |lookback| && 0 <= e < |lookback[k]| ==> 0 <= lookback[k][e] < |f|
    ensures fresh(la) && la.Length == |lookback|
    ensures forall k, s :: 0 <= k < |lookback| ==>
              (s in la[k] <==> exists i :: i in lookback[k] && 0 <= i < |f| && s in f[i])
  {
    la := new set<int>[|lookback|](_ => {});
    var k := 0;
    while k < |lookback|
      invariant 0 <= k <= |lookback| == la.Length
      invariant forall l, s :: 0 <= l < k ==>
                  (s in la[l] <==> exists i :: i in lookback[l] && 0 <= i < |f| && s in f[i])
    {
      var row := {};
      var e := 0;
      while e < |lookback[k]|
        invariant 0 <= e <= |lookback[k]|
        invariant forall s :: s in row <==> exists i :: 0 <= i < e && s in f[lookback[k][i]]
      {
        row := row + f[lookback[k][e]];
        e := e + 1;
      }
      assert forall s :: s in row ==> exists i :: i in lookback[k] && 0 <= i < |f| && s in f[i];
      la[k] := row;
      k := k + 1;
    }
  }

  /** The rows of the numbered moves, as a family of sets over moves. */
  ghost function FamilyOf(g: Grammar, a: Automaton, t: GotoTable, rows: seq<set<int>>): (f: Family)
    requires a.IsLr0(g) && t.Ok(g, a) && |rows| == |t.from|
    ensures Defined(g, a, f)
    ensures forall k :: 0 <= k < |rows| ==> t.MoveOf(a, k) in f && f[t.MoveOf(a, k)] == rows[k]
  {
    forall k, l | 0 <= k < |rows| && 0 <= l < |rows| && t.MoveOf(a, k) == t.MoveOf(a, l)
      ensures k == l
    {
      t.MoveIsMove(g, a, k);
      t.MoveIsMove(g, a, l);
      t.MovesDistinct(g, a, k, l);
    }
    var f := map k | 0 <= k < |rows| :: t.MoveOf(a, k) := rows[k];
    forall m: Move
      ensures m in f <==> IsMove(g, a, m)
    {
      if m in f {
        var k :| 0 <= k < |rows| && t.MoveOf(a, k) == m;
        t.MoveIsMove(g, a, k);
      }
      if IsMove(g, a, m) {
        var k := t.MoveNumber(g, a, m);
      }
    }
    f
  }

  /** The two closures give read and follow sets that satisfy the equations. */
  lemma ClosuresSatisfy(g: Grammar, a: Automaton, t: GotoTable, f0: seq<set<int>>, readRel: Relation,
                        readRows: seq<set<int>>, includeRel: Relation, followRows: seq<set<int>>)
    requires a.IsLr0(g) && t.Ok(g, a) && DirectRows(g, a, t, f0)
    requires ReadNumbers(g, a, t, readRel) && IncludeNumbers(g, a, t, includeRel)
    requires |readRows| == |followRows| == |t.from|
    requires forall k :: 0 <= k < |t.from| ==> readRows[k] == Star(readRel, f0, k)
    requires forall k :: 0 <= k < |t.from| ==> followRows[k] == Star(includeRel, readRows, k)
    ensures Satisfies(g, a, FamilyOf(g, a, t, readRows), FamilyOf(g, a, t, followRows))
  {
    hide Automaton.IsLr0, GotoTable.Ok, Reads, Includes, DirectRead, IsMove, GotoTable.MoveOf;
    Basics(g, a);
    var read, follow := FamilyOf(g, a, t, readRows), FamilyOf(g, a, t, followRows);
    forall m | m in read
      ensures forall s :: DirectRead(g, a, m, s) ==> s in read[m]
      ensures read[m] <= follow[m]
    {
      var k := t.MoveNumber(g, a, m);
      StarOwnRow(readRel, f0, k);
      StarOwnRow(includeRel, readRows, k);
    }
    forall m, m' | m in read && m' in read && Reads(g, a, m, m')
      ensures read[m'] <= read[m]
    {
      var k := t.MoveNumber(g, a, m);
      var k' := t.MoveNumber(g, a, m');
      assert Edge(readRel, k, k');
      StarEdge(readRel, f0, k, k');
    }
    forall m, m' | m in follow && m' in follow && Includes(g, a, m, m')
      ensures follow[m'] <= follow[m]
    {
      var k := t.MoveNumber(g, a, m);
      var k' := t.MoveNumber(g, a, m');
      assert Edge(includeRel, k, k');
      StarEdge(includeRel, readRows, k, k');
    }
  }

  /** A relation on numbers that is closed off by a family of sets bounds the closure. */
  lemma ClosureBelow(g: Grammar, a: Automaton, t: GotoTable, rel: Relation, rows: seq<set<int>>, f: Family)
    requires a.IsLr0(g) && t.Ok(g, a) && IsRelation(rel, |t.from|) && |rows| == |t.from| && Defined(g, a, f)
    requires forall k :: 0 <= k < |t.from| ==> t.MoveOf(a, k) in f && rows[k] <= f[t.MoveOf(a, k)]
    requires forall k, k' :: 0 <= k < |t.from| && Edge(rel, k, k') && 0 <= k' < |t.from| ==>
               f[t.MoveOf(a, k')] <= f[t.MoveOf(a, k)]
    ensures forall k :: 0 <= k < |t.from| ==> Star(rel, rows, k) <= f[t.MoveOf(a, k)]
  {
    hide Automaton.IsLr0, GotoTable.Ok, GotoTable.MoveOf, Defined;
    var all := T.Range(|t.from|);
    var x := map k: int | k in all :: f[t.MoveOf(a, k)];
    forall k | 0 <= k < |t.from|
      ensures Star(rel, rows, k) <= f[t.MoveOf(a, k)]
    {
      StarLeast(rel, rows, all, x, k);
    }
  }

  /** They are the least ones: no smaller families satisfy the equations. */
  lemma ClosuresLeast(g: Grammar, a: Automaton, t: GotoTable, f0: seq<set<int>>, readRel: Relation,
                      readRows: seq<set<int>>, includeRel: Relation, followRows: seq<set<int>>,
                      read': Family, follow': Family)
    requires a.IsLr0(g) && t.Ok(g, a) && DirectRows(g, a, t, f0)
    requires ReadNumbers(g, a, t, readRel) && IncludeNumbers(g, a, t, includeRel)
    requires |readRows| == |followRows| == |t.from|
    requires forall k :: 0 <= k < |t.from| ==> readRows[k] == Star(readRel, f0, k)
    requires forall k :: 0 <= k < |t.from| ==> followRows[k] == Star(includeRel, readRows, k)
    requires Satisfies(g, a, read', follow')
    ensures Below(FamilyOf(g, a, t, readRows), read') && Below(FamilyOf(g, a, t, followRows), follow')
  {
    hide Automaton.IsLr0, GotoTable.Ok, Reads, Includes, DirectRead, GotoTable.MoveOf;
    Basics(g, a);
    forall k | 0 <= k < |t.from|
      ensures t.MoveOf(a, k) in read' && t.MoveOf(a, k) in follow' && f0[k] <= read'[t.MoveOf(a, k)]
    {
      t.MoveIsMove(g, a, k);
      var m := t.MoveOf(a, k);
      forall s | s in f0[k]
        ensures s in read'[m]
      {
        assert m in read' && DirectRead(g, a, m, s);
      }
    }
    hide IsMove;
    ClosureBelow(g, a, t, readRel, f0, read');
    ClosureBelow(g, a, t, includeRel, readRows, follow');
    forall m | IsMove(g, a, m)
      ensures FamilyOf(g, a, t, readRows)[m] <= read'[m] && FamilyOf(g, a, t, followRows)[m] <= follow'[m]
    {
      var k := t.MoveNumber(g, a, m);
    }
  }

  lemma FollowIsLeast(g: Grammar, a: Automaton, t: GotoTable, f0: seq<set<int>>, readRel: Relation,
                      readRows: seq<set<int>>, includeRel: Relation, followRows: seq<set<int>>)
    requires a.IsLr0(g) && t.Ok(g, a) && DirectRows(g, a, t, f0)
    requires ReadNumbers(g, a, t, readRel) && IncludeNumbers(g, a, t, includeRel)
    requires |readRows| == |followRows| == |t.from|
    requires forall k :: 0 <= k < |t.from| ==> readRows[k] == Star(readRel, f0, k)
    requires forall k :: 0 <= k < |t.from| ==> followRows[k] == Star(includeRel, readRows, k)
    ensures IsFollow(g, a, FamilyOf(g, a, t, followRows))
  {
    hide Automaton.IsLr0, GotoTable.Ok, Satisfies, Below, DirectRows, ReadNumbers, IncludeNumbers;
    Basics(g, a);
    var read, follow := FamilyOf(g, a, t, readRows), FamilyOf(g, a, t, followRows);
    ClosuresSatisfy(g, a, t, f0, readRel, readRows, includeRel, followRows);
    forall read', follow' | Satisfies(g, a, read', follow')
      ensures Below(read, read') && Below(follow, follow')
    {
      ClosuresLeast(g, a, t, f0, readRel, readRows, includeRel, followRows, read', follow');
    }
  }

  /** Both closures: first over the reads, then over the includes.  They are right when the mark
      for finished vertices fits in a short. */
  method ComputeFollows(g: Grammar, a: Automaton, nullable: seq<bool>, t: GotoTable, la: LaIndex)
    returns (rows: seq<set<int>>, lookback: seq<seq<int>>)
    requires Input(g, a, nullable, t) && a.Sized() && g.WellFormed() && la.Ok(a) && |t.from| <= MAXSHORT
    ensures |rows| == |t.from| && a.IsLr0(g) && t.Ok(g, a) && T.Within(rows, Tokens(g))
    ensures |t.from| + 2 <= MAXSHORT ==> IsFollow(g, a, FamilyOf(g, a, t, rows))
    ensures LookbackOk(g, a, t, la, lookback, |t.from|, [])
  {
    hide Automaton.IsLr0, Grammar.WellFormed, GotoTable.Ok, LaIndex.Ok, IsFollow;
    hide LookbackOk, DirectRead, Reads, Includes, GotoTable.MoveOf;
    var f, readRel := InitializeF(g, a, nullable, t);
    ghost var f0 := f[..];
    Digraph.Digraph(readRel, f);
    ghost var readRows := f[..];
    var includeRel, lookbacks := BuildRelations(g, a, nullable, t, la);
    lookback := lookbacks[..];
    Digraph.Digraph(includeRel[..], f);
    rows := f[..];
    RowsOfTokens(g, a, t, readRel, f0, readRows, includeRel[..], rows);
    if |t.from| + 2 <= MAXSHORT {
      FollowIsLeast(g, a, t, f0, readRel, readRows, includeRel[..], rows);
    }
  }

  ghost function Tokens(g: Grammar): set<int> {
    T.Range(g.ntokens)
  }

  /** Whatever the closures are, they hold tokens only. */
  lemma RowsOfTokens(g: Grammar, a: Automaton, t: GotoTable, readRel: Relation, f0: seq<set<int>>,
                     readRows: seq<set<int>>, includeRel: Relation, rows: seq<set<int>>)
    requires a.IsLr0(g) && g.WellFormed() && a.Sized() && DirectRows(g, a, t, f0)
    requires IsRelation(readRel, |f0|) && IsRelation(includeRel, |f0|) && T.Short(|f0| + 2) != 0
    requires readRows == T.Rows(readRel, T.Short(|f0| + 2), f0)
    requires rows == T.Rows(includeRel, T.Short(|f0| + 2), readRows)
    ensures T.Within(rows, Tokens(g))
  {
    hide Automaton.IsLr0, T.Rows, Grammar.WellFormed;
    Basics(g, a);
    forall i | 0 <= i < |f0|
      ensures f0[i] <= Tokens(g)
    {
      forall s | s in f0[i]
        ensures s in Tokens(g)
      {
        assert DirectRead(g, a, t.MoveOf(a, i), s);
      }
    }
    T.RowsWithin(readRel, T.Short(|f0| + 2), f0, Tokens(g));
    T.RowsWithin(includeRel, T.Short(|f0| + 2), readRows, Tokens(g));
  }

  /** The lookback lists of the reductions of a state name the moves in range that the
      reduction can uncover. */
  lemma LookaheadRow(g: Grammar, a: Automaton, nullable: seq<bool>, t: GotoTable, la: LaIndex, lookback: seq<seq<int>>,
                     rows: seq<set<int>>, q: int, k: int, f: set<int>)
    requires Input(g, a, nullable, t) && a.Sized() && g.WellFormed() && la.InRow(q, k) && 0 <= k < |lookback|
    requires LookbackOk(g, a, t, la, lookback, |t.from|, []) && |rows| == |t.from|
    requires forall s :: s in f <==> exists i :: i in lookback[k] && 0 <= i < |rows| && s in rows[i]
    ensures IsLookahead(g, a, FamilyOf(g, a, t, rows), q, la.ruleno[k], f)
  {
    hide Automaton.IsLr0, Grammar.WellFormed, GotoTable.Ok, GotoTable.MoveOf, Lookback, Nullable, IsMove;
    var follow := FamilyOf(g, a, t, rows);
    forall s | exists m :: m in follow && Lookback(g, a, q, la.ruleno[k], m) && s in follow[m]
      ensures s in f
    {
      var m :| m in follow && Lookback(g, a, q, la.ruleno[k], m) && s in follow[m];
      var i := t.MoveNumber(g, a, m);
      assert i in lookback[k];
    }
  }

  lemma LookbackInRange(g: Grammar, a: Automaton, t: GotoTable, la: LaIndex, lookback: seq<seq<int>>, k: int, e: int)
    requires a.Sized() && g.WellFormed() && la.Ok(a) && LookbackOk(g, a, t, la, lookback, |t.from|, [])
    requires 0 <= k < |lookback| && 0 <= e < |lookback[k]|
    requires exists q :: la.InRow(q, k)
    ensures 0 <= lookback[k][e] < |t.from|
  {
    hide Lookback;
    var q :| la.InRow(q, k);
    assert lookback[k][e] in lookback[k];
  }

  /** Every number belongs to the reductions of some state. */
  lemma {:induction false} RowOfNumber(a: Automaton, la: LaIndex, k: int, n: int) returns (q: int)
    requires la.Ok(a) && la.lookaheads[0] == 0 && 0 <= n <= |a.kernels| && 0 <= k < la.lookaheads[n]
    ensures la.InRow(q, k)
    decreases n
  {
    assert n > 0;
    assert la.RowOk(a, n - 1);
    if la.lookaheads[n - 1] <= k {
      q := n - 1;
    } else {
      q := RowOfNumber(a, la, k, n - 1);
    }
  }

  /** The lookahead sets of all reductions, or nothing when there are too many moves to
      number.  Each set is the union of the least follow sets over lookback, when two more than
      the number of moves still fits in a short. */
  method ComputeLalr(g: Grammar, a: Automaton, nullable: seq<bool>)
    returns (la: LaIndex, sets: seq<set<int>>, t: GotoTable, ghost follow: Family, ok: bool)
    requires a.IsLr0(g) && NullableTable(g, nullable)
    ensures la.Ok(a) && (ok ==> t.Ok(g, a) && |sets| == |la.ruleno| && T.Within(sets, Tokens(g)))
    ensures ok && MovesFit(g, a) ==> IsFollow(g, a, follow) && Defined(g, a, follow)
    ensures ok && MovesFit(g, a) ==> forall q, k {:trigger la.InRow(q, k)} :: la.InRow(q, k) && 0 <= k < |sets| ==>
              IsLookahead(g, a, follow, q, la.ruleno[k], sets[k])
    ensures !ok <==> Sum(Counts(g, a), g.nsyms - g.ntokens) > MAXSHORT
  {
    hide Automaton.IsLr0, Grammar.WellFormed, GotoTable.Ok, LaIndex.Ok, Sum, Counts, IsFollow, IsLookahead, LookbackOk,
         Tokens;
    Basics(g, a);
    la := InitializeLA(g, a);
    var gotos := SetGotoMap(g, a);
    if gotos.None? {
      return la, [], GotoTable([], [], []), map[], false;
    }
    t := gotos.value;
    var rows, lookback := ComputeFollows(g, a, nullable, t, la);
    follow := FamilyOf(g, a, t, rows);
    LookbackSize(g, a, t, la, lookback);
    forall k, e | 0 <= k < |lookback| && 0 <= e < |lookback[k]|
      ensures 0 <= lookback[k][e] < |rows|
    {
      var q := RowOfNumber(a, la, k, |a.kernels|);
      LookbackInRange(g, a, t, la, lookback, k, e);
    }
    var collected := ComputeLookaheads(rows, lookback);
    sets := collected[..];
    ok := true;
    SetsWithin(rows, lookback, sets, Tokens(g));
    forall q, k {:trigger la.InRow(q, k)} | la.InRow(q, k) && 0 <= k < |sets|
      ensures IsLookahead(g, a, follow, q, la.ruleno[k], sets[k])
    {
      LookaheadRow(g, a, nullable, t, la, lookback, rows, q, k, sets[k]);
    }
  }

  lemma SetsWithin(rows: seq<set<int>>, lookback: seq<seq<int>>, sets: seq<set<int>>, all: set<int>)
    requires T.Within(rows, all) && |sets| == |lookback|
    requires forall k, s :: 0 <= k < |lookback| ==>
               (s in sets[k] <==> exists i :: i in lookback[k] && 0 <= i < |rows| && s in rows[i])
    ensures T.Within(sets, all)
  {
    forall k | 0 <= k < |sets|
      ensures sets[k] <= all
    {
      forall s | s in sets[k]
        ensures s in all
      {
        var i :| i in lookback[k] && 0 <= i < |rows| && s in rows[i];
      }
    }
  }

  lemma LookbackSize(g: Grammar, a: Automaton, t: GotoTable, la: LaIndex, lookback: seq<seq<int>>)
    requires a.Sized() && g.WellFormed() && la.Ok(a) && LookbackOk(g, a, t, la, lookback, |t.from|, [])
    ensures |lookback| == |la.ruleno| && |la.lookaheads| == |a.kernels| + 1
    ensures la.lookaheads[0] == 0 && la.lookaheads[|a.kernels|] == |lookback|
  {
  }
}
