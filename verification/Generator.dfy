/** The parser generator after the automaton has been built (src/mosmlyac/main.c,
    src/mosmlyac/mkpar.c): lookahead sets, actions, default reductions and tables. */
module Generator {
  import opened Options

  import opened Grammars
  import opened Trees
  import opened Lookahead
  import opened Gotos
  import opened Lr0
  import opened Lalr
  import T = Traversals
  import opened Conflicts
  import opened Output

  // ----- Lookahead sets hold tokens -----

  ghost predicate HoldsTokens(g: Grammar, f: Family) {
    forall m, t :: m in f && t in f[m] ==> g.IsToken(t)
  }

  ghost function AllTokens(g: Grammar, f: Family): Family {
    map m | m in f :: T.Range(g.ntokens)
  }

  /** The family of all tokens satisfies the equations, so the least one is below it. */
  lemma FollowTokens(g: Grammar, a: Automaton, follow: Family)
    requires a.IsLr0(g) && IsFollow(g, a, follow) && Defined(g, a, follow)
    ensures HoldsTokens(g, follow)
  {
    Basics(g, a);
    hide Automaton.IsLr0, Grammar.WellFormed, Nullable, Includes, Reads;
    var f := AllTokens(g, follow);
    assert Satisfies(g, a, f, f);
    assert Below(follow, f);
  }

  lemma SetsTokensOnly(g: Grammar, sets: seq<set<int>>)
    requires T.Within(sets, Tokens(g))
    ensures TokensOnly(g, sets)
  {
  }

  // ----- Rows of actions -----

  /** The state reached on the goal. */
  method FindFinalState(g: Grammar, a: Automaton) returns (q: int)
    requires a.IsLr0(g)
    ensures a.Sized() && a.Trans(0, g.Goal(), q)
  {
    Basics(g, a);
    GoalMove(g, a);
    hide Automaton.IsLr0, Grammar.WellFormed;
    q := 0;
    var i := |a.shifts[0]| - 1;
    while i >= 0
      invariant -1 <= i < |a.shifts[0]|
      invariant forall j :: i < j < |a.shifts[0]| ==> a.accessing[a.shifts[0][j]] != g.Goal()
    {
      q := a.shifts[0][i];
      assert q in a.shifts[0];
      if a.accessing[q] == g.Goal() {
        return;
      }
      i := i - 1;
    }
  }

  lemma GoalMove(g: Grammar, a: Automaton)
    requires a.IsLr0(g)
    ensures exists q :: a.Trans(0, g.Goal(), q)
    ensures forall j :: 0 <= j < |a.shifts[0]| ==> 0 <= a.shifts[0][j] < |a.kernels|
  {
    assert a.StateOk(g, 0);
    ClosureOfKernel(g, a.kernels[0], 1);
    assert a.In(g, 0, 1);
  }

  /** What is known of the actions of a state and of its default reduction. */
  ghost predicate RowDone(g: Grammar, a: Automaton, la: LaIndex, sets: seq<set<int>>, q: int, row: seq<Action>, d: int)
    requires a.Sized()
  {
    && (exists s {:trigger SameActions(s, row)} :: IsRow(g, a, la, sets, q, s) && SameActions(s, row))
    && (exists final :: (final <==> a.Trans(0, g.Goal(), q)) && WellSettled(row, |row|, final))
    && (if d == 0 then forall r :: !IsDefault(row, r) else d > 0 && IsDefault(row, d))
  }

  /** The settled actions and the default reduction of one state. */
  method MakeRow(g: Grammar, a: Automaton, p: Precedences, la: LaIndex, sets: seq<set<int>>, q: int, final: int)
    returns (row: seq<Action>, d: int)
    requires a.IsLr0(g) && a.IsState(q) && p.Fits(g) && la.Ok(a) && |sets| == |la.ruleno| && TokensOnly(g, sets)
    requires a.Trans(0, g.Goal(), final)
    ensures a.Sized() && RowDone(g, a, la, sets, q, row, d) && RowUsable(row, g.ntokens)
    ensures RankedBy(p, row)
  {
    Basics(g, a);
    hide Automaton.IsLr0, Grammar.WellFormed, LaIndex.Ok, WellSettled, IsRow, RowUsable, RankedBy;
    var actions := ParseActions(g, a, p, la, sets, q);
    RowStart(g, a, la, sets, q, actions);
    var x := new Action[|actions|](i requires 0 <= i < |actions| => actions[i]);
    assert x[..] == actions;
    RemoveConflicts(x, q == final);
    row := x[..];
    SameRanks(p, actions, row);
    RowEnd(g, a, la, sets, q, actions, row, q == final);
    d := SoleReduction(row);
    if q == final {
    } else if a.Trans(0, g.Goal(), q) {
      TransUnique(g, a, 0, g.Goal(), q, final);
    }
    assert (q == final) <==> a.Trans(0, g.Goal(), q);
  }

  lemma RowStart(g: Grammar, a: Automaton, la: LaIndex, sets: seq<set<int>>, q: int, s: seq<Action>)
    requires a.Sized() && IsRow(g, a, la, sets, q, s)
    ensures Ordered(s) && forall i :: 0 <= i < |s| ==> Live(s[i])
  {
  }

  lemma RowEnd(g: Grammar, a: Automaton, la: LaIndex, sets: seq<set<int>>, q: int, s: seq<Action>, row: seq<Action>,
               final: bool)
    requires a.IsLr0(g) && a.IsState(q) && la.Ok(a)
    requires IsRow(g, a, la, sets, q, s) && SameActions(s, row) && WellSettled(row, |row|, final)
    ensures RowUsable(row, g.ntokens)
  {
    RowInRange(g, a, la, q);
    assert a.StateOk(g, q);
    hide Automaton.IsLr0, Grammar.WellFormed, LaIndex.Ok, Ordered;
    forall x | x in row
      ensures 0 <= x.symbol < g.ntokens && x.number > 0
    {
      var i :| 0 <= i < |row| && row[i] == x;
      assert s[i] in s;
      if !x.isShift {
        var k :| la.InRow(q, k) && 0 <= k < |sets| && la.ruleno[k] == s[i].number;
      }
    }
  }

  ghost predicate AllDone(g: Grammar, a: Automaton, la: LaIndex, sets: seq<set<int>>, rows: seq<seq<Action>>,
                          defs: seq<int>)
    requires a.Sized()
  {
    |rows| == |defs| == |a.kernels| &&
    forall q {:trigger RowDone(g, a, la, sets, q, rows[q], defs[q])} ::
      a.IsState(q) ==> RowDone(g, a, la, sets, q, rows[q], defs[q])
  }

  /** The actions of all states have the given precedences. */
  ghost predicate UsesPrecedences(p: Precedences, rows: seq<seq<Action>>) {
    forall q :: 0 <= q < |rows| ==> RankedBy(p, rows[q])
  }

  ghost predicate RowsDone(g: Grammar, a: Automaton, p: Precedences, la: LaIndex, sets: seq<set<int>>,
                           rows: seq<seq<Action>>, defs: seq<int>)
    requires a.Sized()
  {
    && |rows| == |defs| <= |a.kernels|
    && (forall q :: 0 <= q < |rows| ==> RowDone(g, a, la, sets, q, rows[q], defs[q]))
    && (forall q :: 0 <= q < |rows| ==> RowUsable(rows[q], g.ntokens))
    && UsesPrecedences(p, rows)
  }

  lemma RowsExtended(g: Grammar, a: Automaton, p: Precedences, la: LaIndex, sets: seq<set<int>>,
                     rows: seq<seq<Action>>, defs: seq<int>, row: seq<Action>, d: int)
    requires a.Sized() && RowsDone(g, a, p, la, sets, rows, defs) && |rows| < |a.kernels|
    requires RowDone(g, a, la, sets, |rows|, row, d) && RowUsable(row, g.ntokens) && RankedBy(p, row)
    ensures RowsDone(g, a, p, la, sets, rows + [row], defs + [d])
  {
    hide RowDone, RowUsable, RankedBy;
  }

  method MakeParser(g: Grammar, a: Automaton, p: Precedences, la: LaIndex, sets: seq<set<int>>)
    returns (rows: seq<seq<Action>>, defs: seq<int>)
    requires a.IsLr0(g) && p.Fits(g) && la.Ok(a) && |sets| == |la.ruleno| && TokensOnly(g, sets)
    ensures a.Sized() && AllDone(g, a, la, sets, rows, defs)
    ensures UsesPrecedences(p, rows) && forall q :: 0 <= q < |rows| ==> RowUsable(rows[q], g.ntokens)
  {
    Basics(g, a);
    hide Automaton.IsLr0, Grammar.WellFormed, LaIndex.Ok, RowDone, RowUsable, RankedBy, Automaton.Trans, TokensOnly;
    var final := FindFinalState(g, a);
    rows, defs := [], [];
    var i := 0;
    while i < |a.kernels|
      invariant 0 <= i <= |a.kernels| && |rows| == |defs| == i
      invariant RowsDone(g, a, p, la, sets, rows, defs)
    {
      var row, d := MakeRow(g, a, p, la, sets, i, final);
      RowsExtended(g, a, p, la, sets, rows, defs, row, d);
      rows, defs := rows + [row], defs + [d];
      i := i + 1;
    }
  }

  // ----- The generated parser -----

  /** A generated parser with all that it was made from. */
  datatype Parser = Parser(g: Grammar, a: Automaton, la: LaIndex, sets: seq<set<int>>, follow: Family,
                           rows: seq<seq<Action>>, defs: seq<int>, codes: seq<int>, pt: ParserTables) {
    ghost predicate LookaheadsOk()
      requires a.Sized() && g.WellFormed()
    {
      && la.Ok(a) && IsFollow(g, a, follow) && Defined(g, a, follow) && |sets| == |la.ruleno|
      && forall q, k {:trigger la.InRow(q, k)} :: la.InRow(q, k) && 0 <= k < |sets| ==>
           IsLookahead(g, a, follow, q, la.ruleno[k], sets[k])
    }

    ghost predicate Ok() {
      && a.IsLr0(g) && LookaheadsOk() && CodesOk(g, codes)
      && AllDone(g, a, la, sets, rows, defs) && Refines(g, a, rows, defs, codes, pt)
    }

    /** Everything is there but the tables, for which there may be no room. */
    ghost predicate TooLarge() {
      && a.IsLr0(g) && LookaheadsOk() && CodesOk(g, codes) && AllDone(g, a, la, sets, rows, defs)
      && TableCrowded(g, a, codes, rows, defs)
    }
  }

  /** The moves on variables cannot be numbered by shorts. */
  ghost predicate TooManyMoves(g: Grammar, a: Automaton)
    requires a.IsLr0(g)
  {
    g.ntokens <= g.nsyms && Sum(Counts(g, a), g.nsyms - g.ntokens) > MAXSHORT
  }

  /** Generates a parser from the automaton, or gives up when there are too many moves
      to number or when the packed table grows too large.  With 32766 or 32767 moves the
      lookahead sets may be too small, and nothing is promised. */
  method Generate(g: Grammar, a: Automaton, p: Precedences,
                  codes: seq<int>) returns (r: Option<ParserTables>, ghost parser: Parser)
    requires a.IsLr0(g) && p.Fits(g) && CodesOk(g, codes)
    ensures parser.g == g && parser.a == a && parser.codes == codes
    ensures MovesFit(g, a) && r.Some? ==>
              parser.Ok() && parser.pt == r.value && UsesPrecedences(p, parser.rows)
    ensures MovesFit(g, a) && r.None? ==> parser.TooLarge() && UsesPrecedences(p, parser.rows)
    ensures TooManyMoves(g, a) ==> r.None?
  {
    hide TableCrowded, Sum, Counts, Automaton.IsLr0, Grammar.WellFormed, LaIndex.Ok, GotoTable.Ok, IsFollow,
         IsLookahead, AllDone, Refines, RowUsable, CodesOk, UsesPrecedences;
    Basics(g, a);
    var nullable := SetNullable(g);
    ghost var none: ParserTables := *;
    var la, sets, t, follow, ok := ComputeLalr(g, a, nullable[..]);
    r := None;
    parser := Parser(g, a, la, sets, follow, [], [], codes, none);
    if !ok {
      return;
    }
    SetsTokensOnly(g, sets);
    var rows, defs := MakeParser(g, a, p, la, sets);
    AllDoneSize(g, a, la, sets, rows, defs);
    var pt;
    pt, ok := MakeTables(g, a, t, codes, rows, defs);
    parser := Parser(g, a, la, sets, follow, rows, defs, codes, pt);
    if ok {
      r := Some(pt);
    }
  }

  lemma AllDoneSize(g: Grammar, a: Automaton, la: LaIndex, sets: seq<set<int>>, rows: seq<seq<Action>>, defs: seq<int>)
    requires a.Sized() && AllDone(g, a, la, sets, rows, defs)
    ensures |rows| == |defs| == |a.kernels|
  {
  }

  /** The tables are those of a correct parser for the grammar, in which conflicts are settled by
      the given precedences. */
  ghost predicate Generated(g: Grammar, p: Precedences, codes: seq<int>, pt: ParserTables) {
    exists parser: Parser ::
      parser.Ok() && parser.g == g && parser.codes == codes && parser.pt == pt && UsesPrecedences(p, parser.rows)
  }

  /** There are too many states, or 32766 moves or more, or the tables are crowded. */
  ghost predicate TooBig(g: Grammar, p: Precedences, codes: seq<int>)
    requires g.WellFormed()
  {
    || TooManyStates(g)
    || ManyMoves(g)
    || exists parser: Parser ::
         parser.TooLarge() && parser.g == g && parser.codes == codes && UsesPrecedences(p, parser.rows)
  }

  /** Two more than the number of moves does not fit in a short. */
  ghost predicate ManyMoves(g: Grammar) {
    exists a: Automaton {:trigger a.IsLr0(g)} :: a.IsLr0(g) && !MovesFit(g, a)
  }

  /** The whole generator, from the packed grammar to the tables.  It gives up only when
      there are too many states or moves to number or the packed table grows too large. */
  method MakeParserTables(g: Grammar, p: Precedences, codes: seq<int>) returns (r: Option<ParserTables>)
    requires g.WellFormed() && p.Fits(g) && CodesOk(g, codes)
    ensures r.Some? ==> Generated(g, p, codes, r.value) || ManyMoves(g)
    ensures r.None? ==> TooBig(g, p, codes)
  {
    hide Grammar.WellFormed, Automaton.IsLr0, Parser.Ok, Parser.TooLarge, CodesOk, TooManyStates, TooManyMoves,
      MovesFit,
         UsesPrecedences;
    var a := GenerateStates(g);
    if a.None? {
      return None;
    }
    ghost var parser;
    r, parser := Generate(g, a.value, p, codes);
    assert a.value.IsLr0(g);
  }
}
