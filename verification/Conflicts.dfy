/** The parser actions of a state and how conflicts among them are settled
    (src/mosmlyac/mkpar.c). */
module Conflicts {
  import opened Grammars
  import opened Lalr

  const LEFT := 1
  const RIGHT := 2

  /** Precedences and associativities of tokens and rules. */
  datatype Precedences = Precedences(tokenPrec: seq<int>, tokenAssoc: seq<int>, rulePrec: seq<int>,
                                     ruleAssoc: seq<int>) {
    ghost predicate Fits(g: Grammar) {
      |tokenPrec| == |tokenAssoc| == g.nsyms && |rulePrec| == |ruleAssoc| == |g.rlhs|
    }
  }

  datatype Action = Action(symbol: int, number: int, prec: int, isShift: bool, assoc: int, suppressed: int)

  ghost predicate Live(x: Action) {
    x.suppressed == 0
  }

  /** Actions are ordered by symbol, shifts first, then by rule. */
  ghost predicate Precedes(x: Action, y: Action) {
    x.symbol < y.symbol ||
    (x.symbol == y.symbol && ((x.isShift && !y.isShift) || (!x.isShift && !y.isShift && x.number < y.number)))
  }

  ghost predicate Ordered(s: seq<Action>) {
    forall i, j :: 0 <= i < j < |s| ==> Precedes(s[i], s[j])
  }

  /** The shift actions of a state: its moves on tokens. */
  method GetShifts(g: Grammar, a: Automaton, p: Precedences, q: int) returns (actions: seq<Action>)
    requires a.IsLr0(g) && a.IsState(q) && p.Fits(g)
    ensures Ordered(actions) && RankedBy(p, actions)
    ensures forall x :: x in actions ==> x.isShift && Live(x) && g.IsToken(x.symbol) && a.Trans(q, x.symbol, x.number)
    ensures forall t, q' {:trigger a.Trans(q, t, q')} ::
              a.Trans(q, t, q') && t < g.ntokens ==> HasShiftAction(actions, t, q')
  {
    Basics(g, a);
    assert a.StateOk(g, q);
    hide Automaton.IsLr0, Grammar.WellFormed;
    actions := [];
    var i := |a.shifts[q]| - 1;
    while i >= 0
      invariant -1 <= i < |a.shifts[q]| && Ordered(actions) && RankedBy(p, actions)
      invariant forall x ::
                  x in actions ==> x.isShift && Live(x) && g.IsToken(x.symbol) && a.Trans(q, x.symbol, x.number)
      invariant forall x :: x in actions && i >= 0 ==> a.accessing[a.shifts[q][i]] < x.symbol
      invariant forall j :: i < j < |a.shifts[q]| && a.accessing[a.shifts[q][j]] < g.ntokens ==>
                  HasShiftAction(actions, a.accessing[a.shifts[q][j]], a.shifts[q][j])
    {
      var k := a.shifts[q][i];
      var symbol := a.accessing[k];
      ghost var before := actions;
      if symbol < g.ntokens {
        assert a.Trans(q, symbol, k);
        actions := [Action(symbol, k, p.tokenPrec[symbol], true, p.tokenAssoc[symbol], 0)] + actions;
        assert actions[0] in actions;
      }
      assert forall x :: x in before ==> x in actions;
      i := i - 1;
    }
    forall t, q' {:trigger a.Trans(q, t, q')} | a.Trans(q, t, q') && t < g.ntokens
      ensures HasShiftAction(actions, t, q')
    {
      var j :| 0 <= j < |a.shifts[q]| && a.shifts[q][j] == q';
    }
  }

  /** A shift has the precedence and the associativity of its token, a reduction those of its
      rule. */
  ghost predicate RankedBy(p: Precedences, s: seq<Action>) {
    forall x :: x in s ==> RankOk(p, x)
  }

  ghost predicate RankOk(p: Precedences, x: Action) {
    if x.isShift then
      && 0 <= x.symbol < |p.tokenPrec| == |p.tokenAssoc|
      && x.prec == p.tokenPrec[x.symbol] && x.assoc == p.tokenAssoc[x.symbol]
    else
      && 0 <= x.number < |p.rulePrec| == |p.ruleAssoc|
      && x.prec == p.rulePrec[x.number] && x.assoc == p.ruleAssoc[x.number]
  }

  ghost predicate HasShiftAction(s: seq<Action>, t: int, q: int) {
    exists x :: x in s && x.isShift && x.symbol == t && x.number == q
  }

  ghost predicate HasReduceAction(s: seq<Action>, t: int, r: int) {
    exists x :: x in s && !x.isShift && x.symbol == t && x.number == r
  }

  lemma InsertOrdered(s: seq<Action>, x: Action, i: int)
    requires Ordered(s) && 0 <= i <= |s|
    requires forall k :: 0 <= k < i ==> Precedes(s[k], x)
    requires i < |s| ==> Precedes(x, s[i])
    ensures Ordered(s[..i] + [x] + s[i..])
  {
    forall k | i < k < |s|
      ensures Precedes(x, s[k])
    {
      assert Precedes(s[i], s[k]);
    }
  }

  /** Enters a reduction at its place in the order. */
  method AddReduce(actions: seq<Action>, p: Precedences, ruleno: int,
                   symbol: int) returns (r: seq<Action>, ghost i: int)
    requires Ordered(actions) && !HasReduceAction(actions, symbol, ruleno)
    requires 0 <= ruleno < |p.rulePrec| == |p.ruleAssoc|
    ensures Ordered(r) && 0 <= i <= |actions|
    ensures var x := Action(symbol, ruleno, p.rulePrec[ruleno], false, p.ruleAssoc[ruleno], 0);
            r == actions[..i] + [x] + actions[i..]
  {
    var next := 0;
    var temp := Action(symbol, ruleno, p.rulePrec[ruleno], false, p.ruleAssoc[ruleno], 0);
    while next < |actions| && actions[next].symbol < symbol
      invariant 0 <= next <= |actions|
      invariant forall k :: 0 <= k < next ==> Precedes(actions[k], temp)
    {
      next := next + 1;
    }
    while next < |actions| && actions[next].symbol == symbol && actions[next].isShift
      invariant 0 <= next <= |actions| && (next < |actions| ==> actions[next].symbol >= symbol)
      invariant forall k :: 0 <= k < next ==> Precedes(actions[k], temp)
    {
      next := next + 1;
    }
    while next < |actions| && actions[next].symbol == symbol && !actions[next].isShift && actions[next].number < ruleno
      invariant 0 <= next <= |actions| && (next < |actions| ==> actions[next].symbol >= symbol)
      invariant next < |actions| && actions[next].symbol == symbol ==> !actions[next].isShift
      invariant forall k :: 0 <= k < next ==> Precedes(actions[k], temp)
    {
      next := next + 1;
    }
    assert next < |actions| ==> actions[next] in actions;
    InsertOrdered(actions, temp, next);
    i := next;
    r := actions[..next] + [temp] + actions[next..];
  }

  /** Reduction number `k'` on token `t` has been entered when row number `k` is being
      worked on and its tokens above `j` are done. */
  ghost predicate EnteredBefore(la: LaIndex, sets: seq<set<int>>, q: int, k: int, j: int, k': int, t: int) {
    la.InRow(q, k') && 0 <= k' < |sets| == |la.ruleno| && t in sets[k'] && (k' < k || (k' == k && t > j))
  }

  ghost predicate ReducesEntered(la: LaIndex, sets: seq<set<int>>, q: int, k: int, j: int, s: seq<Action>) {
    && (forall x :: x in s && !x.isShift ==>
          exists k' :: EnteredBefore(la, sets, q, k, j, k', x.symbol) && la.ruleno[k'] == x.number)
    && (forall k', t {:trigger EnteredBefore(la, sets, q, k, j, k', t)} ::
          EnteredBefore(la, sets, q, k, j, k', t) && 0 <= t ==> HasReduceAction(s, t, la.ruleno[k']))
  }

  /** What stays the same about the shifts while reductions are entered. */
  ghost predicate ShiftsKept(shifts: seq<Action>, s: seq<Action>) {
    && (forall x :: x in shifts ==> x in s)
    && (forall x :: x in s && x.isShift ==> x in shifts)
    && (forall x :: x in s && !x.isShift ==> Live(x) && x.symbol >= 0)
  }

  lemma EnterStep(la: LaIndex, sets: seq<set<int>>, q: int, k: int, j: int, s: seq<Action>, x: Action, i: int)
    requires la.InRow(q, k) && 0 <= k < |sets| == |la.ruleno| && 0 <= i <= |s|
    requires ReducesEntered(la, sets, q, k, j, s) && j in sets[k]
    requires !x.isShift && x.symbol == j && x.number == la.ruleno[k]
    ensures ReducesEntered(la, sets, q, k, j - 1, s[..i] + [x] + s[i..])
  {
    var s' := s[..i] + [x] + s[i..];
    forall y | y in s' && !y.isShift
      ensures exists k' :: EnteredBefore(la, sets, q, k, j - 1, k', y.symbol) && la.ruleno[k'] == y.number
    {
      if y in s {
        var k' :| EnteredBefore(la, sets, q, k, j, k', y.symbol) && la.ruleno[k'] == y.number;
        assert EnteredBefore(la, sets, q, k, j - 1, k', y.symbol);
      } else {
        assert EnteredBefore(la, sets, q, k, j - 1, k, y.symbol);
      }
    }
    forall k', t {:trigger EnteredBefore(la, sets, q, k, j - 1, k', t)} | EnteredBefore(la, sets, q, k, j - 1, k', t) &&
      0 <= t
      ensures HasReduceAction(s', t, la.ruleno[k'])
    {
      if EnteredBefore(la, sets, q, k, j, k', t) {
        var y :| y in s && !y.isShift && y.symbol == t && y.number == la.ruleno[k'];
        assert y in s';
      } else {
        assert x in s';
      }
    }
  }

  /** Changing only how the progress is counted changes nothing. */
  lemma SameProgress(la: LaIndex, sets: seq<set<int>>, q: int, k: int, j: int, l: int, m: int, s: seq<Action>)
    requires ReducesEntered(la, sets, q, k, j, s)
    requires forall k', t :: EnteredBefore(la, sets, q, l, m, k', t) == EnteredBefore(la, sets, q, k, j, k', t)
    ensures ReducesEntered(la, sets, q, l, m, s)
  {
    forall x | x in s && !x.isShift
      ensures exists k' :: EnteredBefore(la, sets, q, l, m, k', x.symbol) && la.ruleno[k'] == x.number
    {
      var k' :| EnteredBefore(la, sets, q, k, j, k', x.symbol) && la.ruleno[k'] == x.number;
      assert EnteredBefore(la, sets, q, l, m, k', x.symbol);
    }
  }

  ghost predicate TokensOnly(g: Grammar, sets: seq<set<int>>) {
    forall k, t :: 0 <= k < |sets| && t in sets[k] ==> g.IsToken(t)
  }

  lemma RowInRange(g: Grammar, a: Automaton, la: LaIndex, q: int)
    requires a.IsLr0(g) && a.IsState(q) && la.Ok(a)
    ensures 0 <= q && q + 1 < |la.lookaheads| && 0 <= la.lookaheads[q] <= la.lookaheads[q + 1] <= |la.ruleno|
    ensures forall i :: la.lookaheads[q] <= i < la.lookaheads[q + 1] ==> 3 <= la.ruleno[i] < |g.rlhs|
    ensures forall i, j :: la.lookaheads[q] <= i < j < la.lookaheads[q + 1] ==> la.ruleno[i] != la.ruleno[j]
  {
    assert la.RowOk(a, q) && a.StateOk(g, q);
    AugmentedRuleNotReduced(g, a, q);
    forall i | la.lookaheads[q] <= i < la.lookaheads[q + 1]
      ensures la.ruleno[i] == a.reductions[q][i - la.lookaheads[q]] && 3 <= la.ruleno[i] < |g.rlhs|
    {
      assert la.ruleno[la.lookaheads[q] + (i - la.lookaheads[q])] == a.reductions[q][i - la.lookaheads[q]];
      assert a.reductions[q][i - la.lookaheads[q]] in a.reductions[q];
    }
  }

  lemma StartEntering(g: Grammar, la: LaIndex, sets: seq<set<int>>, q: int, shifts: seq<Action>)
    requires 0 <= q && q + 1 < |la.lookaheads| && TokensOnly(g, sets)
    requires forall x :: x in shifts ==> x.isShift
    ensures ReducesEntered(la, sets, q, la.lookaheads[q], g.ntokens - 1, shifts) && ShiftsKept(shifts, shifts)
  {
    forall k', t {:trigger EnteredBefore(la, sets, q, la.lookaheads[q], g.ntokens - 1, k', t)}
      ensures !EnteredBefore(la, sets, q, la.lookaheads[q], g.ntokens - 1, k', t)
    {
      if 0 <= k' < |sets| && t in sets[k'] {
        assert g.IsToken(t);
      }
    }
  }

  lemma NotEnteredYet(la: LaIndex, sets: seq<set<int>>, q: int, i: int, j: int, s: seq<Action>)
    requires ReducesEntered(la, sets, q, i, j, s) && la.InRow(q, i) && la.lookaheads[q + 1] <= |la.ruleno|
    requires 0 <= la.lookaheads[q]
    requires forall k, l :: la.lookaheads[q] <= k < l < la.lookaheads[q + 1] ==> la.ruleno[k] != la.ruleno[l]
    ensures !HasReduceAction(s, j, la.ruleno[i])
  {
  }

  lemma InsertKeepsShifts(shifts: seq<Action>, s: seq<Action>, x: Action, i: int)
    requires ShiftsKept(shifts, s) && 0 <= i <= |s| && !x.isShift && Live(x) && x.symbol >= 0
    ensures ShiftsKept(shifts, s[..i] + [x] + s[i..])
  {
    var s' := s[..i] + [x] + s[i..];
    assert forall y :: y in s' <==> y in s || y == x by {
      assert s == s[..i] + s[i..];
    }
  }

  lemma InsertRanked(p: Precedences, s: seq<Action>, x: Action, i: int)
    requires RankedBy(p, s) && 0 <= i <= |s| && RankOk(p, x)
    ensures RankedBy(p, s[..i] + [x] + s[i..])
  {
    hide RankOk;
  }

  lemma SkipToken(la: LaIndex, sets: seq<set<int>>, q: int, k: int, j: int, s: seq<Action>)
    requires ReducesEntered(la, sets, q, k, j, s) && 0 <= k < |sets| && j !in sets[k]
    ensures ReducesEntered(la, sets, q, k, j - 1, s)
  {
    SameProgress(la, sets, q, k, j, k, j - 1, s);
  }

  lemma NextReduction(g: Grammar, la: LaIndex, sets: seq<set<int>>, q: int, k: int, s: seq<Action>)
    requires ReducesEntered(la, sets, q, k, -1, s) && TokensOnly(g, sets)
    ensures ReducesEntered(la, sets, q, k + 1, g.ntokens - 1, s)
  {
    forall k', t
      ensures EnteredBefore(la, sets, q, k + 1, g.ntokens - 1, k', t) == EnteredBefore(la, sets, q, k, -1, k', t)
    {
      if 0 <= k' < |sets| && t in sets[k'] {
        assert g.IsToken(t);
      }
    }
    SameProgress(la, sets, q, k, -1, k + 1, g.ntokens - 1, s);
  }

  lemma LastReduction(g: Grammar, la: LaIndex, sets: seq<set<int>>, q: int, s: seq<Action>)
    requires 0 <= q && q + 1 < |la.lookaheads| && la.lookaheads[q + 1] <= |sets| && TokensOnly(g, sets)
    requires ReducesEntered(la, sets, q, la.lookaheads[q + 1], g.ntokens - 1, s)
    ensures ReducesEntered(la, sets, q, |sets|, -1, s)
  {
    SameProgress(la, sets, q, la.lookaheads[q + 1], g.ntokens - 1, |sets|, -1, s);
  }

  /** Adds the reductions of state `q` on the tokens of their lookahead sets. */
  method AddReductions(g: Grammar, a: Automaton, p: Precedences, la: LaIndex, sets: seq<set<int>>, q: int,
                       shifts: seq<Action>) returns (actions: seq<Action>)
    requires a.IsLr0(g) && a.IsState(q) && p.Fits(g) && la.Ok(a) && |sets| == |la.ruleno| && TokensOnly(g, sets)
    requires Ordered(shifts) && RankedBy(p, shifts) && forall x :: x in shifts ==> x.isShift
    ensures Ordered(actions) && ShiftsKept(shifts, actions) && RankedBy(p, actions)
    ensures ReducesEntered(la, sets, q, |sets|, -1, actions)
  {
    RowInRange(g, a, la, q);
    hide Automaton.IsLr0, LaIndex.Ok, Grammar.WellFormed, ReducesEntered, EnteredBefore, ShiftsKept, Ordered,
         TokensOnly, RankedBy;
    var i := la.lookaheads[q];
    actions := shifts;
    StartEntering(g, la, sets, q, shifts);
    while i < la.lookaheads[q + 1]
      invariant la.lookaheads[q] <= i <= la.lookaheads[q + 1]
      invariant Ordered(actions) && ShiftsKept(shifts, actions) && RankedBy(p, actions)
      invariant ReducesEntered(la, sets, q, i, g.ntokens - 1, actions)
    {
      var ruleno := la.ruleno[i];
      assert la.InRow(q, i);
      var j := g.ntokens - 1;
      while j >= 0
        invariant -1 <= j < g.ntokens
        invariant Ordered(actions) && ShiftsKept(shifts, actions) && RankedBy(p, actions)
        invariant ReducesEntered(la, sets, q, i, j, actions)
      {
        if j in sets[i] {
          NotEnteredYet(la, sets, q, i, j, actions);
          ghost var before := actions;
          ghost var at;
          actions, at := AddReduce(actions, p, ruleno, j);
          EnterStep(la, sets, q, i, j, before, actions[at], at);
          InsertKeepsShifts(shifts, before, actions[at], at);
          InsertRanked(p, before, actions[at], at);
        } else {
          SkipToken(la, sets, q, i, j, actions);
        }
        j := j - 1;
      }
      NextReduction(g, la, sets, q, i, actions);
      i := i + 1;
    }
    LastReduction(g, la, sets, q, actions);
  }

  /** The rule's lookahead set in the state holds the token. */
  ghost predicate InLookahead(la: LaIndex, sets: seq<set<int>>, q: int, r: int, t: int) {
    exists k {:trigger la.InRow(q, k)} ::
      la.InRow(q, k) && 0 <= k < |sets| == |la.ruleno| && la.ruleno[k] == r && t in sets[k]
  }

  /** The actions of a state before conflicts are settled: its shifts, and each of its
      reductions on each token of its lookahead set. */
  ghost predicate IsRow(g: Grammar, a: Automaton, la: LaIndex, sets: seq<set<int>>, q: int, s: seq<Action>)
    requires a.Sized()
  {
    && Ordered(s)
    && (forall x :: x in s ==> Live(x) && g.IsToken(x.symbol))
    && (forall x :: x in s && x.isShift ==> a.Trans(q, x.symbol, x.number))
    && (forall x :: x in s && !x.isShift ==> InLookahead(la, sets, q, x.number, x.symbol))
    && (forall t, q' {:trigger a.Trans(q, t, q')} :: a.Trans(q, t, q') && t < g.ntokens ==> HasShiftAction(s, t, q'))
    && (forall r, t {:trigger InLookahead(la, sets, q, r, t)} ::
          InLookahead(la, sets, q, r, t) && g.IsToken(t) ==> HasReduceAction(s, t, r))
  }

  /** All parser actions of a state. */
  method ParseActions(g: Grammar, a: Automaton, p: Precedences, la: LaIndex, sets: seq<set<int>>, q: int)
    returns (actions: seq<Action>)
    requires a.IsLr0(g) && a.IsState(q) && p.Fits(g) && la.Ok(a) && |sets| == |la.ruleno| && TokensOnly(g, sets)
    ensures a.Sized() && IsRow(g, a, la, sets, q, actions) && RankedBy(p, actions)
  {
    hide Automaton.IsLr0, LaIndex.Ok, Grammar.WellFormed, Ordered;
    Basics(g, a);
    var shifts := GetShifts(g, a, p, q);
    actions := AddReductions(g, a, p, la, sets, q, shifts);
    forall x | x in actions && !x.isShift
      ensures InLookahead(la, sets, q, x.number, x.symbol) && g.IsToken(x.symbol)
    {
      var k :| EnteredBefore(la, sets, q, |sets|, -1, k, x.symbol) && la.ruleno[k] == x.number;
    }
    forall t, q' {:trigger a.Trans(q, t, q')} | a.Trans(q, t, q') && t < g.ntokens
      ensures HasShiftAction(actions, t, q')
    {
      assert HasShiftAction(shifts, t, q');
    }
    forall r, t {:trigger InLookahead(la, sets, q, r, t)} | InLookahead(la, sets, q, r, t) && g.IsToken(t)
      ensures HasReduceAction(actions, t, r)
    {
      var k :| la.InRow(q, k) && 0 <= k < |sets| && la.ruleno[k] == r && t in sets[k];
      assert EnteredBefore(la, sets, q, |sets|, -1, k, t);
    }
  }

  // ----- Settling conflicts -----

  /** The same actions, except that some have been suppressed. */
  ghost predicate SameActions(s: seq<Action>, s': seq<Action>) {
    |s| == |s'| && forall i :: 0 <= i < |s| ==> s'[i] == s[i].(suppressed := s'[i].suppressed)
  }

  lemma SameRanks(p: Precedences, s: seq<Action>, s': seq<Action>)
    requires RankedBy(p, s) && SameActions(s, s')
    ensures RankedBy(p, s')
  {
    forall x | x in s'
      ensures RankOk(p, x)
    {
      var i :| 0 <= i < |s| && s'[i] == x;
      assert RankOk(p, s[i]);
    }
  }

  /** No symbol has two live actions among the first `n`. */
  ghost predicate Settled(s: seq<Action>, n: int)
    requires n <= |s|
  {
    forall i, j :: 0 <= i < j < n && s[i].symbol == s[j].symbol ==> !(Live(s[i]) && Live(s[j]))
  }

  /** Which of two actions on a symbol is preferred, `x` so far and the later `y`. The higher
      precedence wins; on a tie with a shift its associativity decides (left: the reduction, right:
      the shift, neither: nobody); on any other tie, or without precedences, the earlier one wins. */
  datatype Verdict = Stay | Change | Neither

  ghost function Compare(x: Action, y: Action): Verdict {
    if x.prec <= 0 || y.prec <= 0 || x.prec > y.prec then Stay
    else if x.prec < y.prec then Change
    else if !x.isShift || x.assoc == RIGHT then Stay
    else if x.assoc == LEFT then Change
    else Neither
  }

  /** The action preferred among those from `lo` up to `n`, and whether it is live; all but the
      first are set aside on the end marker in the final state. */
  ghost function Chosen(s: seq<Action>, lo: int, n: int, aside: bool): (c: (int, bool))
    requires 0 <= lo < n <= |s|
    ensures lo <= c.0 < n
    decreases n - lo
  {
    if n == lo + 1 then (lo, true)
    else
      var c := Chosen(s, lo, n - 1, aside);
      if aside then c
      else
        match Compare(s[c.0], s[n - 1])
        case Stay => c
        case Change => (n - 1, true)
        case Neither => (c.0, false)
  }

  /** It does not depend on what has been suppressed. */
  lemma {:induction false} ChosenSame(s: seq<Action>, s': seq<Action>, lo: int, n: int, aside: bool)
    requires 0 <= lo < n <= |s| && SameActions(s, s')
    ensures Chosen(s', lo, n, aside) == Chosen(s, lo, n, aside)
    decreases n - lo
  {
    if n > lo + 1 {
      ChosenSame(s, s', lo, n - 1, aside);
      var c := Chosen(s, lo, n - 1, aside);
      assert s'[c.0] == s[c.0].(suppressed := s'[c.0].suppressed);
      assert s'[n - 1] == s[n - 1].(suppressed := s'[n - 1].suppressed);
    }
  }

  /** What is known of the actions from `lo` up to `n`, all on one symbol: none but the chosen one,
      `pref`, is live. */
  ghost predicate GroupOk(s: seq<Action>, lo: int, pref: int, n: int, aside: bool) {
    && 0 <= lo <= pref < n <= |s|
    && (forall i :: lo <= i < n ==> s[i].symbol == s[lo].symbol && (Live(s[i]) ==> i == pref))
    && Chosen(s, lo, n, aside) == (pref, Live(s[pref]))
  }

  /** One conflict settled: of `pref` and `p` at most the new preference is live. */
  ghost predicate PairSettled(s: seq<Action>, s': seq<Action>, pref: int, p: int, pref': int)
    requires 0 <= pref < p < |s|
  {
    && SameActions(s, s') && (forall i :: 0 <= i < |s| && i != pref && i != p ==> s'[i] == s[i])
    && match Compare(s[pref], s[p])
       case Stay => pref' == pref && s'[pref] == s[pref] && !Live(s'[p])
       case Change => pref' == p && s'[p] == s[p] && !Live(s'[pref])
       case Neither => pref' == pref && !Live(s'[pref]) && !Live(s'[p])
  }

  /** How a conflict between the preferred action and the next one is settled. */
  method SettlePair(x: array<Action>, pref: int, p: int) returns (pref': int)
    requires 0 <= pref < p < x.Length
    modifies x
    ensures PairSettled(old(x[..]), x[..], pref, p, pref')
  {
    pref' := pref;
    if x[pref].isShift {
      if x[pref].prec > 0 && x[p].prec > 0 {
        if x[pref].prec < x[p].prec {
          x[pref] := x[pref].(suppressed := 2);
          pref' := p;
        } else if x[pref].prec > x[p].prec {
          x[p] := x[p].(suppressed := 2);
        } else if x[pref].assoc == LEFT {
          x[pref] := x[pref].(suppressed := 2);
          pref' := p;
        } else if x[pref].assoc == RIGHT {
          x[p] := x[p].(suppressed := 2);
        } else {
          x[pref] := x[pref].(suppressed := 2);
          x[p] := x[p].(suppressed := 2);
        }
      } else {
        x[p] := x[p].(suppressed := 1);
      }
    } else if x[pref].prec > 0 && x[p].prec > 0 {
      if x[pref].prec < x[p].prec {
        x[pref] := x[pref].(suppressed := 2);
        pref' := p;
      } else if x[pref].prec > x[p].prec {
        x[p] := x[p].(suppressed := 2);
      } else {
        x[p] := x[p].(suppressed := 1);
      }
    } else {
      x[p] := x[p].(suppressed := 1);
    }
  }

  /** All the actions on one symbol. */
  ghost predicate IsGroup(s: seq<Action>, lo: int, n: int) {
    && 0 <= lo < n <= |s|
    && (forall i :: lo <= i < n ==> s[i].symbol == s[lo].symbol)
    && (forall i :: 0 <= i < lo || n <= i < |s| ==> s[i].symbol != s[lo].symbol)
  }

  /** Which of the actions from `lo` up to `n`, all on one symbol, is the one to take. Where the first
      has no precedence, it is. Else it is the first of those with the highest precedence; but if the
      shift, which comes first, ties with reductions, its associativity decides: left for the first of
      them, right for the shift, and neither for none. */
  ghost predicate Wins(s: seq<Action>, lo: int, n: int, k: int)
    requires 0 <= lo <= k < n <= |s|
  {
    if s[lo].prec <= 0 then k == lo
    else
      && (forall i :: lo <= i < n ==> s[i].prec <= s[k].prec)
      && if k == lo then !s[lo].isShift || s[lo].assoc == RIGHT || forall i :: lo < i < n ==> s[i].prec < s[lo].prec
         else
           && (forall i :: lo < i < k ==> s[i].prec < s[k].prec)
           && (s[lo].prec < s[k].prec || (s[lo].isShift && s[lo].assoc == LEFT))
  }

  /** No action wins: the shift ties with a reduction and associates neither way. */
  ghost predicate NoneWins(s: seq<Action>, lo: int, n: int)
    requires 0 <= lo < n <= |s|
  {
    && s[lo].prec > 0 && s[lo].isShift && s[lo].assoc != LEFT && s[lo].assoc != RIGHT
    && (forall i :: lo <= i < n ==> s[i].prec <= s[lo].prec)
    && exists i :: lo < i < n && s[i].prec == s[lo].prec
  }

  /** Folding the rule for two actions finds the one that wins. */
  lemma {:induction false} ChosenWins(s: seq<Action>, lo: int, n: int)
    requires 0 <= lo < n <= |s| && forall i :: lo < i < n ==> !s[i].isShift
    ensures var c := Chosen(s, lo, n, false); if c.1 then Wins(s, lo, n, c.0) else c.0 == lo && NoneWins(s, lo, n)
    decreases n
  {
    if n > lo + 1 {
      ChosenWins(s, lo, n - 1);
      var c := Chosen(s, lo, n - 1, false);
      if c.1 {
        WinsNext(s, lo, n - 1, c.0);
      } else {
        NoneWinsNext(s, lo, n - 1);
      }
    }
  }

  lemma WinsNext(s: seq<Action>, lo: int, n: int, k: int)
    requires 0 <= lo <= k < n < |s| && Wins(s, lo, n, k) && !s[n].isShift && (k > lo ==> !s[k].isShift)
    ensures match Compare(s[k], s[n])
            case Stay => Wins(s, lo, n + 1, k)
            case Change => Wins(s, lo, n + 1, n)
            case Neither => k == lo && NoneWins(s, lo, n + 1)
  {
  }

  lemma NoneWinsNext(s: seq<Action>, lo: int, n: int)
    requires 0 <= lo < n < |s| && NoneWins(s, lo, n) && !s[n].isShift
    ensures match Compare(s[lo], s[n])
            case Stay => NoneWins(s, lo, n + 1)
            case Change => Wins(s, lo, n + 1, n)
            case Neither => NoneWins(s, lo, n + 1)
  {
  }

  /** At most one action wins. */
  lemma OneWins(s: seq<Action>, lo: int, n: int, k: int, k': int)
    requires 0 <= lo < n <= |s| && lo <= k < n && lo <= k' < n && Wins(s, lo, n, k)
    ensures Wins(s, lo, n, k') ==> k' == k
  {
  }

  lemma NoWinner(s: seq<Action>, lo: int, n: int, k: int)
    requires 0 <= lo <= k < n <= |s| && NoneWins(s, lo, n)
    ensures !Wins(s, lo, n, k)
  {
  }

  /** The actions on one symbol are settled when exactly the one that wins is live; on the end marker
      in the final state, that is the first. */
  ghost predicate GroupSettled(s: seq<Action>, lo: int, n: int, final: bool)
    requires 0 <= lo < n <= |s|
  {
    forall k :: lo <= k < n ==>
      (Live(s[k]) <==> if final && s[lo].symbol == 0 then k == lo else Wins(s, lo, n, k))
  }

  /** Only the chosen action is live. */
  ghost predicate GroupChosen(s: seq<Action>, lo: int, n: int, final: bool)
    requires 0 <= lo < n <= |s|
  {
    var c := Chosen(s, lo, n, final && s[lo].symbol == 0);
    forall i :: lo <= i < n ==> (Live(s[i]) <==> i == c.0 && c.1)
  }

  lemma {:induction false} FirstChosen(s: seq<Action>, lo: int, n: int)
    requires 0 <= lo < n <= |s|
    ensures Chosen(s, lo, n, true) == (lo, true)
    decreases n
  {
    if n > lo + 1 {
      FirstChosen(s, lo, n - 1);
    }
  }

  lemma ChosenSettled(s: seq<Action>, lo: int, n: int, final: bool)
    requires 0 <= lo < n <= |s| && GroupChosen(s, lo, n, final) && forall i :: lo < i < n ==> !s[i].isShift
    ensures GroupSettled(s, lo, n, final)
  {
    hide Wins, NoneWins, Chosen;
    if final && s[lo].symbol == 0 {
      FirstChosen(s, lo, n);
    } else {
      ChosenWins(s, lo, n);
      var c := Chosen(s, lo, n, false);
      forall k | lo <= k < n
        ensures Live(s[k]) <==> Wins(s, lo, n, k)
      {
        if c.1 {
          OneWins(s, lo, n, c.0, k);
        } else {
          NoWinner(s, lo, n, k);
        }
      }
    }
  }

  /** The first `n` actions are settled: at most one live action per symbol, and every
      complete group is settled by the precedences. */
  ghost predicate WellSettled(s: seq<Action>, n: int, final: bool)
    requires 0 <= n <= |s|
  {
    && Settled(s, n)
    && forall lo, hi {:trigger IsGroup(s, lo, hi)} :: IsGroup(s, lo, hi) && hi <= n ==> GroupSettled(s, lo, hi, final)
  }

  /** Sorted by symbol, shifts first. */
  ghost predicate Sorted(s: seq<Action>) {
    forall i, j :: 0 <= i < j < |s| ==>
      s[i].symbol <= s[j].symbol && (s[i].symbol == s[j].symbol ==> !s[j].isShift)
  }

  lemma SymbolsSorted(s: seq<Action>, s': seq<Action>)
    requires Ordered(s) && SameActions(s, s')
    ensures Sorted(s')
  {
    forall i, j | 0 <= i < j < |s'|
      ensures s'[i].symbol <= s'[j].symbol && (s'[i].symbol == s'[j].symbol ==> !s'[j].isShift)
    {
      assert Precedes(s[i], s[j]);
    }
  }

  lemma GroupEnd(s: seq<Action>, lo: int, h: int, n: int)
    requires IsGroup(s, lo, h) && h <= n <= |s| && forall i :: lo <= i < n ==> s[i].symbol == s[lo].symbol
    ensures h == n
  {
    var k := if h < n then h else lo;
    assert s[k].symbol == s[lo].symbol;
  }

  /** A group is complete when the next symbol comes. */
  lemma GroupDone(s: seq<Action>, lo: int, pref: int, n: int, final: bool)
    requires Sorted(s)
    requires 0 <= lo < |s| && WellSettled(s, lo, final) && GroupOk(s, lo, pref, n, final && s[lo].symbol == 0)
    requires lo > 0 ==> s[lo - 1].symbol < s[lo].symbol
    ensures WellSettled(s, n, final)
  {
    hide Chosen, GroupSettled;
    forall l, h {:trigger IsGroup(s, l, h)} | IsGroup(s, l, h) && h <= n
      ensures GroupSettled(s, l, h, final)
    {
      if h > lo {
        assert l == lo by {
          assert s[l].symbol == s[h - 1].symbol;
        }
        GroupEnd(s, l, h, n);
        ChosenSettled(s, lo, n, final);
      }
    }
  }

  /** Changing only actions from `n` on keeps what is settled before. */
  lemma SettledKept(s: seq<Action>, s': seq<Action>, n: int, final: bool)
    requires SameActions(s, s') && 0 <= n <= |s| && WellSettled(s, n, final) && s'[..n] == s[..n]
    ensures WellSettled(s', n, final)
  {
    hide GroupSettled;
    assert forall i :: 0 <= i < n ==> s'[i] == s'[..n][i] == s[..n][i] == s[i];
    forall l, h {:trigger IsGroup(s', l, h)} | IsGroup(s', l, h) && h <= n
      ensures GroupSettled(s', l, h, final)
    {
      assert IsGroup(s, l, h);
      GroupKept(s, s', l, h, final);
    }
  }

  lemma GroupKept(s: seq<Action>, s': seq<Action>, lo: int, n: int, final: bool)
    requires 0 <= lo < n <= |s| == |s'| && GroupSettled(s, lo, n, final)
    requires forall i :: lo <= i < n ==> s'[i] == s[i]
    ensures GroupSettled(s', lo, n, final)
  {
    hide Wins;
    forall k | lo <= k < n
      ensures Wins(s', lo, n, k) == Wins(s, lo, n, k) && s'[k] == s[k]
    {
      WinsSame(s, s', lo, n, k);
    }
    assert s'[lo] == s[lo];
  }

  lemma WinsSame(s: seq<Action>, s': seq<Action>, lo: int, n: int, k: int)
    requires 0 <= lo <= k < n <= |s| == |s'| && forall i :: lo <= i < n ==> s'[i] == s[i]
    ensures Wins(s', lo, n, k) == Wins(s, lo, n, k)
  {
  }

  lemma GroupStep(s: seq<Action>, s': seq<Action>, lo: int, pref: int, p: int, pref': int)
    requires GroupOk(s, lo, pref, p, false) && p < |s| && s[p].symbol == s[lo].symbol && Live(s[p])
    requires PairSettled(s, s', pref, p, pref')
    ensures GroupOk(s', lo, pref', p + 1, false)
  {
    ChosenSame(s, s', lo, p, false);
  }

  lemma GroupSkip(s: seq<Action>, lo: int, pref: int, p: int)
    requires GroupOk(s, lo, pref, p, true) && p < |s| && s[p].symbol == s[lo].symbol
    ensures GroupOk(s[p := s[p].(suppressed := 1)], lo, pref, p + 1, true)
  {
    var s' := s[p := s[p].(suppressed := 1)];
    ChosenSame(s, s', lo, p, true);
    assert forall i :: lo <= i < p ==> s'[i] == s[i];
  }

  /** Action `p` belongs to the group that starts at `lo`: it is settled against the preferred
      one, or set aside on the end marker in the final state. */
  method SettleNext(x: array<Action>, ghost lo: int, pref: int, p: int, final: bool) returns (pref': int)
    requires 0 <= lo <= pref < p < x.Length && x[p].symbol == x[lo].symbol && Live(x[p])
    requires GroupOk(x[..], lo, pref, p, final && x[lo].symbol == 0)
    modifies x
    ensures SameActions(old(x[..]), x[..]) && lo <= pref' <= p
    ensures forall i :: (0 <= i < lo || p < i < x.Length) ==> x[i] == old(x[i])
    ensures GroupOk(x[..], lo, pref', p + 1, final && x[lo].symbol == 0)
  {
    hide GroupOk, PairSettled;
    ghost var s := x[..];
    pref' := pref;
    if final && x[p].symbol == 0 {
      x[p] := x[p].(suppressed := 1);
      GroupSkip(s, lo, pref, p);
      assert x[..] == s[p := s[p].(suppressed := 1)];
    } else {
      pref' := SettlePair(x, pref, p);
      GroupStep(s, x[..], lo, pref, p, pref');
      PairSame(s, x[..], pref, p, pref');
    }
  }

  lemma SameTwice(s: seq<Action>, s': seq<Action>, s'': seq<Action>)
    requires SameActions(s, s') && SameActions(s', s'')
    ensures SameActions(s, s'')
    ensures forall i :: 0 <= i < |s| ==> s''[i].symbol == s'[i].symbol == s[i].symbol
  {
  }

  lemma PrefixSettled(s: seq<Action>, s': seq<Action>, n: int, final: bool)
    requires SameActions(s, s') && 0 <= n <= |s| && WellSettled(s, n, final) && forall i :: 0 <= i < n ==> s'[i] == s[i]
    ensures WellSettled(s', n, final)
  {
    assert s'[..n] == s[..n];
    SettledKept(s, s', n, final);
  }

  lemma GroupSymbols(s: seq<Action>, lo: int, pref: int, n: int, aside: bool)
    requires GroupOk(s, lo, pref, n, aside)
    ensures 0 <= lo <= pref < n <= |s| && forall i :: lo <= i < n ==> s[i].symbol == s[lo].symbol
  {
  }

  /** Settles the conflicts of one state, in the order of the actions. */
  method RemoveConflicts(x: array<Action>, final: bool)
    requires Ordered(x[..]) && forall i :: 0 <= i < x.Length ==> Live(x[i])
    modifies x
    ensures SameActions(old(x[..]), x[..]) && WellSettled(x[..], x.Length, final)
  {
    hide *;
    ghost var s0 := x[..];
    var pref, p := 0, 0;
    ghost var lo := 0;
    NothingSettled(s0, final);
    SameSelf(s0);
    while p < x.Length
      invariant 0 <= p <= x.Length && SameActions(s0, x[..])
      invariant forall i :: p <= i < x.Length ==> x[i] == s0[i]
      invariant 0 <= lo <= p && (lo == p ==> p == 0) && WellSettled(x[..], lo, final)
      invariant 0 < lo < x.Length ==> x[lo - 1].symbol < x[lo].symbol
      invariant p > 0 ==> lo <= pref < p && GroupOk(x[..], lo, pref, p, final && x[lo].symbol == 0)
    {
      SymbolsSorted(s0, x[..]);
      ghost var s := x[..];
      if p > 0 {
        GroupSymbols(s, lo, pref, p, final && x[lo].symbol == 0);
      }
      if p == 0 || x[p].symbol != x[pref].symbol {
        if p > 0 {
          GroupDone(s, lo, pref, p, final);
        }
        pref := p;
        lo := p;
        GroupStart(s, p, final);
      } else {
        pref := SettleNext(x, lo, pref, p, final);
        SameTwice(s0, s, x[..]);
        PrefixSettled(s, x[..], lo, final);
      }
      p := p + 1;
    }
    SymbolsSorted(s0, x[..]);
    if p > 0 {
      GroupDone(x[..], lo, pref, p, final);
    }
  }

  lemma SameSelf(s: seq<Action>)
    ensures SameActions(s, s)
  {
  }

  lemma PairSame(s: seq<Action>, s': seq<Action>, pref: int, p: int, pref': int)
    requires 0 <= pref < p < |s| && PairSettled(s, s', pref, p, pref')
    ensures SameActions(s, s') && (forall i :: 0 <= i < |s| && i != pref && i != p ==> s'[i] == s[i])
    ensures pref' == pref || pref' == p
  {
  }

  lemma NothingSettled(s: seq<Action>, final: bool)
    ensures WellSettled(s, 0, final)
  {
  }

  lemma GroupStart(s: seq<Action>, p: int, final: bool)
    requires 0 <= p < |s| && Live(s[p])
    ensures GroupOk(s, p, p, p + 1, final && s[p].symbol == 0)
  {
  }

  // ----- Default reductions -----

  /** `r` is the state's default reduction: it has no shift, not even a suppressed one,
      all its live actions reduce by `r`, and one of them is on a token other than the
      error token. */
  ghost predicate IsDefault(s: seq<Action>, r: int) {
    && (forall x :: x in s ==> !x.isShift && (Live(x) ==> x.number == r))
    && (exists x :: x in s && Live(x) && x.symbol != 1)
  }

  /** The default reduction of the state, or 0 when it has none. */
  method SoleReduction(s: seq<Action>) returns (r: int)
    requires forall x :: x in s && !x.isShift ==> x.number > 0
    ensures r != 0 ==> r > 0 && IsDefault(s, r)
    ensures r == 0 ==> forall d :: !IsDefault(s, d)
  {
    var count, ruleno := 0, 0;
    var p := 0;
    while p < |s|
      invariant 0 <= p <= |s| && ruleno >= 0 && count >= 0
      invariant forall i :: 0 <= i < p ==> !s[i].isShift && (Live(s[i]) ==> s[i].number == ruleno)
      invariant ruleno > 0 <==> exists i :: 0 <= i < p && Live(s[i])
      invariant count > 0 <==> exists i :: 0 <= i < p && Live(s[i]) && s[i].symbol != 1
    {
      assert s[p] in s;
      if s[p].isShift {
        return 0;
      } else if s[p].suppressed == 0 {
        if ruleno > 0 && s[p].number != ruleno {
          assert forall i :: 0 <= i < p ==> s[i] in s;
          return 0;
        }
        if s[p].symbol != 1 {
          count := count + 1;
        }
        ruleno := s[p].number;
      }
      p := p + 1;
    }
    r := if count == 0 then 0 else ruleno;
  }
}
