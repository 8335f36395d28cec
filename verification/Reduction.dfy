/** Stacks of states, reductions on them, and the effect of default reductions: a
    reduction made on a token outside its lookahead set only delays the error. */
module Reduction {
  import opened Grammars
  import opened Trees
  import opened Lookahead

  /** The stack is a way of the automaton from state 0. */
  ghost predicate StackOk(a: Automaton, states: seq<int>)
    requires a.Sized()
  {
    && states != [] && states[0] == 0
    && (forall k :: 0 <= k < |states| ==> a.IsState(states[k]))
    && (forall k :: 0 < k < |states| ==> a.Trans(states[k - 1], a.accessing[states[k]], states[k]))
  }

  ghost function Top(states: seq<int>): int
    requires states != []
  {
    states[|states| - 1]
  }

  /** The symbols on the stack from position `k` on. */
  ghost function SymbolsFrom(a: Automaton, states: seq<int>, k: int): (symbols: seq<int>)
    requires a.Sized() && StackOk(a, states) && 0 < k <= |states|
    ensures |symbols| == |states| - k
  {
    seq(|states| - k, j requires 0 <= j < |states| - k => a.accessing[states[k + j]])
  }

  /** When an item with its dot `k` symbols into the rule holds on top, those symbols
      are on the stack, above the state that holds the opening of the rule. */
  lemma {:induction false} StackSpellsItem(g: Grammar, a: Automaton, states: seq<int>, r: int, k: int)
    requires a.IsLr0(g) && StackOk(a, states) && g.IsRule(r) && ItemAt(g, g.rrhs[r] + k, r, k)
    requires a.In(g, Top(states), g.rrhs[r] + k)
    ensures k < |states| && a.In(g, states[|states| - 1 - k], g.rrhs[r])
    ensures SymbolsFrom(a, states, |states| - k) == g.Rhs(r)[..k]
    decreases k
  {
    hide Automaton.IsLr0, Grammar.WellFormed, Grammar.InClosure, StackOk, ItemAt, Automaton.In;
    Basics(g, a);
    RuleBounds(g, r);
    AtBottom(a, states);
    ItemWithin(g, r, k);
    if k > 0 {
      var n := |states| - 1;
      if n == 0 {
        BottomItem(g, a, r, k);
      }
      var below := states[..n];
      BelowTop(a, states);
      StepBack(g, a, states[n - 1], a.accessing[states[n]], states[n], r, k);
      StackSpellsItem(g, a, below, r, k - 1);
      assert g.Rhs(r)[..k] == g.Rhs(r)[..k - 1] + [a.accessing[states[n]]];
      SymbolsBelow(a, states, |states| - k);
    } else {
      assert SymbolsFrom(a, states, |states|) == [] == g.Rhs(r)[..0];
    }
  }

  lemma AtBottom(a: Automaton, states: seq<int>)
    requires a.Sized() && StackOk(a, states)
    ensures states != [] && states[0] == 0 && forall k :: 0 <= k < |states| ==> a.IsState(states[k])
  {
  }

  lemma BelowTop(a: Automaton, states: seq<int>)
    requires a.Sized() && StackOk(a, states) && |states| > 1
    ensures StackOk(a, states[..|states| - 1]) && Top(states[..|states| - 1]) == states[|states| - 2]
    ensures a.Trans(states[|states| - 2], a.accessing[Top(states)], Top(states))
  {
  }

  lemma SymbolsBelow(a: Automaton, states: seq<int>, k: int)
    requires a.Sized() && StackOk(a, states) && |states| > 1 && 0 < k < |states| && StackOk(a, states[..|states| - 1])
    ensures SymbolsFrom(a, states, k) == SymbolsFrom(a, states[..|states| - 1], k) + [a.accessing[Top(states)]]
  {
  }

  lemma ItemWithin(g: Grammar, r: int, k: int)
    requires g.WellFormed() && g.IsRule(r) && ItemAt(g, g.rrhs[r] + k, r, k)
    ensures 0 <= k <= g.RhsLength(r) && (k > 0 ==> ItemAt(g, g.rrhs[r] + (k - 1), r, k - 1))
  {
  }

  /** The top state may reduce by `r`. */
  ghost predicate CanReduce(g: Grammar, a: Automaton, states: seq<int>, r: int)
    requires a.Sized()
  {
    StackOk(a, states) && r in a.reductions[Top(states)]
  }

  lemma StackSpellsRule(g: Grammar, a: Automaton, states: seq<int>, r: int)
    requires a.IsLr0(g) && CanReduce(g, a, states, r)
    ensures g.IsRule(r) && 3 <= r && 0 <= g.RhsLength(r) < |states|
    ensures a.In(g, states[|states| - 1 - g.RhsLength(r)], g.rrhs[r])
    ensures SymbolsFrom(a, states, |states| - g.RhsLength(r)) == g.Rhs(r)
  {
    assert a.StateOk(g, Top(states));
    AugmentedRuleNotReduced(g, a, Top(states));
    hide Automaton.IsLr0, Grammar.InClosure;
    var k := g.RhsLength(r);
    assert g.IsRule(r) && ItemAt(g, g.rrhs[r] + k, r, k);
    StackSpellsItem(g, a, states, r, k);
    assert g.Rhs(r)[..k] == g.Rhs(r);
  }

  /** Reducing by `r` replaces the right-hand side on the stack by the move on the
      rule's variable. */
  ghost predicate Reduces(g: Grammar, a: Automaton, states: seq<int>, r: int, states': seq<int>)
    requires a.IsLr0(g)
  {
    && CanReduce(g, a, states, r) && 3 <= r < |g.rlhs| && 0 <= g.RhsLength(r) < |states|
    && |states'| == |states| - g.RhsLength(r) + 1
    && states'[..|states'| - 1] == states[..|states| - g.RhsLength(r)]
    && a.Trans(Top(states[..|states| - g.RhsLength(r)]), g.rlhs[r], Top(states'))
  }

  lemma ReducesKeepsStack(g: Grammar, a: Automaton, states: seq<int>, r: int, states': seq<int>)
    requires a.IsLr0(g) && Reduces(g, a, states, r, states')
    ensures StackOk(a, states')
  {
    hide Automaton.IsLr0;
    Basics(g, a);
    var n := |states'| - 1;
    forall k | 0 <= k < n
      ensures states'[k] == states[k]
    {
      assert states'[..n][k] == states[..|states| - g.RhsLength(r)][k];
    }
  }

  /** The move made at position `k` of the stack. */
  ghost function MoveAt(a: Automaton, states: seq<int>, k: int): Move
    requires a.Sized() && StackOk(a, states) && 0 <= k < |states| - 1
  {
    Move(states[k], a.accessing[states[k + 1]])
  }

  /** From position `k` on the stack holds one variable that `t` cannot follow, and
      nullable variables above it. */
  ghost predicate StuckAt(g: Grammar, a: Automaton, follow: Family, states: seq<int>, t: int, k: int)
    requires a.Sized()
  {
    && StackOk(a, states) && 0 <= k < |states| - 1
    && MoveAt(a, states, k) in follow && t !in follow[MoveAt(a, states, k)]
    && (forall j :: k + 1 < j < |states| ==> Nullable(g, a.accessing[states[j]]))
  }

  ghost predicate Stuck(g: Grammar, a: Automaton, follow: Family, states: seq<int>, t: int)
    requires a.Sized()
  {
    exists k :: StuckAt(g, a, follow, states, t, k)
  }

  ghost predicate CanShift(a: Automaton, states: seq<int>, t: int)
    requires a.Sized() && states != []
  {
    exists q :: a.Trans(Top(states), t, q)
  }

  lemma NullableIsVar(g: Grammar, a: Automaton, p: int, s: int, q: int)
    requires a.IsLr0(g) && a.Trans(p, s, q) && Nullable(g, s)
    ensures IsMove(g, a, Move(p, s))
  {
    var t :| IsTree(g, t) && Root(g, t) == s && Yield(t) == [];
    assert g.IsRule(t.rule);
  }

  /** A token that cannot follow the move at `k` cannot be read after any of the nullable
      moves above it. */
  lemma {:induction false} NotRead(g: Grammar, a: Automaton, read: Family, follow: Family, states: seq<int>, t: int,
                                   k: int, j: int)
    requires a.IsLr0(g) && Satisfies(g, a, read, follow) && StuckAt(g, a, follow, states, t, k) && k <= j < |states| - 1
    ensures MoveAt(a, states, j) in read && t !in read[MoveAt(a, states, j)]
    decreases j
  {
    hide Automaton.IsLr0, Nullable, Includes;
    Basics(g, a);
    var m := MoveAt(a, states, j);
    if j > k {
      NotRead(g, a, read, follow, states, t, k, j - 1);
      var m' := MoveAt(a, states, j - 1);
      NullableIsVar(g, a, states[j], a.accessing[states[j + 1]], states[j + 1]);
      assert Reads(g, a, m', m);
    }
  }

  lemma ShiftIsRead(g: Grammar, a: Automaton, states: seq<int>, t: int)
    requires a.Sized() && StackOk(a, states) && |states| > 1 && CanShift(a, states, t) && g.IsToken(t)
    ensures DirectRead(g, a, MoveAt(a, states, |states| - 2), t)
  {
  }

  lemma StuckNotShifted(g: Grammar, a: Automaton, follow: Family, states: seq<int>, t: int)
    requires a.IsLr0(g) && IsFollow(g, a, follow) && Stuck(g, a, follow, states, t) && g.IsToken(t)
    ensures !CanShift(a, states, t)
  {
    hide Automaton.IsLr0, Nullable, Includes;
    Basics(g, a);
    var read :| Satisfies(g, a, read, follow);
    var k :| StuckAt(g, a, follow, states, t, k);
    NotRead(g, a, read, follow, states, t, k, |states| - 2);
    if CanShift(a, states, t) {
      ShiftIsRead(g, a, states, t);
    }
  }

  /** The symbols of a stretch of the stack spell a way of the automaton. */
  lemma {:induction false} StackSpells(a: Automaton, states: seq<int>, i: int, j: int)
    requires a.Sized() && StackOk(a, states) && 0 <= i <= j < |states|
    ensures Spells(a, states[i], SymbolsFrom(a, states, i + 1)[..j - i], states[j])
    decreases j
  {
    var symbols := SymbolsFrom(a, states, i + 1);
    if i == j {
      SpellsEmpty(a, states[i]);
      assert symbols[..0] == [];
    } else {
      StackSpells(a, states, i, j - 1);
      SpellsExtend(a, states[i], symbols[..j - 1 - i], states[j - 1], a.accessing[states[j]], states[j]);
      assert symbols[..j - i] == symbols[..j - 1 - i] + [a.accessing[states[j]]];
    }
  }

  /** What lies under the new variable when `r` is reduced: the move it makes. */
  lemma ReducesMove(g: Grammar, a: Automaton, states: seq<int>, r: int, states': seq<int>) returns (k: int)
    requires a.IsLr0(g) && Reduces(g, a, states, r, states')
    ensures k == |states| - 1 - g.RhsLength(r) == |states'| - 2 && StackOk(a, states')
    ensures MoveAt(a, states', k) == Move(states[k], g.rlhs[r]) && IsMove(g, a, MoveAt(a, states', k))
    ensures g.IsRule(r) && SymbolsFrom(a, states, k + 1) == g.Rhs(r)
    ensures forall i :: 0 <= i <= k ==> states'[i] == states[i]
  {
    StackSpellsRule(g, a, states, r);
    ReducesKeepsStack(g, a, states, r, states');
    hide Automaton.IsLr0, CanReduce, Grammar.WellFormed;
    Basics(g, a);
    k := |states| - 1 - g.RhsLength(r);
    forall i | 0 <= i <= k
      ensures states'[i] == states[i]
    {
      assert states'[..k + 1][i] == states[..k + 1][i];
    }
    RuleBounds(g, r);
  }

  /** The reduction stays within the nullable variables: the stuck move remains. */
  lemma StuckAbove(g: Grammar, a: Automaton, follow: Family, states: seq<int>, t: int, k: int, r: int,
                   states': seq<int>)
    requires a.IsLr0(g) && Reduces(g, a, states, r, states') && StuckAt(g, a, follow, states, t, k)
    requires k < |states| - 1 - g.RhsLength(r)
    ensures StuckAt(g, a, follow, states', t, k)
  {
    hide Automaton.IsLr0, Nullable, Grammar.WellFormed, CanReduce;
    var i := ReducesMove(g, a, states, r, states');
    NullableOnStack(g, a, states, r, i);
  }

  lemma NullableOnStack(g: Grammar, a: Automaton, states: seq<int>, r: int, i: int)
    requires a.IsLr0(g) && StackOk(a, states) && g.IsRule(r) && 0 <= i < |states|
    requires SymbolsFrom(a, states, i + 1) == g.Rhs(r)
    requires forall j :: i < j < |states| ==> Nullable(g, a.accessing[states[j]])
    ensures Nullable(g, g.rlhs[r])
  {
    hide Nullable, Automaton.IsLr0;
    Basics(g, a);
    forall j | 0 <= j < g.RhsLength(r)
      ensures Nullable(g, g.Rhs(r)[j])
    {
      assert g.Rhs(r)[j] == a.accessing[states[i + 1 + j]];
    }
    NullableRule(g, r);
  }

  /** The reduction takes the stuck move away: the new move is included in it, so the
      token cannot follow the new one either. */
  lemma StuckBelow(g: Grammar, a: Automaton, read: Family, follow: Family, states: seq<int>, t: int, k: int,
                   r: int, states': seq<int>)
    requires a.IsLr0(g) && Satisfies(g, a, read, follow)
    requires Reduces(g, a, states, r, states') && StuckAt(g, a, follow, states, t, k)
    requires k >= |states| - 1 - g.RhsLength(r)
    ensures StuckAt(g, a, follow, states', t, |states'| - 2)
  {
    hide Automaton.IsLr0, Nullable, Grammar.WellFormed, CanReduce;
    var i := ReducesMove(g, a, states, r, states');
    Basics(g, a);
    var m, m' := MoveAt(a, states, k), MoveAt(a, states', i);
    StackSpells(a, states, i, k);
    assert g.Rhs(r)[k - i] == m.symbol;
    forall j | k - i < j < g.RhsLength(r)
      ensures Nullable(g, g.Rhs(r)[j])
    {
      assert g.Rhs(r)[j] == a.accessing[states[i + 1 + j]];
    }
    assert IncludesVia(g, a, m, m', r, k - i);
    assert Includes(g, a, m, m');
  }

  lemma StuckReduces(g: Grammar, a: Automaton, follow: Family, states: seq<int>, t: int, r: int, states': seq<int>)
    requires a.IsLr0(g) && IsFollow(g, a, follow)
    requires Reduces(g, a, states, r, states') && Stuck(g, a, follow, states, t)
    ensures Stuck(g, a, follow, states', t)
  {
    hide Automaton.IsLr0, Reduces, StuckAt, Satisfies;
    Basics(g, a);
    var read :| Satisfies(g, a, read, follow);
    var k :| StuckAt(g, a, follow, states, t, k);
    var i := ReducesMove(g, a, states, r, states');
    if k < i {
      StuckAbove(g, a, follow, states, t, k, r, states');
    } else {
      StuckBelow(g, a, read, follow, states, t, k, r, states');
    }
  }

  /** A reduction on a token outside its lookahead set gets stuck. */
  lemma WrongReductionSticks(g: Grammar, a: Automaton, follow: Family, la: set<int>, states: seq<int>, t: int,
                             r: int, states': seq<int>)
    requires a.IsLr0(g) && Defined(g, a, follow) && Reduces(g, a, states, r, states')
    requires IsLookahead(g, a, follow, Top(states), r, la) && t !in la
    ensures Stuck(g, a, follow, states', t)
  {
    var k := ReducesMove(g, a, states, r, states');
    hide Automaton.IsLr0, Reduces, Grammar.WellFormed;
    Basics(g, a);
    StackSpells(a, states, k, |states| - 1);
    assert SymbolsFrom(a, states, k + 1)[..|states| - 1 - k] == g.Rhs(r);
    assert Lookback(g, a, Top(states), r, MoveAt(a, states', k));
    assert StuckAt(g, a, follow, states', t, k);
  }

  /** A run of reductions, each allowed by the automaton in the state on top. */
  ghost predicate ReductionRun(g: Grammar, a: Automaton, run: seq<seq<int>>, rules: seq<int>)
    requires a.IsLr0(g)
  {
    && |run| == |rules| + 1
    && forall k :: 0 <= k < |rules| ==> Reduces(g, a, run[k], rules[k], run[k + 1])
  }

  /** Default reductions only delay errors.  Once a reduction has been made on a token
      that is not in its lookahead set, that token is not shifted, whatever further
      reductions are made. */
  lemma {:induction false} DefaultReductionsOnlyDelay(g: Grammar, a: Automaton, follow: Family, la: set<int>, t: int,
                                                      run: seq<seq<int>>, rules: seq<int>, k: int)
    requires a.IsLr0(g) && IsFollow(g, a, follow) && Defined(g, a, follow) && g.IsToken(t)
    requires ReductionRun(g, a, run, rules) && 1 <= k < |run|
    requires StackOk(a, run[0]) && IsLookahead(g, a, follow, Top(run[0]), rules[0], la) && t !in la
    ensures StackOk(a, run[k]) && !CanShift(a, run[k], t)
    ensures Stuck(g, a, follow, run[k], t)
    decreases k
  {
    hide Automaton.IsLr0, Stuck, IsFollow, IsLookahead, CanShift;
    Basics(g, a);
    assert Reduces(g, a, run[k - 1], rules[k - 1], run[k - 1 + 1]);
    hide Reduces;
    if k == 1 {
      WrongReductionSticks(g, a, follow, la, run[0], t, rules[0], run[1]);
    } else {
      DefaultReductionsOnlyDelay(g, a, follow, la, t, run, rules, k - 1);
      StuckReduces(g, a, follow, run[k - 1], t, rules[k - 1], run[k]);
    }
    ReducesKeepsStack(g, a, run[k - 1], rules[k - 1], run[k]);
    StuckNotShifted(g, a, follow, run[k], t);
  }
}
