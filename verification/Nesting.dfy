/** What precedences mean for the trees that a generated parser accepts
    (src/mosmlyac/mkpar.c, src/runtime/parsing.c): how binary operators nest. */
module Nesting {
  import opened Options
  import opened Grammars
  import opened Trees
  import opened Lookahead
  import opened Reduction
  import opened Lalr
  import opened Conflicts
  import opened Packing
  import opened Output
  import opened Generator
  import opened Machine
  import opened Delays

  /** Rule `r` makes an `e` of two of them with the operator `op` in between. */
  ghost predicate IsBinary(g: Grammar, r: int, e: int, op: int) {
    && g.WellFormed() && 3 <= r < |g.rlhs| && g.IsRule(r)
    && g.rlhs[r] == e && g.IsVar(e) && g.IsToken(op) && g.Rhs(r) == [e, op, e]
  }

  /** On token `t` the shift is preferred to the reduction by `r`: one of them has no precedence, the
      token has the higher one, or it has the same and associates to the right. */
  ghost predicate ShiftWins(prec: Precedences, r: int, t: int) {
    && 0 <= r < |prec.rulePrec| && 0 <= t < |prec.tokenPrec| == |prec.tokenAssoc|
    && (prec.rulePrec[r] <= 0 || prec.tokenPrec[t] <= 0 || prec.tokenPrec[t] > prec.rulePrec[r] ||
        (prec.tokenPrec[t] == prec.rulePrec[r] && prec.tokenAssoc[t] == 2))
  }

  /** The reduction is preferred: both have a precedence, and the rule has the higher one, or the
      same and the token associates to the left. (Associativities are 1 for left, 2 for right.) */
  ghost predicate ReduceWins(prec: Precedences, r: int, t: int) {
    && 0 <= r < |prec.rulePrec| && 0 <= t < |prec.tokenPrec| == |prec.tokenAssoc|
    && prec.rulePrec[r] > 0 && prec.tokenPrec[t] > 0
    && (prec.rulePrec[r] > prec.tokenPrec[t] ||
        (prec.tokenPrec[t] == prec.rulePrec[r] && prec.tokenAssoc[t] == 1))
  }

  /** An operation that is the right operand of the operator of `r` binds tighter or associates to
      the right; one that is the left operand binds tighter or associates to the left. */
  ghost predicate OperandsOk(g: Grammar, prec: Precedences, r: int, left: Tree, right: Tree)
    requires prec.Fits(g)
  {
    forall e, op, op' {:trigger IsBinary(g, r, e, op), g.IsToken(op')} :: IsBinary(g, r, e, op) && g.IsToken(op') ==>
      && (right.Node? && IsBinary(g, right.rule, e, op') ==> ShiftWins(prec, r, op'))
      && (left.Node? && IsBinary(g, left.rule, e, op') ==> ReduceWins(prec, left.rule, op))
  }

  /** All operations in the tree nest as the precedences say. */
  ghost predicate Nests(g: Grammar, prec: Precedences, t: Tree)
    requires prec.Fits(g)
  {
    match t
    case Leaf(_) => true
    case Node(r, kids) =>
      && (forall k :: 0 <= k < |kids| ==> Nests(g, prec, kids[k]))
      && (|kids| == 3 ==> OperandsOk(g, prec, r, kids[0], kids[2]))
  }

  // ----- Trees built by live actions -----

  /** In state `q` the parser reduces by `r` on token `t`, or by default. */
  ghost predicate ReducesOn(p: Parser, q: int, r: int, t: int)
    requires 0 <= q < |p.rows| == |p.defs|
  {
    p.defs[q] == r || HasAction(p, q, false, t, r)
  }

  /** The parser builds `v` from state `q` on and may then see token `t`. */
  ghost predicate ReducedBefore(p: Parser, q: int, v: Tree, t: int)
    requires p.a.Sized() && |p.rows| == |p.defs| == |p.a.kernels| && p.g.WellFormed()
  {
    v.Node? && p.g.IsRule(v.rule) &&
    exists z :: Spells(p.a, q, p.g.Rhs(v.rule), z) && p.a.IsState(z) && ReducesOn(p, z, v.rule, t)
  }

  /** From `states[0]` on the trees lead from state to state, and where a token follows a tree, the
      tree has been reduced on it. */
  ghost predicate Linked(p: Parser, states: seq<int>, kids: seq<Tree>)
    requires p.a.Sized() && |p.rows| == |p.defs| == |p.a.kernels| && p.g.WellFormed()
  {
    && |states| == |kids| + 1 && (forall k :: 0 <= k < |states| ==> p.a.IsState(states[k]))
    && (forall k :: 0 <= k < |kids| ==> p.a.Trans(states[k], Root(p.g, kids[k]), states[k + 1]))
    && (forall k :: 0 <= k < |kids| - 1 && kids[k].Node? && kids[k + 1].Leaf? ==>
          ReducedBefore(p, states[k], kids[k], kids[k + 1].token))
  }

  /** The tree is built from state `q` on by live shifts and by reductions of the states reached. */
  ghost predicate Built(p: Parser, q: int, v: Tree)
    requires p.a.Sized() && |p.rows| == |p.defs| == |p.a.kernels| && p.g.WellFormed()
    decreases v
  {
    match v
    case Leaf(t) => p.a.IsState(q) && exists x :: HasAction(p, q, true, t, x)
    case Node(r, kids) =>
      exists states {:trigger Linked(p, states, kids)} ::
        && Linked(p, states, kids) && states[0] == q && r in p.a.reductions[states[|kids|]]
        && forall k :: 0 <= k < |kids| ==> Built(p, states[k], kids[k])
  }

  /** The values on the stack have been built by live actions; the last one so that the next token
      may follow. */
  ghost predicate StackBuilt(p: Parser, c: Config)
    requires p.a.Sized() && |p.rows| == |p.defs| == |p.a.kernels| && p.g.WellFormed()
  {
    && |c.states| == |c.values| && (forall k :: 0 <= k < |c.states| ==> p.a.IsState(c.states[k]))
    && (forall k :: 2 <= k < |c.states| ==> Built(p, c.states[k - 1], c.values[k]))
    && (forall k :: 2 <= k < |c.states| - 1 && c.values[k].Node? && c.values[k + 1].Leaf? ==>
          ReducedBefore(p, c.states[k - 1], c.values[k], c.values[k + 1].token))
    && (|c.states| > 2 && c.values[|c.states| - 1].Node? && Ahead(c) != [] ==>
          ReducedBefore(p, c.states[|c.states| - 2], c.values[|c.states| - 1], Ahead(c)[0]))
  }

  // ----- The actions of a step -----

  /** A step by rule `r` is a default reduction or on the token that has been read; a step that
      shifts is by a live action. */
  lemma StepActs(p: Parser, c: Config) returns (k: Kind)
    requires p.Ok() && Ready(p, c) && |p.rows| == |p.defs| == |p.a.kernels| && p.a.IsState(Top(c.states))
    ensures StepIs(p, c, k)
    ensures k.ByRule? ==> p.defs[Top(c.states)] == k.r ||
                          (c.look.Some? && exists t :: p.g.IsToken(t) && c.look.value.code == p.codes[t] &&
                                                       HasAction(p, Top(c.states), false, t, k.r))
    ensures k.ShiftTo? ==> HasAction(p, Top(c.states), true, k.t, k.q)
  {
    TableSizes(p);
    LookupsFit(p, c);
    hide Parser.Ok, Automaton.IsLr0, EntryOk, Grammar.WellFormed, Reduced, StackInv, RulesRefine, Lookup, HasAction,
         Applies, ParserTables.Sized;
    var q := Top(c.states);
    DefaultMeans(p, q);
    if p.pt.defred[q] != 0 {
      ByRuleActs(p, c, p.defs[q]);
      return ByRule(p.defs[q]);
    }
    match c.look {
      case None => k := if c.input == [] then Halt else ReadNext;
      case Some(l) =>
        var t :| p.g.IsToken(t) && l.code == p.codes[t];
        match Lookup(p.pt.packed, p.pt.sindex[q], l.code) {
          case Some(q') =>
            LookupMeans(p, q, t, q');
            ActionMeans(p, q, true, t, q');
            k := ShiftTo(t, q');
          case None =>
            match Lookup(p.pt.packed, p.pt.rindex[q], l.code) {
              case Some(n) =>
                LookupMeans(p, q, t, n);
                ActionMeans(p, q, false, t, n + 2);
                ByRuleActs(p, c, n + 2);
                k := ByRule(n + 2);
              case None =>
                k := Halt;
            }
        }
    }
  }

  /** The tables say to reduce by `r`. */
  lemma ByRuleActs(p: Parser, c: Config, r: int)
    requires p.Ok() && Ready(p, c) && p.a.IsState(Top(c.states)) && p.pt.Sized(p.g, p.a)
    requires 3 <= r < |p.g.rlhs| && r in p.a.reductions[Top(c.states)]
    requires p.pt.defred[Top(c.states)] == r - 2 ||
             (p.pt.defred[Top(c.states)] == 0 && c.look.Some? &&
              Lookup(p.pt.packed, p.pt.sindex[Top(c.states)], c.look.value.code).None? &&
              Lookup(p.pt.packed, p.pt.rindex[Top(c.states)], c.look.value.code) == Some(r - 2))
    ensures StepIs(p, c, ByRule(r))
  {
    hide Parser.Ok, Automaton.IsLr0, EntryOk, Reduced, Lookup, Step, StackInv;
    ReductionFits(p, c, r);
    StepIsReduction(p, c, r - 2);
    GoalIs(p.g);
  }

  // ----- Every step keeps it -----

  lemma ShiftBuilt(p: Parser, entry: int, tokens: seq<int>, c: Config, t: int, q: int)
    requires p.Ok() && Inv(p, entry, tokens, c) && |p.rows| == |p.defs| == |p.a.kernels| && p.g.WellFormed()
    requires StackBuilt(p, c) && StepIs(p, c, ShiftTo(t, q)) && HasAction(p, Top(c.states), true, t, q)
    ensures StackBuilt(p, AfterShift(c, q))
  {
    hide Parser.Ok, Automaton.IsLr0, EntryOk, Step, StackInv, HasAction, Grammar.WellFormed;
    var c' := AfterShift(c, q);
    if |c.states| > 1 {
      var u :| IsLook(p, c.look.value, u);
      CodeOf(p, t, u);
      assert Ahead(c) == [u] + c.input;
      var n := |c.states|;
      assert c'.values[n] == Leaf(u) && c'.states[n - 1] == Top(c.states);
      assert Built(p, c'.states[n - 1], c'.values[n]);
      forall k | 2 <= k < |c'.states|
        ensures Built(p, c'.states[k - 1], c'.values[k])
      {
        if k < n {
          assert c'.states[k - 1] == c.states[k - 1] && c'.values[k] == c.values[k];
        }
      }
      forall k | 2 <= k < |c'.states| - 1 && c'.values[k].Node? && c'.values[k + 1].Leaf?
        ensures ReducedBefore(p, c'.states[k - 1], c'.values[k], c'.values[k + 1].token)
      {
        assert c'.states[k - 1] == c.states[k - 1] && c'.values[k] == c.values[k];
        if k + 1 < n {
          assert c'.values[k + 1] == c.values[k + 1];
        }
      }
    }
  }

  lemma ReadBuilt(p: Parser, entry: int, tokens: seq<int>, c: Config)
    requires p.Ok() && Inv(p, entry, tokens, c) && |p.rows| == |p.defs| == |p.a.kernels| && p.g.WellFormed()
    requires StackBuilt(p, c) && c.look.None? && c.input != []
    ensures StackBuilt(p, AfterRead(p, c))
  {
    hide Parser.Ok, Automaton.IsLr0, EntryOk, StackInv, Built, ReducedBefore, Grammar.WellFormed;
    assert Ahead(AfterRead(p, c)) == Ahead(c);
  }

  /** The trees on top of the stack become the children of a new one. */
  lemma NodeBuilt(p: Parser, c: Config, r: int, k: int)
    requires p.a.Sized() && |p.rows| == |p.defs| == |p.a.kernels| && p.g.WellFormed()
    requires StackInv(p, c) && StackBuilt(p, c) && r in p.a.reductions[Top(c.states)] && 2 <= k <= |c.states|
    ensures Built(p, c.states[k - 1], Node(r, c.values[k..]))
  {
    hide *;
    StackSizes(p, c);
    var states, kids := c.states[k - 1..], c.values[k..];
    KidsLinked(p, c, k);
    TopIs(c.states);
    forall j | 0 <= j < |kids|
      ensures Built(p, states[j], kids[j])
    {
      KidBuilt(p, c, k + j);
    }
    BuiltNode(p, r, kids, states);
  }

  lemma TopIs(states: seq<int>)
    requires states != []
    ensures Top(states) == states[|states| - 1]
  {
  }

  lemma KidBuilt(p: Parser, c: Config, j: int)
    requires p.a.Sized() && |p.rows| == |p.defs| == |p.a.kernels| && p.g.WellFormed()
    requires StackBuilt(p, c) && 2 <= j < |c.states|
    ensures |c.values| == |c.states| && Built(p, c.states[j - 1], c.values[j])
  {
    hide Built, ReducedBefore, Grammar.WellFormed;
  }

  lemma KidsLinked(p: Parser, c: Config, k: int)
    requires p.a.Sized() && |p.rows| == |p.defs| == |p.a.kernels| && p.g.WellFormed()
    requires StackInv(p, c) && StackBuilt(p, c) && 2 <= k <= |c.states|
    ensures |c.values| == |c.states| && Linked(p, c.states[k - 1..], c.values[k..])
  {
    hide Grammar.WellFormed, Root, IsTree, Built, ReducedBefore;
    var states, kids := c.states[k - 1..], c.values[k..];
    forall j | 0 <= j < |kids|
      ensures p.a.Trans(states[j], Root(p.g, kids[j]), states[j + 1])
    {
      StackMove(p, c, k + j);
    }
    forall j | 0 <= j < |kids| - 1 && kids[j].Node? && kids[j + 1].Leaf?
      ensures ReducedBefore(p, states[j], kids[j], kids[j + 1].token)
    {
      assert c.values[k + j] == kids[j] && c.values[k + j + 1] == kids[j + 1] && c.states[k + j - 1] == states[j];
    }
  }

  lemma StackMove(p: Parser, c: Config, j: int)
    requires p.a.Sized() && StackInv(p, c) && 2 <= j < |c.states|
    ensures p.a.Trans(c.states[j - 1], Root(p.g, c.values[j]), c.states[j])
  {
    hide IsTree, Root;
  }

  lemma BuiltNode(p: Parser, r: int, kids: seq<Tree>, states: seq<int>)
    requires p.a.Sized() && |p.rows| == |p.defs| == |p.a.kernels| && p.g.WellFormed()
    requires Linked(p, states, kids) && r in p.a.reductions[states[|kids|]]
    requires forall k :: 0 <= k < |kids| ==> Built(p, states[k], kids[k])
    ensures Built(p, states[0], Node(r, kids))
  {
    hide Linked;
    assert Linked(p, states, kids);
  }

  /** On what token the reduction is made. */
  lemma ReductionBefore(p: Parser, entry: int, tokens: seq<int>, c: Config, r: int, k: int)
    requires p.Ok() && Inv(p, entry, tokens, c) && |p.rows| == |p.defs| == |p.a.kernels| && p.a.IsLr0(p.g)
    requires p.g.WellFormed() && p.a.Sized()
    requires StepIs(p, c, ByRule(r)) && 2 <= k <= |c.states| && k == |c.states| - p.g.RhsLength(r) && p.g.IsRule(r)
    requires p.defs[Top(c.states)] == r ||
             (c.look.Some? && exists t :: p.g.IsToken(t) && c.look.value.code == p.codes[t] &&
                                          HasAction(p, Top(c.states), false, t, r))
    requires Ahead(c) != []
    ensures ReducedBefore(p, c.states[k - 1], Node(r, c.values[k..]), Ahead(c)[0])
  {
    hide Parser.Ok, Automaton.IsLr0, EntryOk, Step, HasAction, Grammar.WellFormed;
    StackSpellsRule(p.g, p.a, c.states, r);
    StackSpells(p.a, c.states, k - 1, |c.states| - 1);
    assert SymbolsFrom(p.a, c.states, k)[..|c.states| - k] == p.g.Rhs(r);
    if p.defs[Top(c.states)] != r {
      var t :| p.g.IsToken(t) && c.look.value.code == p.codes[t] && HasAction(p, Top(c.states), false, t, r);
      var u :| IsLook(p, c.look.value, u);
      CodeOf(p, t, u);
    }
  }

  lemma ReduceBuilt(p: Parser, entry: int, tokens: seq<int>, c: Config, r: int)
    requires p.Ok() && Inv(p, entry, tokens, c) && |p.rows| == |p.defs| == |p.a.kernels| && p.a.IsLr0(p.g)
    requires p.g.WellFormed() && StackBuilt(p, c) && StepIs(p, c, ByRule(r)) && p.g.rlhs[r] != p.g.Goal()
    requires p.defs[Top(c.states)] == r ||
             (c.look.Some? && exists t :: p.g.IsToken(t) && c.look.value.code == p.codes[t] &&
                                          HasAction(p, Top(c.states), false, t, r))
    ensures Step(p, c).Running? && StackBuilt(p, Step(p, c).c)
  {
    hide Parser.Ok, Automaton.IsLr0, Grammar.WellFormed, EntryOk, StackInv, Step, HasAction, Built, ReducedBefore;
    TableSizes(p);
    ReductionFits(p, c, r);
    RuleBounds(p.g, r);
    EntryBelow(p, c, entry, r);
    StackSizes(p, c);
    var k := |c.states| - p.g.RhsLength(r);
    ReducedStack(p, c, r, k);
    NodeBuilt(p, c, r, k);
    if Ahead(c) != [] {
      ReductionBefore(p, entry, tokens, c, r, k);
    }
    ReducedIs(p, c, r, k);
    var c' := Reduced(p, c, r - 2).c;
    assert Ahead(c') == Ahead(c);
    PushedBuilt(p, c, c', r, k);
  }

  lemma PushedBuilt(p: Parser, c: Config, c': Config, r: int, k: int)
    requires p.a.Sized() && |p.rows| == |p.defs| == |p.a.kernels| && p.g.WellFormed()
    requires StackBuilt(p, c) && StackInv(p, c') && 2 <= k <= |c.states| && Ahead(c') == Ahead(c)
    requires |c'.states| == k + 1 && c'.states[..k] == c.states[..k]
    requires c'.values == c.values[..k] + [Node(r, c.values[k..])]
    requires Built(p, c.states[k - 1], Node(r, c.values[k..]))
    requires Ahead(c) != [] ==> ReducedBefore(p, c.states[k - 1], Node(r, c.values[k..]), Ahead(c)[0])
    ensures StackBuilt(p, c')
  {
    hide Built, ReducedBefore, Grammar.WellFormed, IsTree, Root;
    assert forall j :: 0 <= j < k ==> c'.states[j] == c'.states[..k][j] == c.states[..k][j] == c.states[j];
    assert forall j :: 0 <= j < k ==> c'.values[j] == c.values[j];
    assert c'.values[k] == Node(r, c.values[k..]);
  }

  lemma StepBuilt(p: Parser, entry: int, tokens: seq<int>, c: Config)
    requires p.Ok() && Inv(p, entry, tokens, c) && |p.rows| == |p.defs| == |p.a.kernels| && p.g.WellFormed()
    requires p.a.Sized() && StackBuilt(p, c)
    ensures Step(p, c).Running? ==> StackBuilt(p, Step(p, c).c)
    ensures Step(p, c).Accepted? ==> |c.states| == 3 && p.a.IsState(c.states[1])
    ensures Step(p, c).Accepted? ==> Built(p, c.states[1], Step(p, c).value)
  {
    hide Parser.Ok, Automaton.IsLr0, Inv, Ready, Step, StackBuilt, Grammar.WellFormed;
    InvReady(p, entry, tokens, c);
    ReadyTop(p, c);
    var k := StepActs(p, c);
    match k
    case ByRule(r) =>
      if p.g.rlhs[r] != p.g.Goal() {
        ReduceBuilt(p, entry, tokens, c, r);
      } else {
        ReadyEntry(p, c);
        EntryStack(p, c, r);
        AcceptedBuilt(p, c, r);
      }
    case ReadNext => ReadBuilt(p, entry, tokens, c);
    case ShiftTo(t, q) => ShiftBuilt(p, entry, tokens, c, t, q);
    case Halt =>
  }

  lemma ReadyEntry(p: Parser, c: Config)
    requires p.Ok() && Ready(p, c)
    ensures EntryOk(p.g)
  {
  }

  lemma AcceptedBuilt(p: Parser, c: Config, r: int)
    requires p.Ok() && Ready(p, c) && |p.rows| == |p.defs| == |p.a.kernels| && p.g.WellFormed() && p.a.Sized()
    requires StackBuilt(p, c) && |c.states| == 3 && StepIs(p, c, ByRule(r)) && p.g.rlhs[r] == p.g.Goal()
    ensures p.a.IsState(c.states[1]) && Step(p, c).Accepted? && Built(p, c.states[1], Step(p, c).value)
  {
    hide Parser.Ok, Automaton.IsLr0, Step, StackInv, Grammar.WellFormed, ReducedBefore, Built, EntryOk;
  }

  /** Every accepted tree has been built by live actions. */
  lemma {:induction false} RunBuilds(p: Parser, entry: int, tokens: seq<int>, c: Config, n: nat) returns (q: int)
    requires p.Ok() && Inv(p, entry, tokens, c) && |p.rows| == |p.defs| == |p.a.kernels| && p.g.WellFormed()
    requires p.a.Sized() && StackBuilt(p, c) && Run(p, entry, tokens, c, n).Accepted?
    ensures p.a.IsState(q) && Built(p, q, Run(p, entry, tokens, c, n).value)
    decreases n
  {
    hide Parser.Ok, Ready, Inv, StackBuilt, Built, Step, Grammar.WellFormed;
    InvReady(p, entry, tokens, c);
    StepKeeps(p, entry, tokens, c);
    StepBuilt(p, entry, tokens, c);
    if Step(p, c).Running? {
      q := RunBuilds(p, entry, tokens, Step(p, c).c, n - 1);
    } else {
      q := c.states[1];
    }
  }

  // ----- What the row of a state decides -----

  /** The actions on the symbol of action `i` make up a group. */
  lemma GroupAround(s: seq<Action>, i: int) returns (lo: int, hi: int)
    requires Sorted(s) && 0 <= i < |s|
    ensures lo <= i < hi && IsGroup(s, lo, hi)
  {
    lo, hi := i, i + 1;
    while lo > 0 && s[lo - 1].symbol == s[i].symbol
      invariant 0 <= lo <= i && forall k :: lo <= k <= i ==> s[k].symbol == s[i].symbol
    {
      lo := lo - 1;
    }
    while hi < |s| && s[hi].symbol == s[i].symbol
      invariant i < hi <= |s| && forall k :: lo <= k < hi ==> s[k].symbol == s[i].symbol
    {
      hi := hi + 1;
    }
  }

  /** Where a state can shift a token and reduce by `r` on it, at most the preferred action is live. */
  lemma RowDecides(p: Parser, prec: Precedences, q: int, t: int, r: int, q': int)
    requires p.Ok() && prec.Fits(p.g) && UsesPrecedences(prec, p.rows) && p.a.Sized() && p.a.IsState(q)
    requires |p.rows| == |p.defs| == |p.a.kernels| && 0 < t < p.g.ntokens <= p.g.nsyms && 0 <= r < |p.g.rlhs|
    requires p.a.Trans(q, t, q') && InLookahead(p.la, p.sets, q, r, t)
    ensures (exists x :: HasAction(p, q, true, t, x)) ==> ShiftWins(prec, r, t)
    ensures HasAction(p, q, false, t, r) ==> ReduceWins(prec, r, t)
  {
    hide Parser.Ok, Automaton.IsLr0, GroupSettled, Settled, Automaton.Trans, InLookahead, Ordered;
    var s, final := RowSettled(p, q);
    var row := p.rows[q];
    assert HasShiftAction(s, t, q') && HasReduceAction(s, t, r);
    SymbolsSorted(s, row);
    var i := EntryOf(s, row, t, q', true);
    var j := EntryOf(s, row, t, r, false);
    var lo, hi := GroupAround(row, i);
    FirstIsShift(row, lo, hi, i);
    assert RankedBy(prec, row);
    Ranks(prec, row, i);
    Ranks(prec, row, j);
    InGroup(row, lo, hi, j);
    if x :| HasAction(p, q, true, t, x) {
      var k := LiveEntry(p, q, true, t, x);
      InGroup(row, lo, hi, k);
      FirstIsShift(row, lo, hi, k);
      GroupMeans(row, lo, hi, final, lo);
    }
    if HasAction(p, q, false, t, r) {
      var k := LiveEntry(p, q, false, t, r);
      InGroup(row, lo, hi, k);
      Ranks(prec, row, k);
      GroupMeans(row, lo, hi, final, k);
    }
  }

  lemma RowSettled(p: Parser, q: int) returns (s: seq<Action>, final: bool)
    requires p.Ok() && p.a.Sized() && p.a.IsState(q)
    ensures |p.rows| == |p.defs| == |p.a.kernels|
    ensures IsRow(p.g, p.a, p.la, p.sets, q, s) && SameActions(s, p.rows[q])
    ensures WellSettled(p.rows[q], |p.rows[q]|, final)
  {
    assert RowDone(p.g, p.a, p.la, p.sets, q, p.rows[q], p.defs[q]);
    s :| IsRow(p.g, p.a, p.la, p.sets, q, s) && SameActions(s, p.rows[q]);
    hide Parser.Ok, IsRow, SameActions, WellSettled;
    final :| (final <==> p.a.Trans(0, p.g.Goal(), q)) && WellSettled(p.rows[q], |p.rows[q]|, final);
  }

  lemma EntryOf(s: seq<Action>, row: seq<Action>, t: int, x: int, shift: bool) returns (i: int)
    requires SameActions(s, row) && (if shift then HasShiftAction(s, t, x) else HasReduceAction(s, t, x))
    ensures 0 <= i < |row| && row[i].isShift == shift && row[i].symbol == t && row[i].number == x
  {
    var y :| y in s && y.isShift == shift && y.symbol == t && y.number == x;
    i :| 0 <= i < |s| && s[i] == y;
  }

  lemma LiveEntry(p: Parser, q: int, shift: bool, t: int, x: int) returns (i: int)
    requires 0 <= q < |p.rows| && HasAction(p, q, shift, t, x)
    ensures 0 <= i < |p.rows[q]| && Live(p.rows[q][i]) && p.rows[q][i].isShift == shift
    ensures p.rows[q][i].symbol == t && p.rows[q][i].number == x
  {
    var y :| y in p.rows[q] && Live(y) && y.isShift == shift && y.symbol == t && y.number == x;
    i :| 0 <= i < |p.rows[q]| && p.rows[q][i] == y;
  }

  lemma FirstIsShift(row: seq<Action>, lo: int, hi: int, i: int)
    requires Sorted(row) && IsGroup(row, lo, hi) && lo <= i < hi && row[i].isShift
    ensures i == lo
  {
  }

  lemma InGroup(row: seq<Action>, lo: int, hi: int, k: int)
    requires IsGroup(row, lo, hi) && 0 <= k < |row| && row[k].symbol == row[lo].symbol
    ensures lo <= k < hi
  {
  }

  lemma Ranks(prec: Precedences, row: seq<Action>, i: int)
    requires RankedBy(prec, row) && 0 <= i < |row|
    ensures RankOk(prec, row[i])
  {
    assert row[i] in row;
  }

  lemma GroupMeans(row: seq<Action>, lo: int, hi: int, final: bool, k: int)
    requires WellSettled(row, |row|, final) && IsGroup(row, lo, hi) && row[lo].symbol != 0 && lo <= k < hi
    ensures Live(row[k]) <==> Wins(row, lo, hi, k)
  {
    hide Wins, Settled;
    assert GroupSettled(row, lo, hi, final);
  }

  /** A state that can shift a token has no default reduction. */
  lemma NoDefault(p: Parser, q: int, t: int, q': int)
    requires p.Ok() && p.a.Sized() && p.a.IsState(q) && 0 < t < p.g.ntokens && p.a.Trans(q, t, q')
    ensures |p.rows| == |p.defs| == |p.a.kernels| && p.defs[q] == 0
  {
    var s := RowOf(p, q);
    hide Parser.Ok, Automaton.IsLr0, Settled, Automaton.Trans, Ordered;
    assert HasShiftAction(s, t, q');
    var i := EntryOf(s, p.rows[q], t, q', true);
    assert p.rows[q][i] in p.rows[q];
  }

  // ----- Items along an operation -----

  ghost predicate Finishes(a: Automaton, q: int, r: int)
    requires a.Sized()
  {
    a.IsState(q) && r in a.reductions[q]
  }

  /** The item of a rule that holds at the end of its right-hand side goes back to its start. */
  lemma {:induction false} ItemsAlong(g: Grammar, a: Automaton, states: seq<int>, r: int, k: int)
    requires a.IsLr0(g) && a.Sized() && g.WellFormed() && 3 <= r < |g.rlhs| && g.IsRule(r)
    requires Walk(a, states, g.Rhs(r)) && Finishes(a, states[|g.Rhs(r)|], r) && 0 <= k <= g.RhsLength(r)
    ensures a.IsState(states[k]) && a.In(g, states[k], g.rrhs[r] + k)
    decreases g.RhsLength(r) - k
  {
    hide Grammar.InClosure, Automaton.In;
    if k == g.RhsLength(r) {
      CompleteIn(g, a, states[k], r);
    } else {
      ItemsAlong(g, a, states, r, k + 1);
      assert ItemAt(g, g.rrhs[r] + (k + 1), r, k + 1);
      StepBack(g, a, states[k], g.Rhs(r)[k], states[k + 1], r, k + 1);
    }
  }

  lemma CompleteIn(g: Grammar, a: Automaton, q: int, r: int)
    requires a.IsLr0(g) && a.Sized() && a.IsState(q) && g.WellFormed() && r in a.reductions[q] && g.IsRule(r)
    ensures a.In(g, q, g.rrhs[r] + g.RhsLength(r))
  {
    assert a.StateOk(g, q);
  }

  /** With a variable behind the dot, a state has the openings of all its rules. */
  lemma Opened(g: Grammar, a: Automaton, q: int, r: int, k: int, r': int)
    requires a.IsLr0(g) && a.Sized() && g.WellFormed() && a.IsState(q) && g.IsRule(r) && g.IsRule(r')
    requires 0 <= k < g.RhsLength(r) && a.In(g, q, g.rrhs[r] + k) && g.rlhs[r'] == g.Rhs(r)[k]
    ensures a.In(g, q, g.rrhs[r'])
  {
    hide Automaton.IsLr0, Grammar.InClosure;
    assert ItemAt(g, g.rrhs[r] + k, r, k);
    ItemSymbol(g, g.rrhs[r] + k, r, k);
    ClosureStep(g, a.kernels[q], g.rrhs[r] + k, r');
  }

  /** From a state with the opening of an operation, its first operand leads to a shift of the
      operator. */
  lemma OperatorFollows(g: Grammar, a: Automaton, q: int, r: int, e: int, op: int) returns (q1: int, q2: int)
    requires a.IsLr0(g) && a.Sized() && a.IsState(q) && IsBinary(g, r, e, op) && a.In(g, q, g.rrhs[r])
    ensures a.Trans(q, e, q1) && a.Trans(q1, op, q2) && 0 < op
  {
    hide Automaton.IsLr0, Automaton.In, Grammar.WellFormed;
    BinaryLength(g, r, e, op);
    q1 := AdvanceItem(g, a, q, r, 0);
    q2 := AdvanceItem(g, a, q1, r, 1);
    assert ItemAt(g, g.rrhs[r] + 1, r, 1);
    ItemSymbol(g, g.rrhs[r] + 1, r, 1);
  }

  lemma BinaryLength(g: Grammar, r: int, e: int, op: int)
    requires IsBinary(g, r, e, op)
    ensures |g.rrhs| == |g.rlhs| + 1 && g.RhsLength(r) == 3 && g.Rhs(r)[0] == e && g.Rhs(r)[1] == op && g.Rhs(r)[2] == e
  {
    assert |g.Rhs(r)| == 3;
  }

  /** What can follow an operation may be followed by another operator: it is in the lookahead set. */
  lemma OperatorInLookahead(p: Parser, states: seq<int>, r: int, e: int, op: int, r': int, op': int)
    requires p.Ok() && p.a.Sized() && p.a.IsLr0(p.g) && IsBinary(p.g, r, e, op) && IsBinary(p.g, r', e, op')
    requires |states| == 4 && Walk(p.a, states, p.g.Rhs(r)) && Finishes(p.a, states[3], r)
    ensures p.a.IsState(states[3]) && InLookahead(p.la, p.sets, states[3], r, op')
  {
    hide Automaton.IsLr0, IsLookahead, Refines, AllDone, CodesOk, Grammar.WellFormed, LaIndex.Ok, Automaton.In,
      InLookahead;
    BinaryLength(p.g, r, e, op);
    ItemsAlong(p.g, p.a, states, r, 0);
    Opened(p.g, p.a, states[0], r, 0, r');
    var q1, q2 := OperatorFollows(p.g, p.a, states[0], r', e, op');
    var m := Move(states[0], e);
    assert IsMove(p.g, p.a, m) && DirectRead(p.g, p.a, m, op');
    assert p.a.IsState(states[3]) by {
      ItemsAlong(p.g, p.a, states, r, 3);
    }
    var k := LookaheadSet(p, states[3], r);
    assert Spells(p.a, m.state, p.g.Rhs(r), states[3]);
    assert Lookback(p.g, p.a, states[3], r, m);
    FollowReads(p, m, op');
    InSet(p, states[3], r, p.sets[k], m, op');
  }

  lemma InSet(p: Parser, q: int, r: int, la: set<int>, m: Move, t: int)
    requires p.a.Sized() && p.g.WellFormed() && Defined(p.g, p.a, p.follow)
    requires IsLookahead(p.g, p.a, p.follow, q, r, la) && m in p.follow && Lookback(p.g, p.a, q, r, m) &&
               t in p.follow[m]
    ensures t in la
  {
    hide Lookback, Grammar.WellFormed;
  }

  lemma FollowReads(p: Parser, m: Move, t: int)
    requires p.a.Sized() && p.g.WellFormed() && IsFollow(p.g, p.a, p.follow) && Defined(p.g, p.a, p.follow)
    requires IsMove(p.g, p.a, m) && DirectRead(p.g, p.a, m, t)
    ensures m in p.follow && t in p.follow[m]
  {
    hide IsMove, DirectRead, Grammar.WellFormed, Reads, Includes, Below;
    var read :| Satisfies(p.g, p.a, read, p.follow);
    assert m in read;
  }

  // ----- Operands -----

  /** The children of an operation. */
  lemma OperationKids(p: Parser, e: int, op: int, v: Tree)
    requires p.g.WellFormed() && v.Node? && IsBinary(p.g, v.rule, e, op) && IsTree(p.g, v)
    ensures |v.kids| == 3 && v.kids[1] == Leaf(op)
    ensures forall k :: 0 <= k < 3 ==> IsTree(p.g, v.kids[k]) && Root(p.g, v.kids[k]) == p.g.Rhs(v.rule)[k]
  {
    BinaryLength(p.g, v.rule, e, op);
    assert |Roots(p.g, v.kids)| == 3;
    assert forall k :: 0 <= k < 3 ==> Roots(p.g, v.kids)[k] == p.g.Rhs(v.rule)[k];
    var t := v.kids[1];
    if t.Node? {
      VariableRoot(p.g, t);
    }
  }

  lemma VariableRoot(g: Grammar, t: Tree)
    requires g.WellFormed() && t.Node? && IsTree(g, t)
    ensures Root(g, t) >= g.ntokens
  {
    assert g.RuleOk(t.rule);
  }

  /** The right operand of the operator of `r` is an operation by `r'`: after the right-hand side of
      `r` its operator has been shifted. */
  lemma RightOperand(p: Parser, prec: Precedences, states: seq<int>, r: int, e: int, op: int, v: Tree, op': int)
    requires p.Ok() && prec.Fits(p.g) && UsesPrecedences(prec, p.rows) && p.a.Sized() && p.a.IsLr0(p.g)
    requires |p.rows| == |p.defs| == |p.a.kernels| && p.g.WellFormed() && IsBinary(p.g, r, e, op)
    requires |states| == 4 && Walk(p.a, states, p.g.Rhs(r)) && Finishes(p.a, states[3], r)
    requires v.Node? && IsBinary(p.g, v.rule, e, op') && IsTree(p.g, v) && Built(p, states[2], v)
    ensures ShiftWins(prec, r, op')
  {
    hide Parser.Ok, Automaton.IsLr0, Grammar.WellFormed, UsesPrecedences, IsTree, Root, InLookahead, Finishes,
      ShiftWins;
    OperationKids(p, e, op', v);
    BinaryLength(p.g, v.rule, e, op');
    BinaryLength(p.g, r, e, op);
    var ways :| Linked(p, ways, v.kids) && ways[0] == states[2] && v.rule in p.a.reductions[ways[|v.kids|]]
                && forall k :: 0 <= k < |v.kids| ==> Built(p, ways[k], v.kids[k]);
    assert p.a.Trans(ways[0], Root(p.g, v.kids[0]), ways[1]) && p.a.Trans(states[2], p.g.Rhs(r)[2], states[3]);
    TransUnique(p.g, p.a, states[2], e, ways[1], states[3]);
    assert Built(p, states[3], Leaf(op'));
    var x :| HasAction(p, states[3], true, op', x);
    ActionMeans(p, states[3], true, op', x);
    OperatorInLookahead(p, states, r, e, op, v.rule, op');
    OperatorPositive(p.g, v.rule, e, op');
    RowDecides(p, prec, states[3], op', r, x);
  }

  lemma OperatorPositive(g: Grammar, r: int, e: int, op: int)
    requires IsBinary(g, r, e, op)
    ensures 0 < op < g.ntokens <= g.nsyms
  {
    BinaryLength(g, r, e, op);
    assert ItemAt(g, g.rrhs[r] + 1, r, 1);
    ItemSymbol(g, g.rrhs[r] + 1, r, 1);
  }

  /** Where the reduction of the left operand ends. */
  lemma LeftEnds(p: Parser, states: seq<int>, r: int, e: int, op: int, v: Tree, op': int, z: int) returns (q: int)
    requires p.a.Sized() && p.a.IsLr0(p.g) && p.g.WellFormed() && IsBinary(p.g, r, e, op)
    requires v.Node? && IsBinary(p.g, v.rule, e, op') && |states| == 4 && Walk(p.a, states, p.g.Rhs(v.rule))
    requires Finishes(p.a, states[3], v.rule) && z == states[3]
    ensures p.a.Trans(z, op, q)
  {
    hide Automaton.IsLr0, Grammar.WellFormed, Automaton.In, Finishes;
    BinaryLength(p.g, v.rule, e, op');
    ItemsAlong(p.g, p.a, states, v.rule, 2);
    Opened(p.g, p.a, states[2], v.rule, 2, r);
    var q1, q2 := OperatorFollows(p.g, p.a, states[2], r, e, op);
    assert p.a.Trans(states[2], p.g.Rhs(v.rule)[2], states[3]);
    TransUnique(p.g, p.a, states[2], e, q1, states[3]);
    q := q2;
  }

  /** The left operand of the operator `op` of `r` is an operation: it has been reduced before `op`. */
  lemma LeftOperand(p: Parser, prec: Precedences, q: int, r: int, e: int, op: int, v: Tree, op': int)
    requires p.Ok() && prec.Fits(p.g) && UsesPrecedences(prec, p.rows) && p.a.Sized() && p.a.IsLr0(p.g)
    requires |p.rows| == |p.defs| == |p.a.kernels| && p.g.WellFormed() && IsBinary(p.g, r, e, op)
    requires v.Node? && IsBinary(p.g, v.rule, e, op') && ReducedBefore(p, q, v, op)
    ensures ReduceWins(prec, v.rule, op)
  {
    hide Parser.Ok, Automaton.IsLr0, Grammar.WellFormed, UsesPrecedences, InLookahead, ReduceWins, HasAction;
    BinaryLength(p.g, v.rule, e, op');
    var z :| Spells(p.a, q, p.g.Rhs(v.rule), z) && p.a.IsState(z) && ReducesOn(p, z, v.rule, op);
    var states :| Walk(p.a, states, p.g.Rhs(v.rule)) && states[0] == q && states[|p.g.Rhs(v.rule)|] == z;
    TableSizes(p);
    if p.defs[z] == v.rule {
      DefaultMeans(p, z);
    } else {
      ActionMeans(p, z, false, op, v.rule);
    }
    var q' := LeftEnds(p, states, r, e, op, v, op', z);
    OperatorPositive(p.g, r, e, op);
    NoDefault(p, z, op, q');
    ActionMeans(p, z, false, op, v.rule);
    RowDecides(p, prec, z, op, v.rule, q');
  }

  // ----- Whole trees -----

  lemma {:induction false} BuiltNests(p: Parser, prec: Precedences, q: int, v: Tree)
    requires p.Ok() && prec.Fits(p.g) && UsesPrecedences(prec, p.rows) && p.a.Sized() && p.a.IsLr0(p.g)
    requires |p.rows| == |p.defs| == |p.a.kernels| && p.g.WellFormed() && IsTree(p.g, v) && Built(p, q, v)
    ensures Nests(p.g, prec, v)
    decreases v
  {
    hide Parser.Ok, Automaton.IsLr0, Grammar.WellFormed, UsesPrecedences, ReducedBefore, HasAction, OperandsOk;
    match v
    case Leaf(_) =>
    case Node(r, kids) =>
      var states :| Linked(p, states, kids) && states[0] == q && r in p.a.reductions[states[|kids|]]
                    && forall k :: 0 <= k < |kids| ==> Built(p, states[k], kids[k]);
      forall k | 0 <= k < |kids|
        ensures Nests(p.g, prec, kids[k])
      {
        BuiltNests(p, prec, states[k], kids[k]);
      }
      if |kids| == 3 {
        OperandsNest(p, prec, states, r, kids);
      }
  }

  lemma OperandsNest(p: Parser, prec: Precedences, states: seq<int>, r: int, kids: seq<Tree>)
    requires p.Ok() && prec.Fits(p.g) && UsesPrecedences(prec, p.rows) && p.a.Sized() && p.a.IsLr0(p.g)
    requires |p.rows| == |p.defs| == |p.a.kernels| && p.g.WellFormed() && IsTree(p.g, Node(r, kids)) && |kids| == 3
    requires Linked(p, states, kids) && r in p.a.reductions[states[3]]
    requires forall k :: 0 <= k < |kids| ==> Built(p, states[k], kids[k])
    ensures OperandsOk(p.g, prec, r, kids[0], kids[2])
  {
    hide Parser.Ok, Automaton.IsLr0, Grammar.WellFormed, UsesPrecedences, ReducedBefore, Built, ShiftWins, ReduceWins,
         IsBinary;
    forall e, op, op' {:trigger IsBinary(p.g, r, e, op), p.g.IsToken(op')} |
      IsBinary(p.g, r, e, op) && p.g.IsToken(op')
      ensures kids[2].Node? && IsBinary(p.g, kids[2].rule, e, op') ==> ShiftWins(prec, r, op')
      ensures kids[0].Node? && IsBinary(p.g, kids[0].rule, e, op') ==> ReduceWins(prec, kids[0].rule, op)
    {
      OperationKids(p, e, op, Node(r, kids));
      BinaryLength(p.g, r, e, op);
      assert Walk(p.a, states, p.g.Rhs(r)) && Finishes(p.a, states[3], r);
      if kids[2].Node? && IsBinary(p.g, kids[2].rule, e, op') {
        RightOperand(p, prec, states, r, e, op, kids[2], op');
      }
      if kids[0].Node? && IsBinary(p.g, kids[0].rule, e, op') {
        LeftOperand(p, prec, states[0], r, e, op, kids[0], op');
      }
    }
  }

  /** The precedences decide how operations nest in every tree that is accepted: the right operand of
      an operator only is an operation that the shift is preferred for, the left operand only one
      that the reduction is preferred for. */
  lemma AcceptedNests(p: Parser, prec: Precedences, entry: int, stale: (Tree, Tree), tokens: seq<int>, n: nat)
    requires p.Ok() && prec.Fits(p.g) && UsesPrecedences(prec, p.rows) && 0 <= entry < |p.codes|
    requires Inv(p, entry, tokens, Initial(p, entry, stale, tokens))
    requires Run(p, entry, tokens, Initial(p, entry, stale, tokens), n).Accepted?
    ensures Nests(p.g, prec, Run(p, entry, tokens, Initial(p, entry, stale, tokens), n).value)
  {
    hide Parser.Ok, Inv, Ready, Run, Built, UsesPrecedences, Nests, Grammar.WellFormed, Automaton.IsLr0;
    TableSizes(p);
    var c := Initial(p, entry, stale, tokens);
    AtStart(p, entry, stale, tokens);
    var q := RunBuilds(p, entry, tokens, c, n);
    Soundness(p, entry, tokens, c, n);
    BuiltNests(p, prec, q, Run(p, entry, tokens, c, n).value);
  }

  lemma AtStart(p: Parser, entry: int, stale: (Tree, Tree), tokens: seq<int>)
    requires p.Ok() && 0 <= entry < |p.codes| && p.a.Sized() && |p.rows| == |p.defs| == |p.a.kernels| &&
               p.g.WellFormed()
    ensures StackBuilt(p, Initial(p, entry, stale, tokens))
  {
    hide Parser.Ok, Grammar.WellFormed;
  }

  /** Rule `r` is nowhere in the tree the right (left) operand of itself. */
  ghost predicate NeverRight(r: int, t: Tree) {
    match t
    case Leaf(_) => true
    case Node(r', kids) =>
      && (forall k :: 0 <= k < |kids| ==> NeverRight(r, kids[k]))
      && !(r' == r && |kids| == 3 && kids[2].Node? && kids[2].rule == r)
  }

  ghost predicate NeverLeft(r: int, t: Tree) {
    match t
    case Leaf(_) => true
    case Node(r', kids) =>
      && (forall k :: 0 <= k < |kids| ==> NeverLeft(r, kids[k]))
      && !(r' == r && |kids| == 3 && kids[0].Node? && kids[0].rule == r)
  }

  /** An operator whose rule has its precedence nests to the left only when it is declared left, to the
      right only when it is declared right, and not at all when it is declared neither. */
  lemma {:induction false} Associates(g: Grammar, prec: Precedences, r: int, e: int, op: int, t: Tree)
    requires prec.Fits(g) && IsBinary(g, r, e, op) && 0 <= op < g.nsyms && Nests(g, prec, t)
    requires prec.rulePrec[r] == prec.tokenPrec[op] > 0
    ensures prec.tokenAssoc[op] != 2 ==> NeverRight(r, t)
    ensures prec.tokenAssoc[op] != 1 ==> NeverLeft(r, t)
    decreases t
  {
    hide IsBinary;
    match t
    case Leaf(_) =>
    case Node(r', kids) =>
      forall k | 0 <= k < |kids|
        ensures prec.tokenAssoc[op] != 2 ==> NeverRight(r, kids[k])
        ensures prec.tokenAssoc[op] != 1 ==> NeverLeft(r, kids[k])
      {
        Associates(g, prec, r, e, op, kids[k]);
      }
      if r' == r && |kids| == 3 {
        OperatorToken(g, r, e, op);
      }
  }

  lemma OperatorToken(g: Grammar, r: int, e: int, op: int)
    requires IsBinary(g, r, e, op)
    ensures g.IsToken(op)
  {
  }
}
