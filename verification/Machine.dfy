/** The pushdown automaton that the tables drive (src/runtime/parsing.c), one move at a
    time.  The semantic values are parse trees; the action of an entry rule ends the
    parse with the value on top. */
module Machine {
  import opened Options
  import opened Relations
  import opened Grammars
  import opened Trees
  import opened Lookahead
  import opened Reduction
  import opened Lalr
  import opened Conflicts
  import opened Packing
  import opened Output
  import opened Generator

  /** A token that has been read: its code and its semantic value. */
  datatype Look = Look(code: int, value: Tree)

  /** The two stacks, the token that has been read but not shifted, and the tokens that
      the lexer still holds. */
  datatype Config = Config(states: seq<int>, values: seq<Tree>, look: Option<Look>, input: seq<int>)

  datatype Outcome = Running(c: Config) | Accepted(value: Tree) | Rejected | Starved

  // ----- Entry rules -----

  /** An entry rule is `goal -> token variable`. */
  ghost predicate IsEntryRule(g: Grammar, r: int)
    requires g.WellFormed()
  {
    g.IsRule(r) && g.rlhs[r] == g.Goal()
  }

  ghost predicate IsEntryToken(g: Grammar, s: int)
    requires g.WellFormed()
  {
    exists r {:trigger IsEntryRule(g, r)} :: IsEntryRule(g, r) && g.RhsLength(r) == 2 && g.Rhs(r)[0] == s
  }

  /** The goal has only entry rules, and their tokens occur nowhere else. */
  ghost predicate EntryOk(g: Grammar) {
    && g.WellFormed()
    && (forall r {:trigger IsEntryRule(g, r)} :: IsEntryRule(g, r) ==>
          g.RhsLength(r) == 2 && g.IsToken(g.Rhs(r)[0]) && g.IsVar(g.Rhs(r)[1]))
    && (forall r, k {:trigger g.Rhs(r)[k]} ::
        3 <= r < |g.rlhs| && 0 <= k < g.RhsLength(r) && IsEntryToken(g, g.Rhs(r)[k]) ==>
          IsEntryRule(g, r) && k == 0)
  }

  /** The opening of an entry rule is only in the closure of state 0. */
  lemma EntryOpening(g: Grammar, a: Automaton, q: int, r: int)
    requires a.IsLr0(g) && a.IsState(q) && IsEntryRule(g, r) && 3 <= r && a.In(g, q, g.rrhs[r])
    ensures q == 0
  {
    hide Grammar.InClosure;
    assert ItemAt(g, g.rrhs[r], r, 0);
    ClosureInversion(g, a.kernels[q], g.rrhs[r]);
    if g.rrhs[r] in a.kernels[q] {
      KernelItem(g, a, q, r, 0);
    } else {
      var j, r' :| 0 <= j < |g.ritem| && g.InClosure(a.kernels[q], j) && g.IsRule(r') &&
                   g.rlhs[r'] == g.ritem[j] && g.rrhs[r'] == g.rrhs[r];
      assert ItemAt(g, g.rrhs[r], r', 0);
      ItemAtUnique(g, g.rrhs[r], r, 0, r', 0);
      GoalItem(g, j);
      StartItem(g, a, q);
    }
  }

  /** The goal occurs only in the augmented rule. */
  lemma GoalItem(g: Grammar, j: int)
    requires g.WellFormed() && 0 <= j < |g.ritem| && g.ritem[j] == g.Goal()
    ensures j == 1
  {
    if j != 0 {
      ItemHasRule(g, j);
      var r, k :| ItemAt(g, j, r, k);
      ItemSymbol(g, j, r, k);
      assert g.RuleOk(r);
    }
  }

  lemma StartItem(g: Grammar, a: Automaton, q: int)
    requires a.IsLr0(g) && a.IsState(q) && a.In(g, q, 1)
    ensures q == 0
  {
    hide Grammar.InClosure;
    assert g.IsRule(2) && ItemAt(g, 1, 2, 0);
    ClosureInversion(g, a.kernels[q], 1);
    if 1 in a.kernels[q] {
      KernelItem(g, a, q, 2, 0);
    } else {
      var j, r :| 0 <= j < |g.ritem| && g.InClosure(a.kernels[q], j) && g.IsRule(r) &&
                  g.rlhs[r] == g.ritem[j] && g.rrhs[r] == 1;
      assert ItemAt(g, 1, r, 0);
      ItemAtUnique(g, 1, r, 0, 2, 0);
      NoStartItem(g, j);
    }
  }

  lemma NoStartItem(g: Grammar, j: int)
    requires g.WellFormed() && 0 <= j < |g.ritem|
    ensures g.ritem[j] != g.ntokens
  {
    if j != 0 {
      ItemHasRule(g, j);
      var r, k :| ItemAt(g, j, r, k);
      ItemSymbol(g, j, r, k);
      assert g.RuleOk(r);
    }
  }

  lemma EntryNotEnd(g: Grammar, r: int)
    requires EntryOk(g) && IsEntryRule(g, r)
    ensures 3 <= r && 0 < g.Rhs(r)[0] < g.ntokens
  {
    assert g.RuleOk(r);
    assert g.Rhs(r)[0] == g.ritem[g.rrhs[r]];
  }

  // ----- What the lookups give -----

  /** The token has a live action of the state, a shift to `x` or a reduction by `x`. */
  ghost predicate HasAction(p: Parser, q: int, shift: bool, t: int, x: int)
    requires 0 <= q < |p.rows|
  {
    exists y :: y in p.rows[q] && Live(y) && y.isShift == shift && y.symbol == t && y.number == x
  }

  lemma RowOf(p: Parser, q: int) returns (s: seq<Action>)
    requires p.Ok() && p.a.IsState(q)
    ensures |p.rows| == |p.defs| == |p.a.kernels|
    ensures IsRow(p.g, p.a, p.la, p.sets, q, s) && SameActions(s, p.rows[q]) && Settled(p.rows[q], |p.rows[q]|)
    ensures if p.defs[q] == 0 then forall r :: !IsDefault(p.rows[q], r)
            else p.defs[q] > 0 && IsDefault(p.rows[q], p.defs[q])
  {
    assert RowDone(p.g, p.a, p.la, p.sets, q, p.rows[q], p.defs[q]);
    s :| IsRow(p.g, p.a, p.la, p.sets, q, s) && SameActions(s, p.rows[q]);
  }

  /** A live shift is a move of the automaton; a live reduction is one of the state's
      and has the token in its lookahead set. */
  lemma ActionMeans(p: Parser, q: int, shift: bool, t: int, x: int)
    requires p.Ok() && p.a.IsState(q) && |p.rows| == |p.a.kernels| && HasAction(p, q, shift, t, x)
    ensures p.g.IsToken(t)
    ensures shift ==> p.a.Trans(q, t, x)
    ensures !shift ==> 3 <= x < |p.g.rlhs| && x in p.a.reductions[q] && InLookahead(p.la, p.sets, q, x, t)
  {
    hide LaIndex.Ok, Automaton.IsLr0, IsFollow, IsLookahead, Refines, AllDone, CodesOk;
    Basics(p.g, p.a);
    var s := RowOf(p, q);
    var y :| y in p.rows[q] && Live(y) && y.isShift == shift && y.symbol == t && y.number == x;
    var i :| 0 <= i < |s| && p.rows[q][i] == y;
    assert s[i] in s;
    if !shift {
      InRowReduces(p, q, x, t);
    }
  }

  lemma InRowReduces(p: Parser, q: int, r: int, t: int)
    requires p.a.IsLr0(p.g) && p.la.Ok(p.a) && p.a.IsState(q) && InLookahead(p.la, p.sets, q, r, t)
    ensures r in p.a.reductions[q] && 3 <= r < |p.g.rlhs|
  {
    RowInRange(p.g, p.a, p.la, q);
    hide Automaton.IsLr0;
    Basics(p.g, p.a);
    var k :| p.la.InRow(q, k) && 0 <= k < |p.sets| && p.la.ruleno[k] == r && t in p.sets[k];
    assert p.la.RowOk(p.a, q);
    var j := k - p.la.lookaheads[q];
    assert p.la.ruleno[p.la.lookaheads[q] + j] == p.a.reductions[q][j];
  }

  /** Sizes of the tables. */
  lemma TableSizes(p: Parser)
    requires p.Ok()
    ensures p.a.IsLr0(p.g) && p.a.Sized() && p.g.WellFormed() && p.pt.Sized(p.g, p.a)
    ensures |p.rows| == |p.defs| == |p.a.kernels|
    ensures |p.codes| == p.g.ntokens && RulesRefine(p.g, p.pt) && |p.g.rrhs| == |p.g.rlhs| + 1
  {
  }

  lemma CodeOf(p: Parser, t: int, u: int)
    requires p.Ok() && p.g.IsToken(t) && p.g.IsToken(u) && |p.codes| == p.g.ntokens && p.codes[t] == p.codes[u]
    ensures t == u && p.codes[t] >= 0
  {
  }

  /** Looking up the code of a token gives its live action, if any. */
  lemma LookupMeans(p: Parser, q: int, t: int, x: int)
    requires p.Ok() && p.a.IsState(q) && p.g.IsToken(t) && p.pt.Sized(p.g, p.a)
    requires |p.rows| == |p.defs| == |p.a.kernels| && |p.codes| == p.g.ntokens
    ensures Lookup(p.pt.packed, p.pt.sindex[q], p.codes[t]) == Some(x) <==> HasAction(p, q, true, t, x)
    ensures Lookup(p.pt.packed, p.pt.rindex[q], p.codes[t]) == Some(x) <==>
              HasAction(p, q, false, t, x + 2) && x + 2 != p.defs[q]
  {
    assert StateRefines(p.rows, p.defs, p.codes, p.pt, q);
    hide Parser.Ok, Lookup;
    CodeOf(p, t, t);
    assert ActsOn(p.rows[q], p.codes, true, p.defs[q], p.codes[t], x) <==> HasAction(p, q, true, t, x) by {
      ActsMeans(p, q, t, true, x);
    }
    ActsMeans(p, q, t, false, x + 2);
  }

  lemma ActsMeans(p: Parser, q: int, t: int, shift: bool, x: int)
    requires p.Ok() && p.a.IsState(q) && p.g.IsToken(t) && |p.rows| == |p.defs| == |p.a.kernels|
    requires |p.codes| == p.g.ntokens
    ensures ActsOn(p.rows[q], p.codes, shift, p.defs[q], p.codes[t], x) <==>
              HasAction(p, q, shift, t, x) && (shift || x != p.defs[q])
  {
    hide Parser.Ok;
    if ActsOn(p.rows[q], p.codes, shift, p.defs[q], p.codes[t], x) {
      var y :| y in p.rows[q] && Live(y) && y.isShift == shift && (shift || y.number != p.defs[q])
               && 0 <= y.symbol < |p.codes| && p.codes[y.symbol] == p.codes[t] && y.number == x;
      CodeOf(p, y.symbol, t);
    }
  }

  /** A default reduction is one of the state's. */
  lemma DefaultMeans(p: Parser, q: int)
    requires p.Ok() && p.a.IsState(q) && p.pt.Sized(p.g, p.a) && |p.defs| == |p.a.kernels|
    ensures p.pt.defred[q] == if p.defs[q] != 0 then p.defs[q] - 2 else 0
    ensures p.defs[q] != 0 ==> 3 <= p.defs[q] < |p.g.rlhs| && p.defs[q] in p.a.reductions[q]
  {
    assert StateRefines(p.rows, p.defs, p.codes, p.pt, q);
    var s := RowOf(p, q);
    hide Parser.Ok;
    if p.defs[q] != 0 {
      var y :| y in p.rows[q] && Live(y) && y.symbol != 1;
      assert HasAction(p, q, false, y.symbol, p.defs[q]);
      ActionMeans(p, q, false, y.symbol, p.defs[q]);
    }
  }

  // ----- One move -----

  ghost predicate IsLook(p: Parser, l: Look, t: int) {
    0 <= t < p.g.ntokens == |p.codes| && l == Look(p.codes[t], Leaf(t))
  }

  /** The tokens that have not been shifted. */
  ghost function Ahead(c: Config): seq<int> {
    if c.look.Some? && c.look.value.value.Leaf? then [c.look.value.value.token] + c.input else c.input
  }

  /** The stack is a way of the automaton, and the values above the entry token are
      parse trees of its symbols. */
  ghost predicate StackInv(p: Parser, c: Config)
    requires p.a.Sized()
  {
    && StackOk(p.a, c.states) && |c.values| == |c.states|
    && forall k :: 2 <= k < |c.states| ==>
         IsTree(p.g, c.values[k]) && Root(p.g, c.values[k]) == p.a.accessing[c.states[k]]
  }

  /** The stacks fit, and only tokens are read. */
  ghost predicate Ready(p: Parser, c: Config)
    requires p.Ok()
  {
    && p.a.Sized() && EntryOk(p.g) && |p.codes| == p.g.ntokens && StackInv(p, c)
    && (forall k :: 0 <= k < |c.input| ==> p.g.IsToken(c.input[k]))
    && (c.look.Some? ==> exists t :: p.g.IsToken(t) && c.look.value.code == p.codes[t])
  }

  /** The parse was started with the entry token; the shifted tokens, at the leaves of the
      values on the stack, and those ahead are the given ones. */
  ghost predicate Inv(p: Parser, entry: int, tokens: seq<int>, c: Config)
    requires p.Ok()
  {
    && Ready(p, c) && p.g.IsToken(entry) && IsEntryToken(p.g, entry)
    && if |c.states| == 1 then
         c.look.Some? && c.look.value.code == p.codes[entry] && c.input == tokens
       else
         && p.a.accessing[c.states[1]] == entry
         && (c.look.Some? ==> exists t :: IsLook(p, c.look.value, t))
         && Yields(c.values[2..]) + Ahead(c) == tokens
  }

  /** The machine at the start: only the entry token can be shifted.  What the previous
      parse has left is at the bottom of the value stack and is the entry token's value. */
  ghost function Initial(p: Parser, entry: int, stale: (Tree, Tree), tokens: seq<int>): Config
    requires 0 <= entry < |p.codes|
  {
    Config([0], [stale.0], Some(Look(p.codes[entry], stale.1)), tokens)
  }

  /** Rule `n` of the tables can be applied to the stack. */
  ghost predicate Applies(p: Parser, c: Config, n: int) {
    && |p.pt.packed.table| == |p.pt.packed.check| == p.pt.packed.size + 1
    && 1 <= n < |p.pt.lhs| == |p.pt.len| && 0 <= p.pt.len[n] < |c.states| == |c.values|
    && 0 <= p.pt.lhs[n] < |p.pt.gindex| == |p.pt.dgoto|
  }

  ghost function Reduced(p: Parser, c: Config, n: int): Outcome
    requires Applies(p, c, n)
  {
    var k := |c.states| - p.pt.len[n];
    if p.pt.lhs[n] == 0 then Accepted(c.values[|c.values| - 1])
    else Running(Config(c.states[..k] + [p.pt.Goto(c.states[k - 1], p.pt.lhs[n])],
                        c.values[..k] + [Node(n + 2, c.values[k..])], c.look, c.input))
  }

  /** A reduction of the state on top fits the stack, and the tables know it. */
  lemma ReductionFits(p: Parser, c: Config, r: int)
    requires p.Ok() && p.a.Sized() && StackInv(p, c) && 3 <= r < |p.g.rlhs| && r in p.a.reductions[Top(c.states)]
    ensures Applies(p, c, r - 2) && p.g.WellFormed() && p.g.IsRule(r)
    ensures p.pt.len[r - 2] == p.g.RhsLength(r) && p.pt.lhs[r - 2] == p.g.rlhs[r] - p.g.ntokens - 1
  {
    TableSizes(p);
    hide Parser.Ok, Automaton.IsLr0;
    RuleBounds(p.g, r);
    StackSpellsRule(p.g, p.a, c.states, r);
    assert p.pt.lhs[r - 2] == p.g.rlhs[r - 2 + 2] - p.g.ntokens - 1;
  }

  /** Whatever the tables say to reduce by fits the stack. */
  lemma LookupsFit(p: Parser, c: Config)
    requires p.Ok() && Ready(p, c)
    ensures p.pt.Sized(p.g, p.a) && p.a.IsState(Top(c.states))
    ensures p.pt.defred[Top(c.states)] != 0 ==> Applies(p, c, p.pt.defred[Top(c.states)])
    ensures c.look.Some? ==> forall n ::
              Lookup(p.pt.packed, p.pt.rindex[Top(c.states)], c.look.value.code) == Some(n) ==> Applies(p, c, n)
  {
    TableSizes(p);
    hide Parser.Ok, Automaton.IsLr0;
    var q := Top(c.states);
    DefaultMeans(p, q);
    if p.defs[q] != 0 {
      ReductionFits(p, c, p.defs[q]);
    }
    if c.look.Some? {
      var t :| p.g.IsToken(t) && c.look.value.code == p.codes[t];
      forall n | Lookup(p.pt.packed, p.pt.rindex[q], c.look.value.code) == Some(n)
        ensures Applies(p, c, n)
      {
        LookupMeans(p, q, t, n);
        ActionMeans(p, q, false, t, n + 2);
        ReductionFits(p, c, n + 2);
      }
    }
  }

  ghost function AfterRead(p: Parser, c: Config): Config
    requires c.input != [] && 0 <= c.input[0] < |p.codes|
  {
    Config(c.states, c.values, Some(Look(p.codes[c.input[0]], Leaf(c.input[0]))), c.input[1..])
  }

  ghost function AfterShift(c: Config, q: int): Config
    requires c.look.Some?
  {
    Config(c.states + [q], c.values + [c.look.value.value], None, c.input)
  }

  /** One move: a default reduction, reading a token, a shift or a reduction. */
  ghost function Step(p: Parser, c: Config): Outcome
    requires p.Ok() && Ready(p, c)
  {
    LookupsFit(p, c);
    var q := Top(c.states);
    var n := p.pt.defred[q];
    if n != 0 then Reduced(p, c, n)
    else match c.look
      case None =>
        if c.input == [] then Starved
        else Running(AfterRead(p, c))
      case Some(l) =>
        match Lookup(p.pt.packed, p.pt.sindex[q], l.code)
        case Some(q') => Running(AfterShift(c, q'))
        case None =>
          match Lookup(p.pt.packed, p.pt.rindex[q], l.code)
          case Some(r) => Reduced(p, c, r)
          case None => Rejected
  }

  /** State 0 only holds the openings of entry rules. */
  lemma {:induction false} BottomPath(g: Grammar, path: seq<int>, k: nat)
    requires EntryOk(g) && k < |path| && IsPath(g.ItemRelation(), path) && path[0] == 1
    ensures path[k] == 1 || exists r {:trigger IsEntryRule(g, r)} :: IsEntryRule(g, r) && path[k] == g.rrhs[r]
  {
    if k > 0 {
      BottomPath(g, path, k - 1);
      assert Edge(g.ItemRelation(), path[k - 1], path[k - 1 + 1]);
      assert g.Opens(path[k - 1], path[k]);
      var r :| g.IsRule(r) && g.rlhs[r] == g.ritem[path[k - 1]] && g.rrhs[r] == path[k];
      forall e | IsEntryRule(g, e)
        ensures path[k - 1] != g.rrhs[e]
      {
        EntryOpensNothing(g, e, path[k]);
      }
      assert IsEntryRule(g, r);
    }
  }

  lemma EntryOpensNothing(g: Grammar, e: int, j: int)
    requires EntryOk(g) && IsEntryRule(g, e)
    ensures !g.Opens(g.rrhs[e], j)
  {
    EntryNotEnd(g, e);
    assert g.Rhs(e)[0] == g.ritem[g.rrhs[e]];
    forall r | g.IsRule(r)
      ensures g.rlhs[r] != g.ritem[g.rrhs[e]]
    {
      assert g.RuleOk(r);
    }
  }

  lemma BottomNotReduced(g: Grammar, a: Automaton, r: int)
    requires a.IsLr0(g) && EntryOk(g)
    ensures r !in a.reductions[0]
  {
    if r in a.reductions[0] {
      assert a.StateOk(g, 0);
      var i := g.Terminator(r);
      assert a.In(g, 0, i) && a.kernels[0] == [1];
      RuleBounds(g, r);
      var path :| PathFromTo(g.ItemRelation(), path, 1, i);
      hide Automaton.IsLr0;
      BottomPath(g, path, |path| - 1);
    }
  }

  // ----- What every move keeps -----

  /** A shift keeps the invariant. */
  lemma ShiftKeeps(p: Parser, entry: int, tokens: seq<int>, c: Config, t: int, q: int)
    requires p.Ok() && Inv(p, entry, tokens, c) && c.look.Some? && p.g.IsToken(t) && c.look.value.code == p.codes[t]
    requires p.a.Trans(Top(c.states), t, q)
    ensures Inv(p, entry, tokens, AfterShift(c, q))
  {
    hide Parser.Ok, Automaton.IsLr0, EntryOk;
    var c' := AfterShift(c, q);
    assert StackOk(p.a, c'.states);
    if |c.states| == 1 {
      CodeOf(p, t, entry);
      assert c'.values[2..] == [];
    } else {
      var u :| IsLook(p, c.look.value, u);
      CodeOf(p, t, u);
      ShiftYields(c.values, u);
      assert Ahead(c) == [u] + c.input;
      assert Yields(c.values[2..]) + [u] + c.input == Yields(c.values[2..]) + ([u] + c.input);
    }
  }

  lemma ShiftYields(values: seq<Tree>, t: int)
    requires |values| >= 2
    ensures Yields((values + [Leaf(t)])[2..]) == Yields(values[2..]) + [t]
  {
    assert (values + [Leaf(t)])[2..] == values[2..] + [Leaf(t)];
    YieldsConcat(values[2..], [Leaf(t)]);
  }

  /** Reading a token keeps the invariant. */
  lemma ReadKeeps(p: Parser, entry: int, tokens: seq<int>, c: Config)
    requires p.Ok() && Inv(p, entry, tokens, c) && c.look.None? && c.input != []
    ensures Inv(p, entry, tokens, AfterRead(p, c))
  {
    hide Parser.Ok, EntryOk, StackOk;
    var t := c.input[0];
    var c' := AfterRead(p, c);
    assert IsLook(p, c'.look.value, t);
    assert Ahead(c') == Ahead(c);
  }

  /** The trees on top of the stack are children for the rule. */
  lemma TreesReduce(p: Parser, c: Config, r: int, k: int)
    requires p.Ok() && p.a.Sized() && StackInv(p, c) && p.a.IsLr0(p.g)
    requires p.g.WellFormed() && p.g.IsRule(r) && r in p.a.reductions[Top(c.states)]
    requires 2 <= k <= |c.states| && k == |c.states| - p.g.RhsLength(r)
    ensures IsTree(p.g, Node(r, c.values[k..])) && Root(p.g, Node(r, c.values[k..])) == p.g.rlhs[r]
  {
    StackSpellsRule(p.g, p.a, c.states, r);
    hide Parser.Ok, Automaton.IsLr0, StackOk, Grammar.WellFormed;
    TreesNode(p.g, r, c.values[k..]);
  }

  lemma TreesNode(g: Grammar, r: int, kids: seq<Tree>)
    requires g.WellFormed() && g.IsRule(r) && |kids| == g.RhsLength(r)
    requires forall j :: 0 <= j < |kids| ==> IsTree(g, kids[j]) && Root(g, kids[j]) == g.Rhs(r)[j]
    ensures IsTree(g, Node(r, kids)) && Root(g, Node(r, kids)) == g.rlhs[r]
  {
    assert Roots(g, kids) == g.Rhs(r);
  }

  /** Only an entry rule takes the entry token off the stack. */
  lemma EntryReduced(p: Parser, c: Config, entry: int, r: int)
    requires p.Ok() && p.a.Sized() && EntryOk(p.g) && StackInv(p, c) && p.a.IsLr0(p.g)
    requires p.g.IsRule(r) && r in p.a.reductions[Top(c.states)]
    requires |c.states| > 1 && p.a.accessing[c.states[1]] == entry && IsEntryToken(p.g, entry)
    requires p.g.RhsLength(r) == |c.states| - 1
    ensures IsEntryRule(p.g, r)
  {
    StackSpellsRule(p.g, p.a, c.states, r);
    hide Parser.Ok, StackOk, Automaton.IsLr0;
    assert SymbolsFrom(p.a, c.states, 1)[0] == entry;
    assert p.g.Rhs(r)[0] == entry;
  }

  lemma EntryBelow(p: Parser, c: Config, entry: int, r: int)
    requires p.Ok() && p.a.Sized() && EntryOk(p.g) && StackInv(p, c) && p.a.IsLr0(p.g)
    requires p.g.IsRule(r) && r in p.a.reductions[Top(c.states)] && !IsEntryRule(p.g, r)
    requires IsEntryToken(p.g, entry) && (|c.states| > 1 ==> p.a.accessing[c.states[1]] == entry)
    ensures 0 <= p.g.RhsLength(r) && 2 <= |c.states| - p.g.RhsLength(r)
  {
    StackSpellsRule(p.g, p.a, c.states, r);
    hide Parser.Ok, Automaton.IsLr0, IsEntryRule, IsEntryToken, EntryOk;
    BottomNotReduced(p.g, p.a, r);
    if |c.states| > 1 && p.g.RhsLength(r) == |c.states| - 1 {
      EntryReduced(p, c, entry, r);
    }
  }

  /** The goto tables give the automaton's move on the rule's variable. */
  lemma GotoMoves(p: Parser, q: int, r: int)
    requires p.Ok() && p.a.Sized() && p.g.WellFormed() && p.a.IsState(q) && 3 <= r < |p.g.rlhs|
    requires p.a.In(p.g, q, p.g.rrhs[r]) && p.pt.Sized(p.g, p.a)
    ensures 0 <= p.g.rlhs[r] - p.g.ntokens - 1 < |p.pt.gindex|
    ensures p.a.Trans(q, p.g.rlhs[r], p.pt.Goto(q, p.g.rlhs[r] - p.g.ntokens - 1))
  {
    assert p.g.IsRule(r) && GotoRefines(p.g, p.a, p.pt);
    OpeningHasGoto(p.g, p.a, q, r);
    assert p.g.RuleOk(r);
  }

  /** A reduction pops precisely the right-hand side and moves on the variable. */
  lemma ReducedPops(p: Parser, c: Config, r: int)
    requires p.Ok() && p.a.Sized() && StackInv(p, c) && p.a.IsLr0(p.g) && p.g.WellFormed() && 3 <= r < |p.g.rlhs|
    requires r in p.a.reductions[Top(c.states)] && Applies(p, c, r - 2) && p.g.rlhs[r] != p.g.Goal()
    ensures Reduced(p, c, r - 2).Running? && Reduces(p.g, p.a, c.states, r, Reduced(p, c, r - 2).c.states)
  {
    TableSizes(p);
    ReductionFits(p, c, r);
    StackSpellsRule(p.g, p.a, c.states, r);
    hide Parser.Ok, Automaton.IsLr0, Automaton.In, RulesRefine, Grammar.WellFormed, Automaton.Trans, ParserTables.Goto;
    var k := |c.states| - p.g.RhsLength(r);
    GotoMoves(p, c.states[k - 1], r);
    var s' := Reduced(p, c, r - 2).c.states;
    assert s'[..|s'| - 1] == c.states[..k] && Top(c.states[..k]) == c.states[k - 1];
  }

  lemma ReducedYields(values: seq<Tree>, k: int, r: int)
    requires 2 <= k <= |values|
    ensures Yields((values[..k] + [Node(r, values[k..])])[2..]) == Yields(values[2..])
  {
    assert (values[..k] + [Node(r, values[k..])])[2..] == values[2..k] + [Node(r, values[k..])];
    assert values[2..] == values[2..k] + values[k..];
    YieldsConcat(values[2..k], [Node(r, values[k..])]);
    YieldsConcat(values[2..k], values[k..]);
  }

  /** After a reduction the values are still parse trees of the stack's symbols. */
  lemma ReducedStack(p: Parser, c: Config, r: int, k: int)
    requires p.Ok() && p.a.IsLr0(p.g) && p.a.Sized() && StackInv(p, c) && p.g.WellFormed() && p.g.IsRule(r)
    requires 3 <= r && r in p.a.reductions[Top(c.states)] && Applies(p, c, r - 2) && p.g.rlhs[r] != p.g.Goal()
    requires p.pt.len[r - 2] == p.g.RhsLength(r) && 2 <= k <= |c.states| && k == |c.states| - p.g.RhsLength(r)
    ensures Reduced(p, c, r - 2).Running? && StackInv(p, Reduced(p, c, r - 2).c)
    ensures Reduced(p, c, r - 2).c.values == c.values[..k] + [Node(r, c.values[k..])]
  {
    hide Parser.Ok, Automaton.IsLr0, Grammar.WellFormed, StackInv, StackOk, Reduced, Applies, Reduces, IsTree, Root;
    RuleBounds(p.g, r);
    ReducedPops(p, c, r);
    ReducedIs(p, c, r, k);
    var c' := Reduced(p, c, r - 2).c;
    ReducesKeepsStack(p.g, p.a, c.states, r, c'.states);
    TreesReduce(p, c, r, k);
    TreesPushed(p, c, c', r, k);
  }

  lemma ReducedIs(p: Parser, c: Config, r: int, k: int)
    requires 0 <= r < |p.g.rlhs| && |p.g.rrhs| == |p.g.rlhs| + 1
    requires Applies(p, c, r - 2) && p.pt.len[r - 2] == p.g.RhsLength(r) && Reduced(p, c, r - 2).Running?
    requires 2 <= k <= |c.states| && k == |c.states| - p.g.RhsLength(r)
    ensures |c.states| == |c.values|
    ensures var c' := Reduced(p, c, r - 2).c;
            |c'.states| == k + 1 && c'.states[..k] == c.states[..k] &&
              c'.values == c.values[..k] + [Node(r, c.values[k..])]
  {
  }

  lemma TreesPushed(p: Parser, c: Config, c': Config, r: int, k: int)
    requires p.a.IsLr0(p.g) && p.a.Sized() && StackInv(p, c) && StackOk(p.a, c'.states)
    requires Reduces(p.g, p.a, c.states, r, c'.states)
    requires |c'.states| == k + 1 && 2 <= k <= |c.states| == |c.values| && c'.states[..k] == c.states[..k]
    requires c'.values == c.values[..k] + [Node(r, c.values[k..])]
    requires IsTree(p.g, Node(r, c.values[k..])) && Root(p.g, Node(r, c.values[k..])) == p.g.rlhs[r]
    ensures StackInv(p, c')
  {
    hide Automaton.IsLr0, IsTree, Root;
    assert Top(c'.states) == c'.states[k] && p.a.accessing[c'.states[k]] == p.g.rlhs[r];
    forall l | 2 <= l < |c'.states|
      ensures IsTree(p.g, c'.values[l]) && Root(p.g, c'.values[l]) == p.a.accessing[c'.states[l]]
    {
      if l < k {
        assert c'.states[l] == c'.states[..k][l] == c.states[..k][l] == c.states[l];
      }
    }
  }

  /** A reduction that does not end the parse keeps the invariant. */
  lemma ReduceKeeps(p: Parser, entry: int, tokens: seq<int>, c: Config, r: int)
    requires p.Ok() && Inv(p, entry, tokens, c) && p.a.IsLr0(p.g)
    requires 3 <= r < |p.g.rlhs| && r in p.a.reductions[Top(c.states)] && Applies(p, c, r - 2)
    requires p.g.rlhs[r] != p.g.Goal()
    ensures Reduced(p, c, r - 2).Running? && Inv(p, entry, tokens, Reduced(p, c, r - 2).c)
  {
    hide Parser.Ok, Automaton.IsLr0, Grammar.WellFormed, EntryOk, StackInv;
    ReductionFits(p, c, r);
    RuleBounds(p.g, r);
    EntryBelow(p, c, entry, r);
    StackSizes(p, c);
    var k := |c.states| - p.g.RhsLength(r);
    ReducedStack(p, c, r, k);
    ReducedYields(c.values, k, r);
    assert Ahead(Reduced(p, c, r - 2).c) == Ahead(c);
  }

  lemma StackSizes(p: Parser, c: Config)
    requires p.a.Sized() && StackInv(p, c)
    ensures |c.states| == |c.values| > 0
  {
  }

  /** The rules that a move reduces by are reductions of the state on top. */
  lemma StepReduces(p: Parser, c: Config) returns (r: int)
    requires p.Ok() && Ready(p, c) && p.pt.Sized(p.g, p.a)
    requires var n := p.pt.defred[Top(c.states)];
             n != 0 || (c.look.Some? && Lookup(p.pt.packed, p.pt.sindex[Top(c.states)], c.look.value.code).None?
                        && Lookup(p.pt.packed, p.pt.rindex[Top(c.states)], c.look.value.code).Some?)
    ensures 3 <= r < |p.g.rlhs| && r in p.a.reductions[Top(c.states)] && Applies(p, c, r - 2)
    ensures Step(p, c) == Reduced(p, c, r - 2)
    ensures p.pt.lhs[r - 2] == p.g.rlhs[r] - p.g.Goal()
  {
    hide *;
    TableSizes(p);
    ReadyTop(p, c);
    var q := Top(c.states);
    DefaultMeans(p, q);
    if p.defs[q] != 0 {
      r := p.defs[q];
    } else {
      r := LookedUp(p, c, q);
    }
    ReductionFits(p, c, r);
    StepIsReduction(p, c, r - 2);
    GoalIs(p.g);
  }

  lemma GoalIs(g: Grammar)
    ensures g.Goal() == g.ntokens + 1
  {
  }

  lemma ReadyTop(p: Parser, c: Config)
    requires p.Ok() && Ready(p, c)
    ensures p.a.Sized() && StackInv(p, c) && c.states != [] && p.a.IsState(Top(c.states))
    ensures 0 <= Top(c.states) < |p.a.kernels|
    ensures |p.codes| == p.g.ntokens && (c.look.Some? ==> exists t :: p.g.IsToken(t) && c.look.value.code == p.codes[t])
  {
    hide Parser.Ok;
  }

  /** What the tables say to reduce by. */
  lemma LookedUp(p: Parser, c: Config, q: int) returns (r: int)
    requires p.Ok() && Ready(p, c) && p.pt.Sized(p.g, p.a) && p.a.IsState(q) && |p.rows| == |p.defs| == |p.a.kernels|
    requires c.look.Some? && Lookup(p.pt.packed, p.pt.rindex[q], c.look.value.code).Some?
    ensures 3 <= r < |p.g.rlhs| && r in p.a.reductions[q]
    ensures Lookup(p.pt.packed, p.pt.rindex[q], c.look.value.code) == Some(r - 2)
  {
    hide Parser.Ok, Ready, Lookup, StackInv, HasAction, InLookahead;
    ReadyTop(p, c);
    var n := Lookup(p.pt.packed, p.pt.rindex[q], c.look.value.code).value;
    r := n + 2;
    var t :| p.g.IsToken(t) && c.look.value.code == p.codes[t];
    LookupMeans(p, q, t, n);
    ActionMeans(p, q, false, t, n + 2);
  }

  lemma StepIsReduction(p: Parser, c: Config, n: int)
    requires p.Ok() && Ready(p, c) && Applies(p, c, n) && p.pt.Sized(p.g, p.a) && c.states != []
    requires p.a.IsState(Top(c.states)) && n != 0
    requires p.pt.defred[Top(c.states)] == n ||
             (p.pt.defred[Top(c.states)] == 0 && c.look.Some? &&
              Lookup(p.pt.packed, p.pt.sindex[Top(c.states)], c.look.value.code).None? &&
              Lookup(p.pt.packed, p.pt.rindex[Top(c.states)], c.look.value.code) == Some(n))
    ensures Step(p, c) == Reduced(p, c, n)
  {
    hide Parser.Ok, StackInv, EntryOk, Lookup;
  }

  datatype Kind = ByRule(r: int) | ReadNext | ShiftTo(t: int, q: int) | Halt

  ghost predicate StepIs(p: Parser, c: Config, k: Kind)
    requires p.Ok() && Ready(p, c)
  {
    match k
    case ByRule(r) =>
      && 3 <= r < |p.g.rlhs| && r in p.a.reductions[Top(c.states)] && Applies(p, c, r - 2)
      && p.pt.lhs[r - 2] == p.g.rlhs[r] - p.g.Goal() && Step(p, c) == Reduced(p, c, r - 2)
    case ReadNext => c.look.None? && c.input != [] && Step(p, c) == Running(AfterRead(p, c))
    case ShiftTo(t, q) =>
      && c.look.Some? && p.g.IsToken(t) && c.look.value.code == p.codes[t]
      && p.a.Trans(Top(c.states), t, q) && Step(p, c) == Running(AfterShift(c, q))
    case Halt => Step(p, c).Rejected? || Step(p, c).Starved?
  }

  /** Each move reduces by a rule of the state on top, reads, shifts along a move of the
      automaton, or ends the parse without a value. */
  lemma StepKind(p: Parser, c: Config) returns (k: Kind)
    requires p.Ok() && Ready(p, c)
    ensures StepIs(p, c, k)
  {
    TableSizes(p);
    LookupsFit(p, c);
    hide Parser.Ok, Automaton.IsLr0, EntryOk, Grammar.WellFormed, Reduced, StackInv, RulesRefine, Lookup;
    var q := Top(c.states);
    if p.pt.defred[q] != 0 {
      var r := StepReduces(p, c);
      return ByRule(r);
    }
    match c.look {
      case None => k := if c.input == [] then Halt else ReadNext;
      case Some(l) =>
        match Lookup(p.pt.packed, p.pt.sindex[q], l.code) {
          case Some(q') =>
            var t := ShiftMeans(p, c, q');
            k := ShiftTo(t, q');
          case None =>
            if Lookup(p.pt.packed, p.pt.rindex[q], l.code).Some? {
              var r := StepReduces(p, c);
              k := ByRule(r);
            } else {
              k := Halt;
            }
        }
    }
  }

  lemma ShiftMeans(p: Parser, c: Config, q: int) returns (t: int)
    requires p.Ok() && Ready(p, c) && c.look.Some? && p.pt.Sized(p.g, p.a) && p.a.IsState(Top(c.states))
    requires Lookup(p.pt.packed, p.pt.sindex[Top(c.states)], c.look.value.code) == Some(q)
    ensures p.g.IsToken(t) && c.look.value.code == p.codes[t] && p.a.Trans(Top(c.states), t, q)
  {
    TableSizes(p);
    hide Parser.Ok, Automaton.IsLr0, Lookup, EntryOk;
    t :| p.g.IsToken(t) && c.look.value.code == p.codes[t];
    LookupMeans(p, Top(c.states), t, q);
    ActionMeans(p, Top(c.states), true, t, q);
  }

  /** A parse error comes exactly when the state on top has no default reduction and no live action on
      the token that has been read. */
  lemma RejectsExactly(p: Parser, c: Config, t: int)
    requires p.Ok() && Ready(p, c) && c.look.Some? && p.g.IsToken(t) && |p.codes| == p.g.ntokens
    requires c.look.value.code == p.codes[t]
    ensures c.states != [] && p.a.IsState(Top(c.states)) && |p.rows| == |p.defs| == |p.a.kernels|
    ensures Step(p, c).Rejected? <==>
              p.defs[Top(c.states)] == 0 && forall shift, x :: !HasAction(p, Top(c.states), shift, t, x)
  {
    TableSizes(p);
    ReadyTop(p, c);
    LookupsFit(p, c);
    hide Parser.Ok, Automaton.IsLr0, EntryOk, Grammar.WellFormed, StackInv, Lookup, HasAction, Applies;
    var q := Top(c.states);
    DefaultMeans(p, q);
    if p.pt.defred[q] != 0 {
      NotRejected(p, c, p.pt.defred[q]);
    } else {
      match Lookup(p.pt.packed, p.pt.sindex[q], p.codes[t]) {
        case Some(x) => LookupMeans(p, q, t, x);
        case None =>
          match Lookup(p.pt.packed, p.pt.rindex[q], p.codes[t]) {
            case Some(n) =>
              LookupMeans(p, q, t, n);
              NotRejected(p, c, n);
            case None =>
              forall shift, x
                ensures !HasAction(p, q, shift, t, x)
              {
                LookupMeans(p, q, t, x);
                ActionBounds(p, q, t, x);
              }
          }
      }
    }
  }

  lemma NotRejected(p: Parser, c: Config, n: int)
    requires Applies(p, c, n)
    ensures !Reduced(p, c, n).Rejected?
  {
  }

  lemma ActionBounds(p: Parser, q: int, t: int, x: int)
    requires p.Ok() && p.a.IsState(q) && p.g.IsToken(t) && p.pt.Sized(p.g, p.a)
    requires |p.rows| == |p.defs| == |p.a.kernels| && |p.codes| == p.g.ntokens && p.defs[q] == 0
    ensures Lookup(p.pt.packed, p.pt.rindex[q], p.codes[t]) == Some(x - 2) <==> HasAction(p, q, false, t, x)
  {
    hide Parser.Ok, Lookup, HasAction;
    LookupMeans(p, q, t, x - 2);
    if HasAction(p, q, false, t, x) {
      ActionMeans(p, q, false, t, x);
    }
  }

  lemma InvReady(p: Parser, entry: int, tokens: seq<int>, c: Config)
    requires p.Ok() && Inv(p, entry, tokens, c)
    ensures Ready(p, c) && p.a.IsLr0(p.g)
  {
  }

  /** Every move keeps the invariant. */
  lemma StepKeeps(p: Parser, entry: int, tokens: seq<int>, c: Config)
    requires p.Ok() && Inv(p, entry, tokens, c)
    ensures Step(p, c).Running? ==> Inv(p, entry, tokens, Step(p, c).c)
  {
    hide Parser.Ok, Automaton.IsLr0, Inv, Ready, Step;
    InvReady(p, entry, tokens, c);
    var k := StepKind(p, c);
    match k
    case ByRule(r) =>
      if p.g.rlhs[r] != p.g.Goal() {
        ReduceKeeps(p, entry, tokens, c, r);
      }
    case ReadNext => ReadKeeps(p, entry, tokens, c);
    case ShiftTo(t, q) => ShiftKeeps(p, entry, tokens, c, t, q);
    case Halt =>
  }

  /** The value is a parse tree for the variable of the entry token. */
  ghost predicate IsParse(g: Grammar, entry: int, v: Tree) {
    && g.WellFormed() && IsTree(g, v)
    && exists r {:trigger IsEntryRule(g, r)} :: IsEntryRule(g, r) && g.Rhs(r) == [entry, Root(g, v)]
  }

  /** The parse ends with a parse tree for the tokens that have been shifted. */
  lemma AcceptMeans(p: Parser, entry: int, tokens: seq<int>, c: Config)
    requires p.Ok() && Inv(p, entry, tokens, c) && Step(p, c).Accepted?
    ensures IsParse(p.g, entry, Step(p, c).value)
    ensures Yield(Step(p, c).value) + Ahead(c) == tokens
  {
    hide Parser.Ok, Automaton.IsLr0, Grammar.WellFormed, Step;
    InvReady(p, entry, tokens, c);
    var k := StepKind(p, c);
    EntryStack(p, c, k.r);
    assert c.values[2..] == [c.values[2]];
    assert Yields([c.values[2]]) == Yield(c.values[2]) + Yields([]);
  }

  /** When an entry rule is reduced, the stack holds just its two symbols. */
  lemma EntryStack(p: Parser, c: Config, r: int)
    requires p.a.IsLr0(p.g) && p.a.Sized() && EntryOk(p.g) && StackInv(p, c)
    requires 3 <= r < |p.g.rlhs| && p.g.rlhs[r] == p.g.Goal() && r in p.a.reductions[Top(c.states)]
    ensures |c.states| == 3 && IsEntryRule(p.g, r)
    ensures p.g.Rhs(r) == [p.a.accessing[c.states[1]], p.a.accessing[c.states[2]]]
  {
    StackSpellsRule(p.g, p.a, c.states, r);
    hide Automaton.IsLr0;
    assert IsEntryRule(p.g, r) && p.g.RhsLength(r) == 2;
    var k := |c.states| - 2;
    EntryOpening(p.g, p.a, c.states[k - 1], r);
    if k > 1 {
      IntoBottom(p.g, p.a, c.states[k - 2], p.a.accessing[c.states[k - 1]]);
    }
  }

  lemma IntoBottom(g: Grammar, a: Automaton, p: int, s: int)
    requires a.IsLr0(g)
    ensures !a.Trans(p, s, 0)
  {
    assert a.IsState(p) ==> a.StateOk(g, p);
  }

  /** `n` moves, or fewer when the parse ends. */
  ghost function Run(p: Parser, entry: int, tokens: seq<int>, c: Config, n: nat): (o: Outcome)
    requires p.Ok() && Inv(p, entry, tokens, c)
    ensures o.Running? ==> Inv(p, entry, tokens, o.c)
    decreases n
  {
    if n == 0 then Running(c)
    else
      StepKeeps(p, entry, tokens, c);
      match Step(p, c)
      case Running(c') => Run(p, entry, tokens, c', n - 1)
      case _ => Step(p, c)
  }

  lemma InitialInv(p: Parser, entry: int, stale: (Tree, Tree), tokens: seq<int>)
    requires p.Ok() && EntryOk(p.g) && |p.codes| == p.g.ntokens && p.g.IsToken(entry) && IsEntryToken(p.g, entry)
    requires forall k :: 0 <= k < |tokens| ==> p.g.IsToken(tokens[k])
    ensures Inv(p, entry, tokens, Initial(p, entry, stale, tokens))
  {
    TableSizes(p);
  }

  /** Parser soundness.  Whatever the parse does, when it accepts, its value is a parse
      tree for the variable of the entry token, and the tree's leaves are the tokens
      that were consumed, in their order. */
  lemma {:induction false} Soundness(p: Parser, entry: int, tokens: seq<int>, c: Config, n: nat)
    requires p.Ok() && Inv(p, entry, tokens, c)
    requires Run(p, entry, tokens, c, n).Accepted?
    ensures IsParse(p.g, entry, Run(p, entry, tokens, c, n).value)
    ensures Yield(Run(p, entry, tokens, c, n).value) <= tokens
    decreases n
  {
    hide Parser.Ok, Ready, IsParse;
    StepKeeps(p, entry, tokens, c);
    if Step(p, c).Running? {
      Soundness(p, entry, tokens, Step(p, c).c, n - 1);
    } else {
      AcceptMeans(p, entry, tokens, c);
    }
  }
}
