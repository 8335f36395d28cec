/** Without conflicts the machine finds every parse tree: the lookahead sets hold every
    token that can come next, so each node of the tree is reduced in its turn. */
module Completeness {
  import opened Options
  import opened Grammars
  import opened Trees
  import opened Lookahead
  import opened Reduction
  import opened Lalr
  import opened Conflicts
  import opened Packing
  import opened Output
  import opened Generator
  import opened Machine
  import opened Delays

  // ----- The first token of a tree can be read -----

  /** Token `t` can be read in state `q`, possibly after nullable variables. */
  ghost predicate Readable(g: Grammar, a: Automaton, read: Family, q: int, t: int)
    requires a.Sized()
  {
    || (g.IsToken(t) && exists q' :: a.Trans(q, t, q'))
    || exists m :: m in read && m.state == q && IsMove(g, a, m) && Nullable(g, m.symbol) && t in read[m]
  }

  lemma ReadableRead(g: Grammar, a: Automaton, read: Family, follow: Family, p: int, s: int, q: int, t: int)
    requires a.Sized() && g.WellFormed() && Satisfies(g, a, read, follow)
    requires a.Trans(p, s, q) && g.IsVar(s) && Readable(g, a, read, q, t)
    ensures Move(p, s) in read && t in read[Move(p, s)]
  {
    hide Nullable, Includes;
    assert IsMove(g, a, Move(p, s));
    if g.IsToken(t) && exists q' :: a.Trans(q, t, q') {
      assert DirectRead(g, a, Move(p, s), t);
    } else {
      var m :| m in read && m.state == q && IsMove(g, a, m) && Nullable(g, m.symbol) && t in read[m];
      assert Reads(g, a, Move(p, s), m);
    }
  }

  /** The trees are those of the right-hand side of the rule from position `k` on. */
  ghost predicate Suffix(g: Grammar, r: int, k: int, ts: seq<Tree>)
    requires g.WellFormed()
  {
    && 3 <= r < |g.rlhs| && 0 <= k && k + |ts| == g.RhsLength(r) && g.IsRule(r)
    && forall j :: 0 <= j < |ts| ==> IsTree(g, ts[j]) && Root(g, ts[j]) == g.Rhs(r)[k + j]
  }

  lemma {:induction false} FirstOfTree(g: Grammar, a: Automaton, read: Family, follow: Family, q: int, t: Tree, q': int)
    requires a.IsLr0(g) && Satisfies(g, a, read, follow) && a.Trans(q, Root(g, t), q')
    requires IsTree(g, t) && Yield(t) != []
    ensures Readable(g, a, read, q, Yield(t)[0])
    decreases t, 0
  {
    hide Automaton.IsLr0, Satisfies;
    Basics(g, a);
    match t
    case Leaf(token) =>
    case Node(r, kids) =>
      NodeSuffix(g, a, q, t, q');
      GotoHasOpening(g, a, q, q', r);
      FirstOfForest(g, a, read, follow, q, r, 0, kids);
  }

  /** A tree on whose root the automaton moves is not one of the augmented rule. */
  lemma NodeSuffix(g: Grammar, a: Automaton, q: int, t: Tree, q': int)
    requires a.IsLr0(g) && IsTree(g, t) && t.Node? && a.Trans(q, Root(g, t), q')
    ensures Suffix(g, t.rule, 0, t.kids) && Root(g, t) == g.rlhs[t.rule] && g.IsVar(Root(g, t))
  {
    NoStartMove(g, a, q, Root(g, t), q');
    hide Automaton.IsLr0;
    Basics(g, a);
    RuleBounds(g, t.rule);
    forall j | 0 <= j < |t.kids|
      ensures Root(g, t.kids[j]) == g.Rhs(t.rule)[j]
    {
      assert Roots(g, t.kids)[j] == g.Rhs(t.rule)[j];
    }
  }

  lemma {:induction false} FirstOfForest(g: Grammar, a: Automaton, read: Family, follow: Family, q: int, r: int, k: int,
                                         ts: seq<Tree>)
    requires a.IsLr0(g) && Satisfies(g, a, read, follow) && a.IsState(q)
    requires Suffix(g, r, k, ts) && a.In(g, q, g.rrhs[r] + k) && Yields(ts) != []
    ensures Readable(g, a, read, q, Yields(ts)[0])
    decreases ts, 1
  {
    hide Automaton.IsLr0, Satisfies, Readable, Automaton.In;
    Basics(g, a);
    var q' := AdvanceItem(g, a, q, r, k);
    if Yield(ts[0]) != [] {
      FirstOfTree(g, a, read, follow, q, ts[0], q');
      assert Yields(ts)[0] == Yield(ts[0])[0];
    } else {
      FirstOfForest(g, a, read, follow, q', r, k + 1, ts[1..]);
      NullableFirst(g, ts[0]);
      PassNullable(g, a, read, follow, q, Root(g, ts[0]), q', Yields(ts)[0]);
    }
  }

  lemma NullableFirst(g: Grammar, t: Tree)
    requires IsTree(g, t) && Yield(t) == []
    ensures Nullable(g, Root(g, t)) && g.WellFormed() && g.IsVar(Root(g, t))
  {
    assert g.RuleOk(t.rule);
  }

  lemma PassNullable(g: Grammar, a: Automaton, read: Family, follow: Family, p: int, s: int, q: int, t: int)
    requires a.Sized() && g.WellFormed() && Satisfies(g, a, read, follow)
    requires a.Trans(p, s, q) && g.IsVar(s) && Nullable(g, s) && Readable(g, a, read, q, t)
    ensures Readable(g, a, read, p, t)
  {
    ReadableRead(g, a, read, follow, p, s, q, t);
    hide Nullable, Satisfies;
    assert IsMove(g, a, Move(p, s));
  }

  /** The token after a child can follow the move on it: the first one of its right
      siblings, or what follows the parent when they are empty. */
  lemma FollowsChild(g: Grammar, a: Automaton, follow: Family, p0: int, r: int, k: int, p: int, s: int, q: int,
                     rest: seq<Tree>, t: int)
    requires a.IsLr0(g) && IsFollow(g, a, follow) && Defined(g, a, follow)
    requires Suffix(g, r, k + 1, rest) && 0 <= k && s == g.Rhs(r)[k] && g.IsVar(s)
    requires Move(p0, g.rlhs[r]) in follow && t in follow[Move(p0, g.rlhs[r])]
    requires Spells(a, p0, g.Rhs(r)[..k], p) && a.Trans(p, s, q) && a.In(g, q, g.rrhs[r] + k + 1)
    ensures Move(p, s) in follow && (Yields(rest) + [t])[0] in follow[Move(p, s)]
  {
    hide Automaton.IsLr0, Automaton.In, Spells, Readable, Nullable;
    Basics(g, a);
    var read :| Satisfies(g, a, read, follow);
    assert IsMove(g, a, Move(p, s));
    if Yields(rest) == [] {
      RestNullable(g, r, k, rest);
      assert IncludesVia(g, a, Move(p, s), Move(p0, g.rlhs[r]), r, k);
      assert Includes(g, a, Move(p, s), Move(p0, g.rlhs[r]));
    } else {
      FirstOfForest(g, a, read, follow, q, r, k + 1, rest);
      ReadableRead(g, a, read, follow, p, s, q, Yields(rest)[0]);
    }
  }

  lemma RestNullable(g: Grammar, r: int, k: int, rest: seq<Tree>)
    requires g.WellFormed() && 0 <= k && Suffix(g, r, k + 1, rest) && Yields(rest) == []
    ensures NullableAfter(g, r, k)
  {
    forall j | k < j < g.RhsLength(r)
      ensures Nullable(g, g.Rhs(r)[j])
    {
      YieldsNone(rest, j - k - 1);
      assert Root(g, rest[j - k - 1]) == g.Rhs(r)[j];
    }
  }

  // ----- Moves of the machine on a token that can come next -----

  ghost predicate NoConflicts(p: Parser) {
    forall q, x {:trigger x in p.rows[q]} :: 0 <= q < |p.rows| && x in p.rows[q] ==> Live(x)
  }

  /** The machine gets from `c` to `c'`. */
  ghost predicate Goes(p: Parser, entry: int, tokens: seq<int>, c: Config, c': Config)
    requires p.Ok()
  {
    Inv(p, entry, tokens, c) && exists n: nat :: Run(p, entry, tokens, c, n) == Running(c')
  }

  lemma {:induction false} RunOn(p: Parser, entry: int, tokens: seq<int>, c: Config, m: nat, c': Config, n: nat)
    requires p.Ok() && Inv(p, entry, tokens, c) && Run(p, entry, tokens, c, m) == Running(c')
    ensures Inv(p, entry, tokens, c') && Run(p, entry, tokens, c, m + n) == Run(p, entry, tokens, c', n)
    decreases m
  {
    hide Parser.Ok, Inv, Step, Ready;
    if m > 0 {
      StepKeeps(p, entry, tokens, c);
      InvReady(p, entry, tokens, c);
      RunOn(p, entry, tokens, Step(p, c).c, m - 1, c', n);
    }
  }

  lemma GoesOn(p: Parser, entry: int, tokens: seq<int>, c: Config, c': Config, c'': Config)
    requires p.Ok() && Goes(p, entry, tokens, c, c') && Goes(p, entry, tokens, c', c'')
    ensures Goes(p, entry, tokens, c, c'')
  {
    hide Parser.Ok, Inv, Run;
    var m: nat :| Run(p, entry, tokens, c, m) == Running(c');
    var n: nat :| Run(p, entry, tokens, c', n) == Running(c'');
    RunOn(p, entry, tokens, c, m, c', n);
  }

  lemma GoesStep(p: Parser, entry: int, tokens: seq<int>, c: Config, c': Config)
    requires p.Ok() && Inv(p, entry, tokens, c) && Ready(p, c) && Step(p, c) == Running(c')
    ensures Goes(p, entry, tokens, c, c') && Inv(p, entry, tokens, c')
  {
    StepKeeps(p, entry, tokens, c);
    hide Parser.Ok, Inv, Step, Ready;
    assert Run(p, entry, tokens, c', 0) == Running(c');
    assert Run(p, entry, tokens, c, 1) == Running(c');
  }

  lemma GoesSelf(p: Parser, entry: int, tokens: seq<int>, c: Config)
    requires p.Ok() && Inv(p, entry, tokens, c)
    ensures Goes(p, entry, tokens, c, c)
  {
    hide Parser.Ok, Inv, Ready;
    assert Run(p, entry, tokens, c, 0) == Running(c);
  }

  /** The next token, after the entry token has been shifted. */
  ghost predicate Next(c: Config, t: int) {
    |c.states| > 1 && Ahead(c) != [] && Ahead(c)[0] == t
  }

  ghost predicate SameStacks(c: Config, c': Config) {
    c'.states == c.states && c'.values == c.values && Ahead(c') == Ahead(c)
  }

  /** When the state has no default, the next token gets read. */
  lemma TokenRead(p: Parser, entry: int, tokens: seq<int>, c: Config, t: int) returns (c': Config)
    requires p.Ok() && Inv(p, entry, tokens, c) && Next(c, t) && p.pt.Sized(p.g, p.a) && p.a.IsState(Top(c.states))
    requires p.pt.defred[Top(c.states)] == 0
    ensures Goes(p, entry, tokens, c, c') && SameStacks(c, c') && Inv(p, entry, tokens, c')
    ensures p.g.IsToken(t) && c'.look == Some(Look(p.codes[t], Leaf(t)))
  {
    InvReady(p, entry, tokens, c);
    hide Parser.Ok, Automaton.IsLr0, EntryOk, StackInv, Goes;
    if c.look.None? {
      c' := AfterRead(p, c);
      GoesStep(p, entry, tokens, c, c');
    } else {
      c' := c;
      GoesSelf(p, entry, tokens, c);
      var u :| IsLook(p, c.look.value, u);
      assert u == t;
    }
  }

  /** The row of the state has the action, and no default stands in its way. */
  lemma ShiftActs(p: Parser, q: int, t: int, q': int)
    requires p.Ok() && NoConflicts(p) && p.a.Sized() && p.a.Trans(q, t, q') && p.g.IsToken(t)
    ensures p.pt.Sized(p.g, p.a) && |p.codes| == p.g.ntokens && p.pt.defred[q] == 0
    ensures Lookup(p.pt.packed, p.pt.sindex[q], p.codes[t]) == Some(q')
  {
    TableSizes(p);
    var s := RowOf(p, q);
    hide Parser.Ok, Automaton.IsLr0, Settled, Lookup;
    DefaultMeans(p, q);
    assert HasShiftAction(s, t, q');
    var x :| x in s && x.isShift && x.symbol == t && x.number == q';
    var i :| 0 <= i < |s| && s[i] == x;
    assert p.rows[q][i] in p.rows[q];
    assert HasAction(p, q, true, t, q');
    LookupMeans(p, q, t, q');
  }

  lemma ReductionInRow(p: Parser, q: int, t: int, r: int) returns (i: int)
    requires p.Ok() && NoConflicts(p) && p.a.Sized() && p.a.IsState(q) && p.g.IsToken(t)
    requires InLookahead(p.la, p.sets, q, r, t)
    ensures |p.rows| == |p.a.kernels| && 0 <= i < |p.rows[q]| && Live(p.rows[q][i]) && p.rows[q][i].symbol == t
    ensures !p.rows[q][i].isShift && p.rows[q][i].number == r
  {
    var s := RowOf(p, q);
    hide Parser.Ok, Automaton.IsLr0, Settled, InLookahead;
    assert HasReduceAction(s, t, r);
    var x :| x in s && !x.isShift && x.symbol == t && x.number == r;
    i :| 0 <= i < |s| && s[i] == x;
    assert p.rows[q][i] in p.rows[q];
  }

  lemma ReduceActs(p: Parser, q: int, t: int, r: int)
    requires p.Ok() && NoConflicts(p) && p.a.Sized() && p.a.IsState(q) && p.g.IsToken(t) && p.pt.Sized(p.g, p.a)
    requires InLookahead(p.la, p.sets, q, r, t) && |p.codes| == p.g.ntokens
    ensures if p.pt.defred[q] != 0 then p.pt.defred[q] == r - 2
            else Lookup(p.pt.packed, p.pt.sindex[q], p.codes[t]).None? &&
                 Lookup(p.pt.packed, p.pt.rindex[q], p.codes[t]) == Some(r - 2)
  {
    TableSizes(p);
    var i := ReductionInRow(p, q, t, r);
    DefaultMeans(p, q);
    var s := RowOf(p, q);
    hide Parser.Ok, Automaton.IsLr0, Lookup, NoConflicts, InLookahead, IsRow, SameActions, Settled;
    assert p.rows[q][i] in p.rows[q];
    assert HasAction(p, q, false, t, r);
    LookupMeans(p, q, t, r - 2);
    OneAction(p, q, t, i);
  }

  /** A token with a live reduction has no live shift. */
  lemma OneAction(p: Parser, q: int, t: int, i: int)
    requires p.Ok() && p.a.IsState(q) && p.g.IsToken(t) && p.pt.Sized(p.g, p.a) && |p.rows| == |p.defs| == |p.a.kernels|
    requires |p.codes| == p.g.ntokens && 0 <= i < |p.rows[q]| && Live(p.rows[q][i]) && p.rows[q][i].symbol == t
    requires !p.rows[q][i].isShift
    ensures Lookup(p.pt.packed, p.pt.sindex[q], p.codes[t]).None?
  {
    var s := RowOf(p, q);
    hide Parser.Ok, Automaton.IsLr0, Lookup;
    match Lookup(p.pt.packed, p.pt.sindex[q], p.codes[t])
    case None =>
    case Some(x) =>
      LookupMeans(p, q, t, x);
      var y :| y in p.rows[q] && Live(y) && y.isShift && y.symbol == t && y.number == x;
      var j :| 0 <= j < |p.rows[q]| && p.rows[q][j] == y;
  }

  /** The tree has been put on the stack and its tokens taken from those ahead. */
  ghost predicate Pushed(c: Config, c': Config, q: int, v: Tree) {
    && c'.states == c.states + [q] && c'.values == c.values + [v]
    && |Yield(v)| <= |Ahead(c)| && Ahead(c') == Ahead(c)[|Yield(v)|..]
  }

  lemma ShiftGoes(p: Parser, entry: int, tokens: seq<int>, c: Config, t: int, q: int) returns (c': Config)
    requires p.Ok() && NoConflicts(p) && Inv(p, entry, tokens, c) && Next(c, t) && p.a.Trans(Top(c.states), t, q)
    requires p.g.IsToken(t)
    ensures Goes(p, entry, tokens, c, c') && Inv(p, entry, tokens, c') && Pushed(c, c', q, Leaf(t))
  {
    InvReady(p, entry, tokens, c);
    ShiftActs(p, Top(c.states), t, q);
    var c1 := TokenRead(p, entry, tokens, c, t);
    InvReady(p, entry, tokens, c1);
    hide Parser.Ok, Automaton.IsLr0, Inv, StackInv, EntryOk, NoConflicts, Goes, Lookup;
    c' := AfterShift(c1, q);
    GoesStep(p, entry, tokens, c1, c');
    GoesOn(p, entry, tokens, c, c1, c');
  }

  /** The next token is read, unless the state has a default reduction. */
  lemma ReadIfNeeded(p: Parser, entry: int, tokens: seq<int>, c: Config, t: int) returns (c': Config)
    requires p.Ok() && Inv(p, entry, tokens, c) && Next(c, t) && p.pt.Sized(p.g, p.a) && c.states != []
    requires p.a.IsState(Top(c.states))
    ensures Goes(p, entry, tokens, c, c') && Inv(p, entry, tokens, c') && SameStacks(c, c')
    ensures p.pt.defred[Top(c.states)] == 0 ==> p.g.IsToken(t) && |p.codes| == p.g.ntokens
    ensures p.pt.defred[Top(c.states)] == 0 ==> c'.look == Some(Look(p.codes[t], Leaf(t)))
  {
    hide *;
    TableSizes(p);
    DefredSized(p, c);
    if p.pt.defred[Top(c.states)] != 0 {
      c' := c;
      GoesSelf(p, entry, tokens, c);
      SameSelf(c);
    } else {
      c' := TokenRead(p, entry, tokens, c, t);
    }
  }

  lemma DefredSized(p: Parser, c: Config)
    requires p.pt.Sized(p.g, p.a) && c.states != [] && p.a.IsState(Top(c.states))
    ensures 0 <= Top(c.states) < |p.pt.defred|
  {
  }

  lemma SameSelf(c: Config)
    ensures SameStacks(c, c)
  {
  }

  /** The machine reduces by rule `n` (counted from 1) at once. */
  ghost predicate ReducesBy(p: Parser, c: Config, n: int)
    requires p.Ok()
  {
    Applies(p, c, n) && Ready(p, c) && Step(p, c) == Reduced(p, c, n)
  }

  lemma ReduceGoes(p: Parser, entry: int, tokens: seq<int>, c: Config, t: int, r: int) returns (c': Config)
    requires c.states != [] && 0 <= Top(c.states) < |p.a.reductions|
    requires 3 <= r < |p.g.rlhs| && r in p.a.reductions[Top(c.states)]
    requires InLookahead(p.la, p.sets, Top(c.states), r, t) && Next(c, t) && p.g.IsToken(t) && NoConflicts(p)
    requires p.Ok() && Inv(p, entry, tokens, c)
    ensures SameStacks(c, c') && Goes(p, entry, tokens, c, c') && Inv(p, entry, tokens, c')
    ensures ReducesBy(p, c', r - 2)
  {
    hide *;
    InvTop(p, entry, tokens, c);
    TableSizes(p);
    ReduceActs(p, Top(c.states), t, r);
    c' := ReadIfNeeded(p, entry, tokens, c, t);
    SameTop(c, c');
    InvTop(p, entry, tokens, c');
    ReductionFits(p, c', r);
    StepIsReduction(p, c', r - 2);
    IsReducesBy(p, c', r - 2);
  }

  lemma IsReducesBy(p: Parser, c: Config, n: int)
    requires p.Ok() && Applies(p, c, n) && Ready(p, c) && Step(p, c) == Reduced(p, c, n)
    ensures ReducesBy(p, c, n)
  {
    hide Parser.Ok, Applies, Ready, Step, Reduced;
  }

  lemma InvTop(p: Parser, entry: int, tokens: seq<int>, c: Config)
    requires p.Ok() && Inv(p, entry, tokens, c)
    ensures Ready(p, c) && p.a.Sized() && StackInv(p, c) && c.states != [] && p.a.IsState(Top(c.states))
  {
    hide Parser.Ok;
  }

  lemma SameTop(c: Config, c': Config)
    requires SameStacks(c, c') && c.states != []
    ensures c'.states != [] && Top(c'.states) == Top(c.states)
  {
  }

  /** The first `k` trees have been put on the stack. */
  ghost predicate PushedAll(p: Parser, c: Config, c': Config, kids: seq<Tree>, k: int)
    requires 0 <= k <= |kids|
  {
    && |c'.states| == |c.states| + k && c'.states[..|c.states|] == c.states && c'.values == c.values + kids[..k]
    && |Yields(kids[..k])| <= |Ahead(c)| && Ahead(c') == Ahead(c)[|Yields(kids[..k])|..]
  }

  lemma YieldsSplit(kids: seq<Tree>, k: int)
    requires 0 <= k < |kids|
    ensures Yields(kids) == Yields(kids[..k]) + Yield(kids[k]) + Yields(kids[k + 1..])
    ensures Yields(kids[..k + 1]) == Yields(kids[..k]) + Yield(kids[k])
  {
    hide Yields, Yield;
    YieldsExtend(kids, k);
    TakeDrop(kids, k + 1);
    YieldsConcat(kids[..k + 1], kids[k + 1..]);
  }

  lemma YieldsExtend(kids: seq<Tree>, k: int)
    requires 0 <= k < |kids|
    ensures Yields(kids[..k + 1]) == Yields(kids[..k]) + Yield(kids[k])
  {
    hide Yields, Yield;
    YieldsOne(kids[k]);
    TakeNext(kids, k);
    YieldsConcat(kids[..k], [kids[k]]);
  }

  lemma TakeNext<T>(s: seq<T>, k: int)
    requires 0 <= k < |s|
    ensures s[..k + 1] == s[..k] + [s[k]]
  {
  }

  lemma TakeDrop<T>(s: seq<T>, k: int)
    requires 0 <= k <= |s|
    ensures s == s[..k] + s[k..]
  {
  }

  lemma YieldsOne(t: Tree)
    ensures Yields([t]) == Yield(t)
  {
    assert Yields([t]) == Yield(t) + Yields([]);
  }

  /** Dropping what the first trees take leaves the next one in front, then the token
      that comes after it. */
  lemma NextTree(ahead: seq<int>, kids: seq<Tree>, k: int, t: int)
    requires 0 <= k < |kids| && Yields(kids) + [t] <= ahead
    ensures |Yields(kids[..k])| <= |ahead|
    ensures Yield(kids[k]) + [(Yields(kids[k + 1..]) + [t])[0]] <= ahead[|Yields(kids[..k])|..]
  {
    hide Yields, Yield;
    YieldsSplit(kids, k);
    SkipTake(ahead, Yields(kids[..k]), Yield(kids[k]), Yields(kids[k + 1..]), t);
  }

  lemma SkipTake(ahead: seq<int>, a: seq<int>, b: seq<int>, d: seq<int>, t: int)
    requires a + b + d + [t] <= ahead
    ensures |a| <= |ahead| && b + [(d + [t])[0]] <= ahead[|a|..]
  {
    var u := (d + [t])[0];
    assert a + b + d + [t] == a + b + (d + [t]);
    forall i | 0 <= i < |b| + 1
      ensures (b + [u])[i] == ahead[|a|..][i]
    {
      assert ahead[|a|..][i] == ahead[|a| + i] == (a + b + (d + [t]))[|a| + i];
    }
  }

  lemma PushedOne(p: Parser, c: Config, c1: Config, c2: Config, kids: seq<Tree>, k: int, q: int)
    requires 0 <= k < |kids| && PushedAll(p, c, c1, kids, k) && Pushed(c1, c2, q, kids[k])
    ensures PushedAll(p, c, c2, kids, k + 1)
  {
    hide Yields, Yield, Ahead;
    YieldsExtend(kids, k);
    TakeNext(kids, k);
  }

  /** The tree can be parsed from the configuration: the automaton moves on its root, its
      tokens come next and then `t`, which can follow the root. */
  ghost predicate Fits(p: Parser, c: Config, v: Tree, q: int, t: int)
    requires p.a.Sized()
  {
    && |c.states| > 1 && StackOk(p.a, c.states) && IsTree(p.g, v) && Root(p.g, v) != p.g.Goal()
    && p.a.Trans(Top(c.states), Root(p.g, v), q) && Yield(v) + [t] <= Ahead(c)
    && (v.Node? ==> Move(Top(c.states), Root(p.g, v)) in p.follow && t in p.follow[Move(Top(c.states), Root(p.g, v))])
  }

  /** Going on from `c`, the machine has put the first `k` children on the stack, and the
      state on top holds the rule's item with the dot behind them. */
  ghost predicate KidsDone(p: Parser, entry: int, tokens: seq<int>, c: Config, v: Tree, k: int, c': Config)
    requires p.Ok() && p.a.Sized() && p.g.WellFormed() && v.Node?
  {
    && Inv(p, entry, tokens, c) && Goes(p, entry, tokens, c, c') && Inv(p, entry, tokens, c')
    && |c.states| > 1 && Suffix(p.g, v.rule, 0, v.kids) && 0 <= k <= |v.kids|
    && PushedAll(p, c, c', v.kids, k)
    && p.a.In(p.g, Top(c'.states), p.g.rrhs[v.rule] + k)
    && Spells(p.a, Top(c.states), p.g.Rhs(v.rule)[..k], Top(c'.states))
  }

  /** From a configuration where the tree comes next, the machine puts it on the stack. */
  lemma {:induction false} ParseTree(p: Parser, entry: int, tokens: seq<int>, c: Config, v: Tree, q: int, t: int)
    returns (c': Config)
    requires p.Ok() && p.a.Sized() && NoConflicts(p) && Inv(p, entry, tokens, c) && Fits(p, c, v, q, t)
    ensures Goes(p, entry, tokens, c, c') && Inv(p, entry, tokens, c') && Pushed(c, c', q, v)
    decreases v, 1
  {
    hide Parser.Ok, Inv, Goes, Pushed, KidsDone, NoConflicts, Automaton.IsLr0, Fits;
    match v
    case Leaf(token) =>
      LeafFits(p, c, token, q, t);
      c' := ShiftGoes(p, entry, tokens, c, token, q);
    case Node(r, kids) =>
      var c1 := ParseKids(p, entry, tokens, c, v, q, t, |kids|);
      c' := ReduceNode(p, entry, tokens, c, v, q, t, c1);
  }

  lemma LeafFits(p: Parser, c: Config, token: int, q: int, t: int)
    requires p.a.Sized() && Fits(p, c, Leaf(token), q, t)
    ensures c.states != [] && Next(c, token) && p.a.Trans(Top(c.states), token, q) && p.g.IsToken(token)
  {
  }

  lemma {:induction false} ParseKids(p: Parser, entry: int, tokens: seq<int>, c: Config, v: Tree, q: int, t: int,
                                     k: int)
    returns (c': Config)
    requires p.Ok() && p.a.Sized() && NoConflicts(p) && Inv(p, entry, tokens, c) && Fits(p, c, v, q, t)
    requires v.Node? && 0 <= k <= |v.kids|
    ensures p.g.WellFormed() && KidsDone(p, entry, tokens, c, v, k, c')
    decreases v, 0, k
  {
    hide Parser.Ok, Inv, Fits, Pushed, Goes, NoConflicts, Automaton.IsLr0, KidsDone, Suffix, Grammar.WellFormed,
         Automaton.Trans;
    NodeFits(p, entry, tokens, c, v, q, t);
    if k == 0 {
      c' := NoKids(p, entry, tokens, c, v, q, t);
    } else {
      var c1 := ParseKids(p, entry, tokens, c, v, q, t, k - 1);
      var q1, u := KidFits(p, entry, tokens, c, v, q, t, k - 1, c1);
      c' := ParseTree(p, entry, tokens, c1, v.kids[k - 1], q1, u);
      KidDone(p, entry, tokens, c, v, k - 1, c1, c', q1);
    }
  }

  lemma NodeFits(p: Parser, entry: int, tokens: seq<int>, c: Config, v: Tree, q: int, t: int)
    requires p.Ok() && p.a.Sized() && Inv(p, entry, tokens, c) && Fits(p, c, v, q, t) && v.Node?
    ensures p.a.IsLr0(p.g) && p.g.WellFormed() && Suffix(p.g, v.rule, 0, v.kids) && |c.states| > 1
    ensures p.a.In(p.g, Top(c.states), p.g.rrhs[v.rule])
  {
    InvReady(p, entry, tokens, c);
    NodeSuffix(p.g, p.a, Top(c.states), v, q);
    GotoHasOpening(p.g, p.a, Top(c.states), q, v.rule);
  }

  lemma NoKids(p: Parser, entry: int, tokens: seq<int>, c: Config, v: Tree, q: int, t: int) returns (c': Config)
    requires p.Ok() && p.a.Sized() && Inv(p, entry, tokens, c) && Fits(p, c, v, q, t) && v.Node? && p.g.WellFormed()
    ensures KidsDone(p, entry, tokens, c, v, 0, c')
  {
    NodeFits(p, entry, tokens, c, v, q, t);
    hide Parser.Ok, Automaton.IsLr0, Inv, Automaton.In;
    c' := c;
    GoesSelf(p, entry, tokens, c);
    SpellsEmpty(p.a, Top(c.states));
    assert p.g.Rhs(v.rule)[..0] == [];
  }

  /** The next child fits where its left siblings have been parsed. */
  lemma KidFits(p: Parser, entry: int, tokens: seq<int>, c: Config, v: Tree, q: int, t: int, k: int, c1: Config)
    returns (q1: int, u: int)
    requires p.Ok() && p.a.Sized() && p.g.WellFormed() && Fits(p, c, v, q, t) && v.Node? && 0 <= k < |v.kids|
    requires KidsDone(p, entry, tokens, c, v, k, c1)
    ensures Inv(p, entry, tokens, c1) && Fits(p, c1, v.kids[k], q1, u) && Advanced(p, c1, v, k, q1)
  {
    hide Parser.Ok, Automaton.IsLr0, Automaton.In, Inv, Suffix, IsFollow, Spells, Yields, Yield, Ahead, StackOk,
      KidsDone, Fits, Grammar.WellFormed, Automaton.Trans;
    KidsFacts(p, entry, tokens, c, v, k, c1);
    FitsFacts(p, entry, tokens, c, v, q, t);
    q1 := AdvanceItem(p.g, p.a, Top(c1.states), v.rule, k);
    u := (Yields(v.kids[k + 1..]) + [t])[0];
    KidRoot(p.g, v.rule, v.kids, k);
    if v.kids[k].Node? {
      FollowsChild(p.g, p.a, p.follow, Top(c.states), v.rule, k, Top(c1.states), p.g.Rhs(v.rule)[k], q1,
                   v.kids[k + 1..], t);
    }
    KidAhead(c, c1, v, k, t, p);
    FitsFrom(p, c1, v.kids[k], q1, u);
  }

  lemma FitsFrom(p: Parser, c: Config, v: Tree, q: int, t: int)
    requires p.a.Sized() && |c.states| > 1 && StackOk(p.a, c.states) && IsTree(p.g, v) && Root(p.g, v) != p.g.Goal()
    requires p.a.Trans(Top(c.states), Root(p.g, v), q) && Yield(v) + [t] <= Ahead(c)
    requires v.Node? ==> Move(Top(c.states), Root(p.g, v)) in p.follow
    requires v.Node? ==> t in p.follow[Move(Top(c.states), Root(p.g, v))]
    ensures Fits(p, c, v, q, t)
  {
  }

  lemma KidsFacts(p: Parser, entry: int, tokens: seq<int>, c: Config, v: Tree, k: int, c1: Config)
    requires p.Ok() && p.a.Sized() && p.g.WellFormed() && v.Node? && KidsDone(p, entry, tokens, c, v, k, c1)
    ensures p.a.IsLr0(p.g) && Inv(p, entry, tokens, c1) && StackOk(p.a, c1.states) && |c1.states| > 1
    ensures p.a.IsState(Top(c1.states)) && 0 <= k <= |v.kids| && PushedAll(p, c, c1, v.kids, k)
    ensures Suffix(p.g, v.rule, 0, v.kids) && p.g.IsRule(v.rule) && 3 <= v.rule < |p.g.rlhs|
    ensures |v.kids| == p.g.RhsLength(v.rule)
    ensures |c.states| > 1 && Spells(p.a, Top(c.states), p.g.Rhs(v.rule)[..k], Top(c1.states))
    ensures p.a.In(p.g, Top(c1.states), p.g.rrhs[v.rule] + k) && |c.values| == |c.states|
  {
    hide Automaton.IsLr0, Automaton.In, Spells, LaIndex.Ok, IsFollow, CodesOk, AllDone, Refines, EntryOk;
  }

  lemma FitsFacts(p: Parser, entry: int, tokens: seq<int>, c: Config, v: Tree, q: int, t: int)
    requires p.Ok() && p.a.Sized() && p.g.WellFormed() && v.Node? && Fits(p, c, v, q, t)
    ensures IsFollow(p.g, p.a, p.follow) && Defined(p.g, p.a, p.follow) && Yield(v) + [t] <= Ahead(c)
    ensures p.g.IsRule(v.rule)
    ensures |c.states| > 1 && Move(Top(c.states), p.g.rlhs[v.rule]) in p.follow
    ensures t in p.follow[Move(Top(c.states), p.g.rlhs[v.rule])] && p.g.IsToken(t) && p.g.rlhs[v.rule] != p.g.Goal()
    ensures p.a.Trans(Top(c.states), p.g.rlhs[v.rule], q)
  {
    FollowTokens(p.g, p.a, p.follow);
  }

  /** The automaton moves to `q` on the next symbol of the rule. */
  ghost predicate Advanced(p: Parser, c: Config, v: Tree, k: int, q: int)
    requires p.a.Sized() && p.g.WellFormed() && v.Node?
  {
    && p.g.IsRule(v.rule) && 0 <= k < p.g.RhsLength(v.rule) && c.states != []
    && p.a.Trans(Top(c.states), p.g.Rhs(v.rule)[k], q) && p.a.In(p.g, q, p.g.rrhs[v.rule] + k + 1)
  }

  lemma KidAhead(c: Config, c1: Config, v: Tree, k: int, t: int, p: Parser)
    requires v.Node? && 0 <= k < |v.kids| && PushedAll(p, c, c1, v.kids, k) && Yield(v) + [t] <= Ahead(c)
    ensures Yield(v.kids[k]) + [(Yields(v.kids[k + 1..]) + [t])[0]] <= Ahead(c1)
  {
    hide Ahead;
    NextTree(Ahead(c), v.kids, k, t);
  }

  lemma KidRoot(g: Grammar, r: int, kids: seq<Tree>, k: int)
    requires g.WellFormed() && Suffix(g, r, 0, kids) && 0 <= k < |kids|
    ensures Root(g, kids[k]) == g.Rhs(r)[k] && g.Rhs(r)[k] != g.Goal() && IsTree(g, kids[k])
    ensures kids[k].Node? ==> g.IsVar(g.Rhs(r)[k])
    ensures Suffix(g, r, k + 1, kids[k + 1..])
  {
    assert g.RuleOk(r) && g.Rhs(r)[k] == g.ritem[g.rrhs[r] + k];
    if kids[k].Node? {
      assert g.RuleOk(kids[k].rule);
    }
  }

  lemma KidDone(p: Parser, entry: int, tokens: seq<int>, c: Config, v: Tree, k: int, c1: Config, c': Config, q1: int)
    requires p.Ok() && p.a.Sized() && p.g.WellFormed() && v.Node? && 0 <= k < |v.kids|
    requires KidsDone(p, entry, tokens, c, v, k, c1)
    requires Goes(p, entry, tokens, c1, c') && Inv(p, entry, tokens, c') && Pushed(c1, c', q1, v.kids[k])
    requires Advanced(p, c1, v, k, q1)
    ensures KidsDone(p, entry, tokens, c, v, k + 1, c')
  {
    hide Parser.Ok, Goes, Spells, Inv, Automaton.In, Grammar.WellFormed, Automaton.Trans;
    GoesOn(p, entry, tokens, c, c1, c');
    PushedOne(p, c, c1, c', v.kids, k, q1);
    SpellsExtend(p.a, Top(c.states), p.g.Rhs(v.rule)[..k], Top(c1.states), p.g.Rhs(v.rule)[k], q1);
    TakeNext(p.g.Rhs(v.rule), k);
  }

  /** When all children are on the stack, the rule is reduced. */
  lemma ReduceNode(p: Parser, entry: int, tokens: seq<int>, c: Config, v: Tree, q: int, t: int, c1: Config)
    returns (c': Config)
    requires p.Ok() && p.a.Sized() && NoConflicts(p) && Inv(p, entry, tokens, c) && Fits(p, c, v, q, t) && v.Node?
    requires p.g.WellFormed() && KidsDone(p, entry, tokens, c, v, |v.kids|, c1)
    ensures Goes(p, entry, tokens, c, c') && Inv(p, entry, tokens, c') && Pushed(c, c', q, v)
  {
    hide Parser.Ok, Goes, Inv, Grammar.WellFormed, KidsDone, NoConflicts, Fits, Ready, Reduced, Applies, InLookahead,
         Pushed, Automaton.IsLr0;
    ReductionDue(p, entry, tokens, c, v, q, t, c1);
    InvTop(p, entry, tokens, c1);
    TableSizes(p);
    var c2 := ReduceGoes(p, entry, tokens, c1, t, v.rule);
    c' := NodePushed(p, entry, tokens, c, v, q, t, c1, c2);
  }

  /** The rule of a node whose children have been parsed can be reduced on `t`. */
  lemma ReductionDue(p: Parser, entry: int, tokens: seq<int>, c: Config, v: Tree, q: int, t: int, c1: Config)
    requires p.Ok() && p.a.Sized() && Inv(p, entry, tokens, c) && Fits(p, c, v, q, t) && v.Node?
    requires p.g.WellFormed() && KidsDone(p, entry, tokens, c, v, |v.kids|, c1)
    ensures Inv(p, entry, tokens, c1) && Next(c1, t) && p.g.IsToken(t) && 3 <= v.rule < |p.g.rlhs|
    ensures v.rule in p.a.reductions[Top(c1.states)]
    ensures InLookahead(p.la, p.sets, Top(c1.states), v.rule, t)
  {
    hide Parser.Ok, Automaton.IsLr0, Automaton.In, Inv, IsFollow, Spells, Yields, Yield, Ahead, StackOk, KidsDone, Fits,
      Grammar.WellFormed, Automaton.Trans, PushedAll, InLookahead, IsLookahead;
    KidsFacts(p, entry, tokens, c, v, |v.kids|, c1);
    FitsFacts(p, entry, tokens, c, v, q, t);
    CompleteReduces(p.g, p.a, Top(c1.states), v.rule);
    AheadAfter(p, c, c1, v, t);
    var m := Move(Top(c.states), p.g.rlhs[v.rule]);
    assert p.g.Rhs(v.rule)[..|v.kids|] == p.g.Rhs(v.rule);
    assert Lookback(p.g, p.a, Top(c1.states), v.rule, m);
    var k := LookaheadSet(p, Top(c1.states), v.rule);
    InUnion(p, Top(c1.states), v.rule, p.sets[k], m, t);
  }

  lemma InUnion(p: Parser, q: int, r: int, la: set<int>, m: Move, t: int)
    requires p.a.Sized() && p.g.WellFormed() && Defined(p.g, p.a, p.follow) && IsLookahead(p.g, p.a, p.follow, q, r, la)
    requires m in p.follow && Lookback(p.g, p.a, q, r, m) && t in p.follow[m]
    ensures t in la
  {
  }

  lemma CompleteReduces(g: Grammar, a: Automaton, q: int, r: int)
    requires a.IsLr0(g) && a.IsState(q) && g.IsRule(r) && a.In(g, q, g.rrhs[r] + g.RhsLength(r))
    ensures r in a.reductions[q]
  {
    assert a.StateOk(g, q) && g.rrhs[r] + g.RhsLength(r) == g.Terminator(r);
  }

  lemma AheadAfter(p: Parser, c: Config, c1: Config, v: Tree, t: int)
    requires v.Node? && PushedAll(p, c, c1, v.kids, |v.kids|) && Yield(v) + [t] <= Ahead(c) && |c1.states| > 1
    ensures Next(c1, t)
  {
    assert v.kids[..|v.kids|] == v.kids;
  }

  lemma NodePushed(p: Parser, entry: int, tokens: seq<int>, c: Config, v: Tree, q: int, t: int, c1: Config, c2: Config)
    returns (c': Config)
    requires p.Ok() && p.a.Sized() && Fits(p, c, v, q, t) && v.Node?
    requires p.g.WellFormed() && KidsDone(p, entry, tokens, c, v, |v.kids|, c1)
    requires Goes(p, entry, tokens, c1, c2) && Inv(p, entry, tokens, c2) && SameStacks(c1, c2)
    requires ReducesBy(p, c2, v.rule - 2)
    requires 3 <= v.rule < |p.g.rlhs| && v.rule in p.a.reductions[Top(c1.states)]
    ensures Goes(p, entry, tokens, c, c') && Inv(p, entry, tokens, c') && Pushed(c, c', q, v)
  {
    hide Parser.Ok, Automaton.IsLr0, Automaton.In, Inv, IsFollow, Spells, Yields, Yield, Ahead, StackOk, KidsDone, Fits,
      Grammar.WellFormed, Automaton.Trans, PushedAll, Suffix, Goes, Pushed, Reduces, Reduced, Applies, Step, EntryOk;
    KidsFacts(p, entry, tokens, c, v, |v.kids|, c1);
    FitsFacts(p, entry, tokens, c, v, q, t);
    ReducedPops(p, c2, v.rule);
    c' := Reduced(p, c2, v.rule - 2).c;
    GoesStep(p, entry, tokens, c2, c');
    KidsGo(p, entry, tokens, c, v, |v.kids|, c1);
    GoesOn(p, entry, tokens, c, c1, c2);
    GoesOn(p, entry, tokens, c, c2, c');
    NodeOnTop(p, c, v, q, c1, c2);
  }

  lemma KidsGo(p: Parser, entry: int, tokens: seq<int>, c: Config, v: Tree, k: int, c1: Config)
    requires p.Ok() && p.a.Sized() && p.g.WellFormed() && v.Node? && KidsDone(p, entry, tokens, c, v, k, c1)
    ensures Goes(p, entry, tokens, c, c1)
  {
  }

  /** The reduction leaves the node in place of its children. */
  lemma NodeOnTop(p: Parser, c: Config, v: Tree, q: int, c1: Config, c2: Config)
    requires p.Ok() && p.a.IsLr0(p.g) && p.a.Sized() && p.g.WellFormed() && v.Node? && 3 <= v.rule < |p.g.rlhs|
    requires |v.kids| == p.g.RhsLength(v.rule) && PushedAll(p, c, c1, v.kids, |v.kids|) && SameStacks(c1, c2)
    requires |c.states| > 0 && |c.values| == |c.states|
    requires Applies(p, c2, v.rule - 2) && Reduced(p, c2, v.rule - 2).Running?
    requires Reduces(p.g, p.a, c2.states, v.rule, Reduced(p, c2, v.rule - 2).c.states)
    requires p.a.Trans(Top(c.states), p.g.rlhs[v.rule], q)
    ensures Pushed(c, Reduced(p, c2, v.rule - 2).c, q, v)
  {
    hide Parser.Ok, Automaton.IsLr0, StackOk, Grammar.WellFormed;
    RuleSize(p, v.rule);
    var n, c' := |c.states|, Reduced(p, c2, v.rule - 2).c;
    KeepTake(c.values, v.kids, c2.values, n);
    assert c'.states[..n] == c.states && c'.states == c'.states[..n] + [Top(c'.states)];
    TransUnique(p.g, p.a, Top(c.states), p.g.rlhs[v.rule], Top(c'.states), q);
    assert Ahead(c') == Ahead(c2);
  }

  lemma RuleSize(p: Parser, r: int)
    requires p.Ok() && p.g.WellFormed() && 3 <= r < |p.g.rlhs|
    ensures r - 2 < |p.pt.len| && p.pt.len[r - 2] == p.g.RhsLength(r)
  {
    assert RulesRefine(p.g, p.pt) && p.pt.len[r - 2] == p.g.RhsLength(r - 2 + 2);
  }

  lemma KeepTake(a: seq<Tree>, b: seq<Tree>, s: seq<Tree>, n: int)
    requires s == a + b[..|b|] && n == |a|
    ensures s[..n] == a && s[n..] == b
  {
  }

  // ----- The whole parse -----

  lemma EntryMoves(p: Parser, r: int) returns (q1: int, q2: int, q: int)
    requires p.Ok() && EntryOk(p.g) && IsEntryRule(p.g, r) && p.a.IsLr0(p.g)
    ensures 3 <= r && p.g.IsRule(r) && |p.g.Rhs(r)| == 2 && p.g.RhsLength(r) == 2
    ensures p.a.Trans(0, p.g.Rhs(r)[0], q1) && p.a.Trans(q1, p.g.Rhs(r)[1], q2) && p.a.Trans(0, p.g.Goal(), q)
    ensures p.a.IsState(q2) && r in p.a.reductions[q2]
  {
    hide Parser.Ok, Automaton.IsLr0, Automaton.In;
    EntryNotEnd(p.g, r);
    EntryInBottom(p.g, p.a, r);
    q1 := AdvanceItem(p.g, p.a, 0, r, 0);
    q2 := AdvanceItem(p.g, p.a, q1, r, 1);
    CompleteReduces(p.g, p.a, q2, r);
    OpeningHasGoto(p.g, p.a, 0, r);
    q :| p.a.Trans(0, p.g.rlhs[r], q);
  }

  lemma EntryInBottom(g: Grammar, a: Automaton, r: int)
    requires a.IsLr0(g) && IsEntryRule(g, r)
    ensures a.Sized() && a.In(g, 0, g.rrhs[r])
  {
    ClosureOfKernel(g, a.kernels[0], 1);
    ClosureStep(g, a.kernels[0], 1, r);
  }

  /** The end marker can follow the variable of an entry rule. */
  lemma EndFollows(p: Parser, r: int, q1: int, q2: int, q: int)
    requires p.Ok() && EntryOk(p.g) && IsEntryRule(p.g, r) && p.a.IsLr0(p.g) && p.g.IsRule(r)
    requires |p.g.Rhs(r)| == 2 && p.g.RhsLength(r) == 2
    requires p.a.Trans(0, p.g.Rhs(r)[0], q1) && p.a.Trans(q1, p.g.Rhs(r)[1], q2) && p.a.Trans(0, p.g.Goal(), q)
    ensures Move(0, p.g.Goal()) in p.follow && 0 in p.follow[Move(0, p.g.Goal())]
    ensures Move(q1, p.g.Rhs(r)[1]) in p.follow && 0 in p.follow[Move(q1, p.g.Rhs(r)[1])]
    ensures Lookback(p.g, p.a, q2, r, Move(0, p.g.Goal()))
  {
    hide Automaton.IsLr0, LaIndex.Ok, CodesOk, AllDone, Refines, IsLookahead, Automaton.Trans, Grammar.WellFormed,
         Nullable, Spells;
    var m0, m := Move(0, p.g.Goal()), Move(q1, p.g.Rhs(r)[1]);
    Basics(p.g, p.a);
    var read :| Satisfies(p.g, p.a, read, p.follow);
    assert IsMove(p.g, p.a, m0) && IsMove(p.g, p.a, m);
    assert DirectRead(p.g, p.a, m0, 0);
    SpellsEmpty(p.a, 0);
    SpellsExtend(p.a, 0, [], 0, p.g.Rhs(r)[0], q1);
    assert [] + [p.g.Rhs(r)[0]] == [p.g.Rhs(r)[0]];
    SpellsExtend(p.a, 0, [p.g.Rhs(r)[0]], q1, p.g.Rhs(r)[1], q2);
    assert p.g.Rhs(r)[..1] == [p.g.Rhs(r)[0]];
    assert p.g.Rhs(r) == [p.g.Rhs(r)[0]] + [p.g.Rhs(r)[1]];
    assert IncludesVia(p.g, p.a, m, m0, r, 1);
    assert Includes(p.g, p.a, m, m0);
  }

  /** The first move shifts the entry token, whose value is left over from before. */
  lemma EntryShifted(p: Parser, entry: int, stale: (Tree, Tree), tokens: seq<int>, q1: int) returns (c': Config)
    requires p.Ok() && NoConflicts(p) && EntryOk(p.g) && p.g.IsToken(entry) && IsEntryToken(p.g, entry)
    requires p.a.Sized() && p.a.Trans(0, entry, q1) && |p.codes| == p.g.ntokens
    requires forall k :: 0 <= k < |tokens| ==> p.g.IsToken(tokens[k])
    ensures var c := Initial(p, entry, stale, tokens);
            Inv(p, entry, tokens, c) && Goes(p, entry, tokens, c, c') && Inv(p, entry, tokens, c')
    ensures c'.states == [0, q1] && c'.values == [stale.0, stale.1] && Ahead(c') == tokens
  {
    var c := Initial(p, entry, stale, tokens);
    InitialInv(p, entry, stale, tokens);
    InvReady(p, entry, tokens, c);
    ShiftActs(p, 0, entry, q1);
    hide Parser.Ok, Automaton.IsLr0, Inv, EntryOk, NoConflicts, Goes, Lookup, StackInv, Ready;
    c' := AfterShift(c, q1);
    GoesStep(p, entry, tokens, c, c');
  }

  lemma FitsEntry(p: Parser, entry: int, tokens: seq<int>, c: Config, v: Tree, r: int, q1: int, q2: int)
    requires p.Ok() && Inv(p, entry, tokens, c) && c.states == [0, q1] && Ahead(c) == tokens && p.a.Sized()
    requires IsEntryRule(p.g, r) && p.g.Rhs(r) == [entry, Root(p.g, v)] && 3 <= r && p.g.IsRule(r)
    requires IsTree(p.g, v) && Yield(v) + [0] <= tokens && p.a.Trans(q1, Root(p.g, v), q2)
    requires Move(q1, Root(p.g, v)) in p.follow && 0 in p.follow[Move(q1, Root(p.g, v))]
    ensures Fits(p, c, v, q2, 0)
  {
    hide Parser.Ok, EntryOk, Automaton.IsLr0;
    TableSizes(p);
    assert p.g.RuleOk(r) && p.g.Rhs(r)[1] == p.g.ritem[p.g.rrhs[r] + 1];
  }

  /** The last reduction, by the entry rule. */
  lemma ReduceEntry(p: Parser, entry: int, stale: (Tree, Tree), tokens: seq<int>, c1: Config, c2: Config, v: Tree,
                    r: int, q2: int)
    returns (n: nat)
    requires p.Ok() && NoConflicts(p) && EntryOk(p.g) && IsEntryRule(p.g, r) && p.a.Sized() && |p.codes| == p.g.ntokens
    requires 3 <= r && p.g.IsRule(r) && 0 <= entry < p.g.ntokens
    requires Goes(p, entry, tokens, Initial(p, entry, stale, tokens), c2) && Inv(p, entry, tokens, c2)
    requires Ahead(c1) == tokens && |c1.states| == 2 && Pushed(c1, c2, q2, v) && Yield(v) + [0] <= tokens
    requires p.a.IsState(q2) && r in p.a.reductions[q2]
    requires Lookback(p.g, p.a, q2, r, Move(0, p.g.Goal()))
    requires Move(0, p.g.Goal()) in p.follow && 0 in p.follow[Move(0, p.g.Goal())]
    ensures Inv(p, entry, tokens, Initial(p, entry, stale, tokens))
    ensures Run(p, entry, tokens, Initial(p, entry, stale, tokens), n) == Accepted(v)
  {
    hide Parser.Ok, EntryOk, Inv, NoConflicts, Run, Step, Lookback, Automaton.IsLr0, Ready, Initial, InLookahead, Goes,
      Pushed, Ahead, Grammar.WellFormed, Reduced, Applies;
    TopPushed(c1, c2, q2, v, tokens);
    EntryLookahead(p, r, q2);
    var c3 := ReduceGoes(p, entry, tokens, c2, 0, r);
    GoesOn(p, entry, tokens, Initial(p, entry, stale, tokens), c2, c3);
    n := AcceptsFrom(p, entry, tokens, Initial(p, entry, stale, tokens), c3, r, v);
  }

  lemma TopPushed(c1: Config, c2: Config, q2: int, v: Tree, tokens: seq<int>)
    requires Pushed(c1, c2, q2, v) && |c1.states| > 1 && Yield(v) + [0] <= tokens && Ahead(c1) == tokens
    ensures c2.states != [] && Top(c2.states) == q2 && c2.values != [] && c2.values[|c2.values| - 1] == v && Next(c2, 0)
  {
  }

  lemma EntryLookahead(p: Parser, r: int, q2: int)
    requires p.Ok() && EntryOk(p.g) && p.a.Sized() && p.a.IsState(q2) && r in p.a.reductions[q2]
    requires Lookback(p.g, p.a, q2, r, Move(0, p.g.Goal()))
    requires Move(0, p.g.Goal()) in p.follow && 0 in p.follow[Move(0, p.g.Goal())]
    ensures InLookahead(p.la, p.sets, q2, r, 0) && p.g.IsToken(0)
  {
    hide Automaton.IsLr0, Lookback, IsLookahead, LaIndex.Ok, IsFollow, CodesOk, AllDone, Refines, InLookahead,
         Grammar.WellFormed;
    Basics(p.g, p.a);
    var k := LookaheadSet(p, q2, r);
    InUnion(p, q2, r, p.sets[k], Move(0, p.g.Goal()), 0);
  }

  lemma AcceptsFrom(p: Parser, entry: int, tokens: seq<int>, c: Config, c': Config, r: int, v: Tree) returns (n: nat)
    requires p.Ok() && Goes(p, entry, tokens, c, c') && Inv(p, entry, tokens, c')
    requires ReducesBy(p, c', r - 2) && EntryOk(p.g) && IsEntryRule(p.g, r) && 3 <= r && p.g.IsRule(r)
    requires c'.values != [] && c'.values[|c'.values| - 1] == v
    requires r in p.a.reductions[Top(c'.states)]
    ensures Inv(p, entry, tokens, c) && Run(p, entry, tokens, c, n) == Accepted(v)
  {
    hide Parser.Ok, Inv, Ready, Run, Step, EntryOk, IsEntryRule, Applies, Automaton.IsLr0, Reduced;
    var m: nat :| Run(p, entry, tokens, c, m) == Running(c');
    RunOn(p, entry, tokens, c, m, c', 1);
    n := m + 1;
    EntryAccepts(p, entry, tokens, c', r);
  }

  lemma EntryAccepts(p: Parser, entry: int, tokens: seq<int>, c: Config, r: int)
    requires p.Ok() && Inv(p, entry, tokens, c) && ReducesBy(p, c, r - 2) && IsEntryRule(p.g, r) && 3 <= r
    requires p.g.IsRule(r)
    requires c.values != []
    requires r in p.a.reductions[Top(c.states)]
    ensures Run(p, entry, tokens, c, 1) == Accepted(c.values[|c.values| - 1])
  {
    hide Parser.Ok, EntryOk, Automaton.IsLr0, Inv, Step;
    ReductionFits(p, c, r);
  }

  /** Parser completeness.  When the grammar has no conflicts, the machine accepts every
      sentence of an entry rule's variable that is followed by the end marker, and its
      value is the sentence's parse tree. */
  lemma AcceptsSentence(p: Parser, entry: int, stale: (Tree, Tree), tokens: seq<int>, v: Tree) returns (n: nat)
    requires p.Ok() && NoConflicts(p) && EntryOk(p.g) && p.g.IsToken(entry) && |p.codes| == p.g.ntokens
    requires IsParse(p.g, entry, v) && Yield(v) + [0] <= tokens
    requires forall k :: 0 <= k < |tokens| ==> p.g.IsToken(tokens[k])
    ensures Inv(p, entry, tokens, Initial(p, entry, stale, tokens))
    ensures Run(p, entry, tokens, Initial(p, entry, stale, tokens), n) == Accepted(v)
  {
    hide Parser.Ok, EntryOk, Inv, Goes, NoConflicts, Run, Automaton.Trans, Lookback, Automaton.IsLr0, Pushed, Ready,
         Initial;
    TableSizes(p);
    var r :| IsEntryRule(p.g, r) && p.g.Rhs(r) == [entry, Root(p.g, v)];
    var q1, q2, q := EntryMoves(p, r);
    assert IsEntryToken(p.g, entry);
    EndFollows(p, r, q1, q2, q);
    var c1 := EntryShifted(p, entry, stale, tokens, q1);
    FitsEntry(p, entry, tokens, c1, v, r, q1, q2);
    var c2 := ParseTree(p, entry, tokens, c1, v, q2, 0);
    GoesOn(p, entry, tokens, Initial(p, entry, stale, tokens), c1, c2);
    n := ReduceEntry(p, entry, stale, tokens, c1, c2, v, r, q2);
  }

  /** The parse has ended, so more moves change nothing. */
  lemma {:induction false} RunEnds(p: Parser, entry: int, tokens: seq<int>, c: Config, m: nat, n: nat)
    requires p.Ok() && Inv(p, entry, tokens, c) && m <= n && !Run(p, entry, tokens, c, m).Running?
    ensures Run(p, entry, tokens, c, n) == Run(p, entry, tokens, c, m)
    decreases m
  {
    hide Parser.Ok, Inv, Ready, Step;
    InvReady(p, entry, tokens, c);
    StepKeeps(p, entry, tokens, c);
    if Step(p, c).Running? {
      RunEnds(p, entry, tokens, Step(p, c).c, m - 1, n - 1);
    }
  }

  /** Without conflicts the grammar is unambiguous. */
  lemma Unambiguous(p: Parser, entry: int, v: Tree, w: Tree)
    requires p.Ok() && NoConflicts(p) && EntryOk(p.g) && p.g.IsToken(entry) && |p.codes| == p.g.ntokens
    requires IsParse(p.g, entry, v) && IsParse(p.g, entry, w) && Yield(v) == Yield(w)
    ensures v == w
  {
    hide Parser.Ok, Inv, Run, EntryOk, NoConflicts;
    var tokens := Yield(v) + [0];
    TableSizes(p);
    Basics(p.g, p.a);
    YieldTokens(p.g, v);
    var m := AcceptsSentence(p, entry, (v, v), tokens, v);
    var n := AcceptsSentence(p, entry, (v, v), tokens, w);
    RunEnds(p, entry, tokens, Initial(p, entry, (v, v), tokens), m, m + n);
    RunEnds(p, entry, tokens, Initial(p, entry, (v, v), tokens), n, m + n);
  }

  lemma {:induction false} YieldTokens(g: Grammar, v: Tree)
    requires IsTree(g, v)
    ensures forall k :: 0 <= k < |Yield(v)| ==> g.IsToken(Yield(v)[k])
    decreases v, 0
  {
    match v
    case Leaf(_) =>
    case Node(_, kids) => YieldsTokens(g, kids);
  }

  lemma {:induction false} YieldsTokens(g: Grammar, ts: seq<Tree>)
    requires forall k :: 0 <= k < |ts| ==> IsTree(g, ts[k])
    ensures forall k :: 0 <= k < |Yields(ts)| ==> g.IsToken(Yields(ts)[k])
    decreases ts, 1
  {
    if ts != [] {
      YieldTokens(g, ts[0]);
      YieldsTokens(g, ts[1..]);
    }
  }
}
