/** Default reductions in the machine: it reduces in states that have a default without
    looking at the next token, and never shifts that token if the reduction was wrong. */
module Delays {
  import opened Grammars
  import opened Lookahead
  import opened Reduction
  import opened Lalr
  import opened Conflicts
  import opened Output
  import opened Generator
  import opened Machine

  /** The lookahead set of a reduction of the state. */
  lemma LookaheadSet(p: Parser, q: int, r: int) returns (k: int)
    requires p.Ok() && p.a.Sized() && p.a.IsState(q) && r in p.a.reductions[q] && p.g.WellFormed()
    ensures 0 <= k < |p.sets| && IsLookahead(p.g, p.a, p.follow, q, r, p.sets[k])
    ensures forall t :: InLookahead(p.la, p.sets, q, r, t) <==> t in p.sets[k]
  {
    hide Automaton.IsLr0, IsFollow, IsLookahead, Refines, AllDone, CodesOk, Grammar.WellFormed;
    RowInRange(p.g, p.a, p.la, q);
    assert p.la.RowOk(p.a, q);
    var j :| 0 <= j < |p.a.reductions[q]| && p.a.reductions[q][j] == r;
    k := p.la.lookaheads[q] + j;
    assert p.la.ruleno[p.la.lookaheads[q] + j] == r && p.la.InRow(q, k);
    hide LaIndex.Ok, LaIndex.RowOk;
    forall t | InLookahead(p.la, p.sets, q, r, t)
      ensures t in p.sets[k]
    {
      var i :| p.la.InRow(q, i) && 0 <= i < |p.sets| && p.la.ruleno[i] == r && t in p.sets[i];
      assert i == k;
    }
  }

  /** Whether the next token is `t`, which cannot follow what the stack holds. */
  ghost predicate Blocked(p: Parser, c: Config, t: int)
    requires p.Ok() && p.a.Sized()
  {
    |c.states| > 1 && Ahead(c) != [] && Ahead(c)[0] == t && p.g.IsToken(t) && Stuck(p.g, p.a, p.follow, c.states, t)
  }

  lemma BlockedNotShifted(p: Parser, entry: int, tokens: seq<int>, c: Config, t: int, u: int, q: int)
    requires p.Ok() && Inv(p, entry, tokens, c) && Blocked(p, c, t) && p.a.Sized()
    ensures !StepIs(p, c, ShiftTo(u, q))
  {
    StuckNotShifted(p.g, p.a, p.follow, c.states, t);
    hide Parser.Ok, Automaton.IsLr0, EntryOk, Step, Stuck;
    if StepIs(p, c, ShiftTo(u, q)) {
      var v :| IsLook(p, c.look.value, v);
      CodeOf(p, u, v);
    }
  }

  /** A blocked token is not shifted, and stays blocked after any reduction. */
  lemma BlockedStays(p: Parser, entry: int, tokens: seq<int>, c: Config, t: int)
    requires p.Ok() && Inv(p, entry, tokens, c) && Blocked(p, c, t)
    ensures Step(p, c).Running? ==> Blocked(p, Step(p, c).c, t) && Ahead(Step(p, c).c) == Ahead(c)
  {
    hide Parser.Ok, Automaton.IsLr0, EntryOk, Stuck, Step, StackInv;
    InvReady(p, entry, tokens, c);
    StepKeeps(p, entry, tokens, c);
    var k := StepKind(p, c);
    match k
    case ByRule(r) =>
      if p.g.rlhs[r] != p.g.Goal() {
        BlockedReduces(p, entry, tokens, c, r, t);
      }
    case ReadNext =>
      assert Ahead(AfterRead(p, c)) == Ahead(c);
    case ShiftTo(u, q) => BlockedNotShifted(p, entry, tokens, c, t, u, q);
    case Halt =>
  }

  lemma BlockedReduces(p: Parser, entry: int, tokens: seq<int>, c: Config, r: int, t: int)
    requires p.Ok() && Inv(p, entry, tokens, c) && Blocked(p, c, t) && StepIs(p, c, ByRule(r))
    requires p.g.rlhs[r] != p.g.Goal()
    ensures Step(p, c).Running? && Blocked(p, Step(p, c).c, t) && Ahead(Step(p, c).c) == Ahead(c)
  {
    hide Automaton.IsLr0, EntryOk, Stuck, Step, Reduces, CodesOk, AllDone, Refines, IsFollow, LaIndex.Ok;
    InvReady(p, entry, tokens, c);
    ReducedPops(p, c, r);
    assert IsFollow(p.g, p.a, p.follow);
    StuckReduces(p.g, p.a, p.follow, c.states, t, r, Reduced(p, c, r - 2).c.states);
  }

  /** After a reduction on a token outside its lookahead set, that token is blocked. */
  lemma WrongReductionBlocks(p: Parser, entry: int, tokens: seq<int>, c: Config, r: int, t: int)
    requires p.Ok() && Inv(p, entry, tokens, c) && StepIs(p, c, ByRule(r)) && p.g.rlhs[r] != p.g.Goal()
    requires |c.states| > 1 && Ahead(c) != [] && Ahead(c)[0] == t && p.g.IsToken(t)
    requires !InLookahead(p.la, p.sets, Top(c.states), r, t)
    ensures Step(p, c).Running? && Blocked(p, Step(p, c).c, t) && Ahead(Step(p, c).c) == Ahead(c)
  {
    hide Automaton.IsLr0, EntryOk, Stuck, Step, Reduces, CodesOk, AllDone, Refines, IsFollow, LaIndex.Ok, InLookahead,
         IsLookahead;
    InvReady(p, entry, tokens, c);
    ReducedPops(p, c, r);
    var k := LookaheadSet(p, Top(c.states), r);
    WrongReductionSticks(p.g, p.a, p.follow, p.sets[k], c.states, t, r, Reduced(p, c, r - 2).c.states);
  }

  lemma {:induction false} BlockedRun(p: Parser, entry: int, tokens: seq<int>, c: Config, t: int, n: nat)
    requires p.Ok() && Inv(p, entry, tokens, c) && Blocked(p, c, t)
    ensures Run(p, entry, tokens, c, n).Running? ==> Ahead(Run(p, entry, tokens, c, n).c) == Ahead(c)
    decreases n
  {
    hide Parser.Ok, Automaton.IsLr0, Inv, Ready, Step, Blocked;
    if n > 0 {
      InvReady(p, entry, tokens, c);
      StepKeeps(p, entry, tokens, c);
      BlockedStays(p, entry, tokens, c, t);
      if Step(p, c).Running? {
        BlockedRun(p, entry, tokens, Step(p, c).c, t, n - 1);
      }
    }
  }

  /** Default reductions only delay errors, in the machine: once it reduces by a rule on
      a next token outside the rule's lookahead set, it never shifts that token, however
      long it goes on. */
  lemma WrongTokenNeverShifted(p: Parser, entry: int, tokens: seq<int>, c: Config, r: int, t: int, n: nat)
    requires p.Ok() && Inv(p, entry, tokens, c) && StepIs(p, c, ByRule(r))
    requires |c.states| > 1 && Ahead(c) != [] && Ahead(c)[0] == t && p.g.IsToken(t)
    requires !InLookahead(p.la, p.sets, Top(c.states), r, t)
    ensures Run(p, entry, tokens, c, n).Running? ==> Ahead(Run(p, entry, tokens, c, n).c) == Ahead(c)
  {
    hide Parser.Ok, Automaton.IsLr0, Inv, Ready, Step, Blocked, InLookahead;
    if n > 0 && p.g.rlhs[r] != p.g.Goal() {
      InvReady(p, entry, tokens, c);
      StepKeeps(p, entry, tokens, c);
      WrongReductionBlocks(p, entry, tokens, c, r, t);
      BlockedRun(p, entry, tokens, Step(p, c).c, t, n - 1);
    }
  }
}
