/** Packed grammars (src/mosmlyac/reader.c) and the LR(0) automaton over them.

    Symbols below `ntokens` are tokens, the others variables; symbol 0 is the end
    marker, `ntokens` the augmented start symbol and `ntokens + 1` the goal.  The
    array `ritem` concatenates the right-hand sides, each followed by the negated
    rule number; `rrhs[r]` is where rule `r` begins.  Rules 0 and 1 are dummies
    and rule 2 is the augmented rule `start -> goal $end`.  An item is an index
    into `ritem`: the dot stands before that entry. */
module Grammars {
  import opened Relations

  /** States and moves are numbered with shorts. */
  const MAXSHORT := 32767

  datatype Grammar = Grammar(ntokens: nat, nsyms: nat, ritem: seq<int>, rlhs: seq<int>, rrhs: seq<int>) {
    predicate IsToken(s: int) {
      0 <= s < ntokens
    }

    predicate IsVar(s: int) {
      ntokens <= s < nsyms
    }

    function Goal(): int {
      ntokens + 1
    }

    ghost predicate IsRule(r: int) {
      2 <= r < |rlhs|
    }

    /** Where the terminator of rule `r` stands. */
    function Terminator(r: int): int
      requires 0 <= r < |rlhs| && |rrhs| == |rlhs| + 1
    {
      rrhs[r + 1] - 1
    }

    ghost predicate RuleOk(r: int)
      requires 2 <= r < |rlhs| && |rrhs| == |rlhs| + 1
    {
      && 1 <= rrhs[r] <= Terminator(r) < |ritem|
      && ritem[Terminator(r)] == -r
      && (r == 2 ==> rlhs[r] == ntokens && Terminator(r) == 3)
      && (3 <= r ==> ntokens < rlhs[r] < nsyms)
      && (3 <= r ==> forall k :: rrhs[r] <= k < Terminator(r) ==>
            0 < ritem[k] < nsyms && ritem[k] != ntokens && ritem[k] != Goal())
    }

    ghost predicate WellFormed() {
      && 0 < ntokens && ntokens + 1 < nsyms
      && 3 <= |rlhs| && |rrhs| == |rlhs| + 1 && 4 <= |ritem|
      && rrhs[1] == 0 && rrhs[2] == 1
      && ritem[0] == -1 && ritem[1] == Goal() && ritem[2] == 0
      && (forall r {:trigger IsRule(r)} :: IsRule(r) ==> RuleOk(r))
      && (forall i {:trigger Covered(i)} :: 1 <= i < |ritem| ==> Covered(i))
    }

    /** The item belongs to a rule. */
    ghost predicate Covered(i: int)
      requires |rrhs| == |rlhs| + 1
    {
      exists r {:trigger IsRule(r)} :: IsRule(r) && rrhs[r] <= i <= Terminator(r)
    }

    function RhsLength(r: int): (n: int)
      requires 0 <= r < |rlhs| && |rrhs| == |rlhs| + 1
    {
      Terminator(r) - rrhs[r]
    }

    ghost function Rhs(r: int): (symbols: seq<int>)
      requires WellFormed() && IsRule(r)
      ensures |symbols| == RhsLength(r)
    {
      ritem[rrhs[r]..Terminator(r)]
    }

    /** The items that open the rules of variable `s`, in rule order. */
    ghost function Openings(s: int): (o: seq<int>)
      requires WellFormed()
      ensures forall i :: i in o <==> exists r {:trigger IsRule(r)} :: IsRule(r) && rlhs[r] == s && rrhs[r] == i
    {
      var o := OpeningsUpTo(s, |rlhs|);
      assert forall i :: i in o ==> exists r {:trigger IsRule(r)} :: IsRule(r) && rlhs[r] == s && rrhs[r] == i;
      o
    }

    ghost function OpeningsUpTo(s: int, n: int): (o: seq<int>)
      requires WellFormed() && 2 <= n <= |rlhs|
      ensures forall i ::
                i in o <==> exists r {:trigger IsRule(r)} :: IsRule(r) && r < n && rlhs[r] == s && rrhs[r] == i
    {
      assert n > 2 ==> IsRule(n - 1);
      if n == 2 then []
      else OpeningsUpTo(s, n - 1) + (if rlhs[n - 1] == s then [rrhs[n - 1]] else [])
    }

    /** From an item to the items that open the rules of the variable after its dot. */
    ghost function ItemRelation(): (rel: Relation)
      requires WellFormed()
      ensures |rel| == |ritem|
      ensures forall i, j {:trigger Edge(rel, i, j)} :: Edge(rel, i, j) <==> Opens(i, j)
      ensures IsRelation(rel, |ritem|)
    {
      var rel := seq(|ritem|, i requires 0 <= i < |ritem| => Openings(ritem[i]));
      assert forall i, e :: 0 <= i < |ritem| && 0 <= e < |rel[i]| ==> rel[i][e] in Openings(ritem[i]);
      rel
    }

    ghost predicate Opens(i: int, j: int)
      requires WellFormed()
    {
      0 <= i < |ritem| && exists r {:trigger IsRule(r)} :: IsRule(r) && rlhs[r] == ritem[i] && rrhs[r] == j
    }

    /** The LR(0) closure of a kernel: every item that a kernel item leads to. */
    ghost predicate InClosure(kernel: seq<int>, i: int)
      requires WellFormed()
    {
      exists k :: k in kernel && Reaches(ItemRelation(), k, i)
    }
  }

  lemma ClosureOfKernel(g: Grammar, kernel: seq<int>, i: int)
    requires g.WellFormed() && i in kernel && 0 <= i < |g.ritem|
    ensures g.InClosure(kernel, i)
  {
    ReachesSelf(g.ItemRelation(), i);
  }

  lemma ClosureStep(g: Grammar, kernel: seq<int>, i: int, r: int)
    requires g.WellFormed() && g.InClosure(kernel, i) && 0 <= i < |g.ritem|
    requires g.IsRule(r) && g.rlhs[r] == g.ritem[i]
    ensures g.InClosure(kernel, g.rrhs[r])
  {
    var rel := g.ItemRelation();
    var k :| k in kernel && Reaches(rel, k, i);
    assert Edge(rel, i, g.rrhs[r]);
    ReachesSelf(rel, g.rrhs[r]);
    ReachesStep(rel, i, g.rrhs[r], g.rrhs[r]);
    ReachesTransitive(rel, k, i, g.rrhs[r]);
  }

  /** An item of a closure is in the kernel or opens a rule of a variable that
      follows the dot of another item of the closure. */
  lemma ClosureInversion(g: Grammar, kernel: seq<int>, i: int)
    requires g.WellFormed() && g.InClosure(kernel, i)
    ensures 0 <= i < |g.ritem|
    ensures i in kernel ||
            exists j, r :: 0 <= j < |g.ritem| && g.InClosure(kernel, j) && g.IsRule(r) &&
                           g.rlhs[r] == g.ritem[j] && g.rrhs[r] == i
  {
    var rel := g.ItemRelation();
    var k :| k in kernel && Reaches(rel, k, i);
    var p :| PathFromTo(rel, p, k, i);
    if |p| > 1 {
      var j := p[|p| - 2];
      assert PathFromTo(rel, p[..|p| - 1], k, j);
      assert Edge(rel, j, p[|p| - 1]);
      assert g.Opens(j, i);
    }
  }

  /** The dot of an item of rule `r` is `k` symbols into the rule. */
  ghost predicate ItemAt(g: Grammar, i: int, r: int, k: int)
    requires g.WellFormed()
  {
    g.IsRule(r) && 0 <= k <= g.RhsLength(r) && i == g.rrhs[r] + k
  }

  lemma {:induction false} RuleStarts(g: Grammar, r: int, s: int)
    requires g.WellFormed() && 2 <= r < s < |g.rlhs|
    ensures g.Terminator(r) < g.rrhs[s]
    decreases s - r
  {
    assert g.IsRule(s) && g.IsRule(r);
    if r + 1 < s {
      RuleStarts(g, r, s - 1);
      assert g.IsRule(s - 1);
    }
  }

  lemma ItemAtUnique(g: Grammar, i: int, r: int, k: int, s: int, l: int)
    requires g.WellFormed() && ItemAt(g, i, r, k) && ItemAt(g, i, s, l)
    ensures r == s && k == l
  {
    if r < s {
      RuleStarts(g, r, s);
    } else if s < r {
      RuleStarts(g, s, r);
    }
  }

  lemma ItemSymbol(g: Grammar, i: int, r: int, k: int)
    requires g.WellFormed() && ItemAt(g, i, r, k)
    ensures 1 <= i < |g.ritem|
    ensures k < g.RhsLength(r) ==> g.ritem[i] == g.Rhs(r)[k] && 0 <= g.ritem[i] < g.nsyms
    ensures k < g.RhsLength(r) && 3 <= r ==> 0 < g.ritem[i] && g.ritem[i] != g.ntokens && g.ritem[i] != g.Goal()
    ensures k == g.RhsLength(r) ==> g.ritem[i] == -r
  {
  }

  lemma ItemHasRule(g: Grammar, i: int)
    requires g.WellFormed() && 1 <= i < |g.ritem|
    ensures exists r, k :: ItemAt(g, i, r, k)
  {
    assert g.Covered(i);
    var r :| g.IsRule(r) && g.rrhs[r] <= i <= g.Terminator(r);
    assert ItemAt(g, i, r, i - g.rrhs[r]);
  }

  /** The rules of a variable, in order. */
  function Derives(g: Grammar, s: int, n: int): (rules: seq<int>)
    requires 2 <= n <= |g.rlhs|
    ensures forall r :: r in rules <==> 2 <= r < n && g.rlhs[r] == s
  {
    if n == 2 then [] else Derives(g, s, n - 1) + (if g.rlhs[n - 1] == s then [n - 1] else [])
  }

  // ----- The automaton -----

  /** `shifts[q]` lists the successors of state `q` in the order of their accessing
      symbols, `reductions[q]` the rules whose complete items `q` holds. */
  datatype Automaton = Automaton(kernels: seq<seq<int>>, accessing: seq<int>,
                                 shifts: seq<seq<int>>, reductions: seq<seq<int>>) {
    ghost predicate IsState(q: int) {
      0 <= q < |kernels|
    }

    ghost predicate Sized() {
      0 < |kernels| == |accessing| == |shifts| == |reductions|
    }

    /** The automaton moves from `p` to `q` on symbol `s`. */
    ghost predicate Trans(p: int, s: int, q: int)
      requires Sized()
    {
      IsState(p) && IsState(q) && q in shifts[p] && accessing[q] == s
    }

    ghost predicate Sorted(p: int)
      requires Sized() && IsState(p)
    {
      && (forall j :: 0 <= j < |shifts[p]| ==> 0 < shifts[p][j] < |kernels|)
      && (forall j :: 0 <= j < |shifts[p]| ==> 0 < accessing[shifts[p][j]])
      && (forall i, j :: 0 <= i < j < |shifts[p]| ==> accessing[shifts[p][i]] < accessing[shifts[p][j]])
    }

    ghost predicate In(g: Grammar, q: int, i: int)
      requires Sized() && IsState(q) && g.WellFormed()
    {
      g.InClosure(kernels[q], i)
    }

    /** The kernel of a successor holds exactly the advanced items. */
    ghost predicate Advances(g: Grammar, p: int, q: int)
      requires Sized() && IsState(p) && IsState(q) && g.WellFormed()
    {
      && kernels[q] != []
      && forall i :: i in kernels[q] <==> 1 <= i < |g.ritem| && In(g, p, i - 1) && g.ritem[i - 1] == accessing[q]
    }

    ghost predicate Complete(g: Grammar, p: int)
      requires Sized() && IsState(p) && g.WellFormed()
    {
      forall i {:trigger In(g, p, i)} :: 0 <= i < |g.ritem| && In(g, p, i) && 0 < g.ritem[i] ==>
        exists q :: Trans(p, g.ritem[i], q)
    }

    ghost predicate Reduces(g: Grammar, p: int)
      requires Sized() && IsState(p) && g.WellFormed()
    {
      && (forall r :: r in reductions[p] <==> g.IsRule(r) && In(g, p, g.Terminator(r)))
      && (forall i, j :: 0 <= i < j < |reductions[p]| ==> reductions[p][i] != reductions[p][j])
    }

    ghost predicate StateOk(g: Grammar, p: int)
      requires Sized() && IsState(p) && g.WellFormed()
    {
      Sorted(p) && Complete(g, p) && Reduces(g, p)
    }

    ghost predicate HasPredecessor(q: int)
      requires Sized()
    {
      exists p :: IsState(p) && p < q && q in shifts[p]
    }

    /** This is the LR(0) automaton of the grammar: state 0 has the start kernel, the
        successors of each state hold exactly its advanced items, every state is
        reachable, and no two states share a kernel. */
    ghost predicate IsLr0(g: Grammar) {
      && g.WellFormed() && Sized()
      && kernels[0] == [1]
      && (forall p {:trigger StateOk(g, p)} :: IsState(p) ==> StateOk(g, p))
      && (forall p, q {:trigger Advances(g, p, q)} :: IsState(p) && IsState(q) && q in shifts[p] ==> Advances(g, p, q))
      && (forall q {:trigger HasPredecessor(q)} :: 0 < q < |kernels| ==> HasPredecessor(q))
      && (forall p, q :: 0 <= p < q < |kernels| ==> kernels[p] != kernels[q])
    }
  }

  /** What most proofs need of a well-formed automaton. */
  lemma Basics(g: Grammar, a: Automaton)
    requires a.IsLr0(g)
    ensures g.WellFormed() && a.Sized() && 0 < g.ntokens && g.ntokens + 1 < g.nsyms
  {
  }

  lemma RuleBounds(g: Grammar, r: int)
    requires g.WellFormed() && g.IsRule(r)
    ensures |g.rrhs| == |g.rlhs| + 1
    ensures 1 <= g.rrhs[r] <= g.Terminator(r) < |g.ritem| && g.RuleOk(r)
    ensures forall k :: g.rrhs[r] <= k < g.Terminator(r) ==> g.ritem[k] >= 0
    ensures g.ritem[g.Terminator(r)] < 0
  {
  }

  lemma TransUnique(g: Grammar, a: Automaton, p: int, s: int, q1: int, q2: int)
    requires a.IsLr0(g) && a.Trans(p, s, q1) && a.Trans(p, s, q2)
    ensures q1 == q2
  {
    assert a.StateOk(g, p);
  }

  /** `states` is the way from `states[0]` that spells `symbols`. */
  ghost predicate Walk(a: Automaton, states: seq<int>, symbols: seq<int>)
    requires a.Sized()
  {
    && |states| == |symbols| + 1
    && a.IsState(states[0])
    && forall k :: 0 <= k < |symbols| ==> a.Trans(states[k], symbols[k], states[k + 1])
  }

  lemma BeforeOpening(g: Grammar, r: int)
    requires g.WellFormed() && g.IsRule(r)
    ensures 1 <= g.rrhs[r] <= |g.ritem| && g.ritem[g.rrhs[r] - 1] < 0
  {
    if r > 2 {
      assert g.IsRule(r - 1) && g.rrhs[r] - 1 == g.Terminator(r - 1);
    }
  }

  /** Kernel items have passed a symbol, so only state 0 holds the opening of a rule
      in its kernel. */
  lemma KernelItem(g: Grammar, a: Automaton, q: int, r: int, k: int)
    requires a.IsLr0(g) && a.IsState(q) && g.IsRule(r) && 0 <= k <= g.RhsLength(r)
    requires g.rrhs[r] + k in a.kernels[q]
    ensures if q == 0 then r == 2 && k == 0 else k > 0
  {
    hide Grammar.InClosure;
    var i := g.rrhs[r] + k;
    if q == 0 {
      assert ItemAt(g, 1, 2, 0) && ItemAt(g, 1, r, k);
      ItemAtUnique(g, 1, r, k, 2, 0);
    } else if k == 0 {
      assert a.HasPredecessor(q);
      var p :| a.IsState(p) && p < q && q in a.shifts[p];
      assert a.Advances(g, p, q) && a.StateOk(g, p);
      BeforeOpening(g, r);
    }
  }

  /** An item whose dot is inside the rule came from the predecessor's item one
      symbol earlier. */
  lemma StepBack(g: Grammar, a: Automaton, p: int, s: int, q: int, r: int, k: int)
    requires a.IsLr0(g) && g.IsRule(r) && a.Trans(p, s, q) && ItemAt(g, g.rrhs[r] + k, r, k)
    requires 0 < k && a.In(g, q, g.rrhs[r] + k)
    ensures a.In(g, p, g.rrhs[r] + k - 1) && g.Rhs(r)[k - 1] == s
  {
    hide Grammar.InClosure;
    var i := g.rrhs[r] + k;
    ClosureInversion(g, a.kernels[q], i);
    if i !in a.kernels[q] {
      var j, r' :| 0 <= j < |g.ritem| && g.InClosure(a.kernels[q], j) && g.IsRule(r') &&
                   g.rlhs[r'] == g.ritem[j] && g.rrhs[r'] == i;
      assert ItemAt(g, i, r', 0);
      ItemAtUnique(g, i, r, k, r', 0);
    }
    assert a.Advances(g, p, q);
  }

  lemma StepForward(g: Grammar, a: Automaton, p: int, s: int, q: int, i: int)
    requires a.IsLr0(g) && a.Trans(p, s, q) && 0 <= i < |g.ritem| - 1 && a.In(g, p, i) && g.ritem[i] == s
    ensures a.In(g, q, i + 1)
  {
    assert a.Advances(g, p, q) && (i + 1 in a.kernels[q] <==> a.In(g, p, i + 1 - 1));
    ClosureOfKernel(g, a.kernels[q], i + 1);
  }

  /** Only state 0 lies outside all right-hand sides: an item inside a rule is never
      in its closure. */
  lemma BottomItem(g: Grammar, a: Automaton, r: int, k: int)
    requires a.IsLr0(g) && g.IsRule(r) && ItemAt(g, g.rrhs[r] + k, r, k) && a.In(g, 0, g.rrhs[r] + k)
    ensures k == 0
  {
    hide Grammar.InClosure;
    var i := g.rrhs[r] + k;
    ClosureInversion(g, a.kernels[0], i);
    if i in a.kernels[0] {
      KernelItem(g, a, 0, r, k);
    } else {
      var j, r' :| 0 <= j < |g.ritem| && g.InClosure(a.kernels[0], j) && g.IsRule(r') &&
                   g.rlhs[r'] == g.ritem[j] && g.rrhs[r'] == i;
      assert ItemAt(g, i, r', 0);
      ItemAtUnique(g, i, r, k, r', 0);
    }
  }

  /** A state that holds the opening of a rule other than the augmented one moves on
      the variable of that rule. */
  lemma OpeningHasGoto(g: Grammar, a: Automaton, p: int, r: int)
    requires a.IsLr0(g) && a.IsState(p) && 3 <= r < |g.rlhs| && a.In(g, p, g.rrhs[r])
    ensures exists q :: a.Trans(p, g.rlhs[r], q)
  {
    ClosureInversion(g, a.kernels[p], g.rrhs[r]);
    if g.rrhs[r] in a.kernels[p] {
      KernelItem(g, a, p, r, 0);
    }
    var j, r' :| 0 <= j < |g.ritem| && g.InClosure(a.kernels[p], j) && g.IsRule(r') &&
                 g.rlhs[r'] == g.ritem[j] && g.rrhs[r'] == g.rrhs[r];
    assert g.IsRule(r) && ItemAt(g, g.rrhs[r], r, 0) && ItemAt(g, g.rrhs[r], r', 0);
    ItemAtUnique(g, g.rrhs[r], r, 0, r', 0);
    assert a.StateOk(g, p) && a.In(g, p, j);
  }

  /** Conversely, a move on a variable opens all the rules of that variable. */
  lemma GotoHasOpening(g: Grammar, a: Automaton, p: int, q: int, r: int)
    requires a.IsLr0(g) && g.IsRule(r) && a.Trans(p, g.rlhs[r], q)
    ensures a.In(g, p, g.rrhs[r])
  {
    assert a.Advances(g, p, q);
    var i := a.kernels[q][0];
    assert i in a.kernels[q];
    ClosureStep(g, a.kernels[p], i - 1, r);
  }

  /** The augmented rule is never complete: the end marker is not shifted. */
  lemma AugmentedRuleNotReduced(g: Grammar, a: Automaton, q: int)
    requires a.IsLr0(g) && a.IsState(q)
    ensures 2 !in a.reductions[q]
  {
    if 2 in a.reductions[q] {
      assert a.StateOk(g, q);
      assert ItemAt(g, 3, 2, 2) && a.In(g, q, 3);
      if q == 0 {
        BottomItem(g, a, 2, 2);
      } else {
        assert a.HasPredecessor(q);
        var p :| a.IsState(p) && p < q && q in a.shifts[p];
        assert a.StateOk(g, p);
        StepBack(g, a, p, a.accessing[q], q, 2, 2);
      }
    }
  }
}
