/** The closure of item sets (src/mosmlyac/closure.c). */
module Closures {
  import opened Relations
  import opened Grammars
  import opened Warshall

  // ----- Left corners -----

  /** From a variable to the variables that its rules start with; both are numbered from
      the augmented start symbol on. */
  ghost function LeftCorners(g: Grammar): (rel: Relation)
    requires g.WellFormed()
    ensures |rel| == g.nsyms - g.ntokens && IsRelation(rel, |rel|)
    ensures forall v, w {:trigger Edge(rel, v, w)} :: Edge(rel, v, w) <==> StartsWith(g, v, w)
  {
    var rel := seq(g.nsyms - g.ntokens, v requires 0 <= v < g.nsyms - g.ntokens => Corners(g, v, |g.rlhs|));
    assert forall v, e :: 0 <= v < |rel| && 0 <= e < |rel[v]| ==> rel[v][e] in rel[v];
    rel
  }

  /** The first entry of the rule: a symbol, or its terminator when it is empty. */
  function Leading(g: Grammar, r: int): int {
    if 0 <= r < |g.rrhs| && 0 <= g.rrhs[r] < |g.ritem| then g.ritem[g.rrhs[r]] else -1
  }

  ghost predicate StartsWith(g: Grammar, v: int, w: int)
    requires g.WellFormed()
  {
    0 <= v < g.nsyms - g.ntokens && 0 <= w < g.nsyms - g.ntokens &&
    exists r {:trigger g.IsRule(r)} :: g.IsRule(r) && g.rlhs[r] == g.ntokens + v && Leading(g, r) == g.ntokens + w
  }

  ghost function Corners(g: Grammar, v: int, n: int): (ws: seq<int>)
    requires g.WellFormed() && 2 <= n <= |g.rlhs|
    ensures forall w {:trigger w in ws} :: w in ws <==> 0 <= w < g.nsyms - g.ntokens && CornerBelow(g, v, n, w)
  {
    if n == 2 then []
    else
      assert g.IsRule(n - 1);
      Corners(g, v, n - 1) +
      (if g.rlhs[n - 1] == g.ntokens + v && g.IsVar(Leading(g, n - 1)) then [Leading(g, n - 1) - g.ntokens] else [])
  }

  ghost predicate CornerBelow(g: Grammar, v: int, n: int, w: int) {
    exists r {:trigger g.IsRule(r)} ::
      g.IsRule(r) && r < n && g.rlhs[r] == g.ntokens + v && Leading(g, r) == g.ntokens + w
  }

  /** Rule `r` can open when variable `v` is next. */
  ghost predicate FirstDerives(g: Grammar, v: int, r: int)
    requires g.WellFormed()
  {
    g.IsRule(r) && Reaches(LeftCorners(g), v, g.rlhs[r] - g.ntokens)
  }

  /** The row holds the variable that the rule starts with, if any. */
  ghost predicate Taken(g: Grammar, r: int, row: set<int>) {
    g.IsVar(Leading(g, r)) ==> Leading(g, r) - g.ntokens in row
  }

  /** The variables that the rules of variable `v` start with. */
  method FirstSymbols(g: Grammar, v: int) returns (row: set<int>)
    requires g.WellFormed() && 0 <= v < g.nsyms - g.ntokens
    ensures forall w :: w in row <==> StartsWith(g, v, w)
  {
    hide Grammar.WellFormed, Leading, Derives, StartsWith, Taken;
    SomeVariables(g);
    var rules := Derives(g, g.ntokens + v, |g.rlhs|);
    row := {};
    var k := 0;
    while k < |rules|
      invariant 0 <= k <= |rules|
      invariant forall w :: w in row ==> StartsWith(g, v, w)
      invariant forall j :: 0 <= j < k ==> Taken(g, rules[j], row)
    {
      assert rules[k] in rules;
      ghost var before := row;
      var symbol := Leading(g, rules[k]);
      if g.IsVar(symbol) {
        row := row + {symbol - g.ntokens};
      }
      TakeRule(g, v, rules[k], before, row);
      k := k + 1;
    }
    forall w | StartsWith(g, v, w)
      ensures w in row
    {
      var r := StartingRule(g, v, w);
      var j :| 0 <= j < |rules| && rules[j] == r;
      TakenIn(g, r, row, w);
    }
  }

  lemma TakeRule(g: Grammar, v: int, r: int, row: set<int>, row': set<int>)
    requires g.WellFormed() && 0 <= v < g.nsyms - g.ntokens && g.IsRule(r) && g.rlhs[r] == g.ntokens + v
    requires row' == if g.IsVar(Leading(g, r)) then row + {Leading(g, r) - g.ntokens} else row
    ensures Taken(g, r, row') && forall s :: Taken(g, s, row) ==> Taken(g, s, row')
    ensures forall w :: w in row' ==> w in row || StartsWith(g, v, w)
  {
    hide Leading;
  }

  lemma StartingRule(g: Grammar, v: int, w: int) returns (r: int)
    requires g.WellFormed() && StartsWith(g, v, w)
    ensures g.IsRule(r) && g.rlhs[r] == g.ntokens + v && Leading(g, r) == g.ntokens + w && 0 <= w < g.nsyms - g.ntokens
  {
    r :| g.IsRule(r) && g.rlhs[r] == g.ntokens + v && Leading(g, r) == g.ntokens + w;
  }

  lemma TakenIn(g: Grammar, r: int, row: set<int>, w: int)
    requires Taken(g, r, row) && Leading(g, r) == g.ntokens + w && 0 <= w < g.nsyms - g.ntokens
    ensures w in row
  {
  }

  /** The variables that the rules of each variable start with, closed. */
  method SetEFF(g: Grammar) returns (eff: array<set<int>>)
    requires g.WellFormed()
    ensures fresh(eff) && eff.Length == g.nsyms - g.ntokens
    ensures forall v, w :: 0 <= v < eff.Length ==> (w in eff[v] <==> Reaches(LeftCorners(g), v, w))
  {
    hide StartsWith, Grammar.WellFormed;
    SomeVariables(g);
    eff := new set<int>[g.nsyms - g.ntokens](_ => {});
    var v := 0;
    while v < eff.Length
      invariant 0 <= v <= eff.Length
      invariant forall u, w :: 0 <= u < v ==> (w in eff[u] <==> StartsWith(g, u, w))
    {
      var row := FirstSymbols(g, v);
      eff[v] := row;
      v := v + 1;
    }
    ReflexiveTransitiveClosure(eff, LeftCorners(g));
  }

  lemma SomeVariables(g: Grammar)
    requires g.WellFormed()
    ensures g.ntokens + 1 < g.nsyms && |g.rlhs| >= 3 && |g.rrhs| == |g.rlhs| + 1
  {
  }

  /** The rules that can open for each variable. */
  method SetFirstDerives(g: Grammar) returns (first: array<set<int>>)
    requires g.WellFormed()
    ensures fresh(first) && first.Length == g.nsyms - g.ntokens
    ensures forall v, r :: 0 <= v < first.Length ==> (r in first[v] <==> FirstDerives(g, v, r))
  {
    hide Grammar.WellFormed, FirstDerives;
    SomeVariables(g);
    var eff := SetEFF(g);
    first := new set<int>[g.nsyms - g.ntokens](_ => {});
    var i := 0;
    while i < first.Length
      invariant 0 <= i <= first.Length
      invariant forall v, r :: 0 <= v < i ==> (r in first[v] <==> FirstDerives(g, v, r))
      invariant forall v, w :: 0 <= v < eff.Length ==> (w in eff[v] <==> Reaches(LeftCorners(g), v, w))
    {
      var row := {};
      var j := 0;
      while j < first.Length
        invariant 0 <= j <= first.Length
        invariant forall r ::
                    r in row <==> g.IsRule(r) && 0 <= g.rlhs[r] - g.ntokens < j && g.rlhs[r] - g.ntokens in eff[i]
      {
        if j in eff[i] {
          var rules := Derives(g, g.ntokens + j, |g.rlhs|);
          row := row + set r | r in rules;
        }
        j := j + 1;
      }
      FirstRow(g, i, eff[i], row);
      first[i] := row;
      i := i + 1;
    }
  }

  lemma FirstRow(g: Grammar, v: int, eff: set<int>, row: set<int>)
    requires g.WellFormed() && 0 <= v < g.nsyms - g.ntokens
    requires forall w :: w in eff <==> Reaches(LeftCorners(g), v, w)
    requires forall r :: r in row <==>
               g.IsRule(r) && 0 <= g.rlhs[r] - g.ntokens < g.nsyms - g.ntokens && g.rlhs[r] - g.ntokens in eff
    ensures forall r :: r in row <==> FirstDerives(g, v, r)
  {
    forall r | FirstDerives(g, v, r)
      ensures r in row
    {
      assert g.RuleOk(r);
    }
  }

  // ----- The closure -----

  /** The rules that the kernel opens. */
  ghost predicate OpenedBy(g: Grammar, kernel: seq<int>, r: int)
    requires g.WellFormed()
  {
    exists k :: k in kernel && 0 <= k < |g.ritem| && g.IsVar(g.ritem[k]) && FirstDerives(g, g.ritem[k] - g.ntokens, r)
  }

  lemma {:induction false} OpensAlong(g: Grammar, kernel: seq<int>, i: int, path: seq<int>, t: nat)
    requires g.WellFormed() && i in kernel && 0 <= i < |g.ritem| && IsPath(LeftCorners(g), path) && t < |path|
    requires path[0] == g.ritem[i] - g.ntokens
    ensures forall r {:trigger g.IsRule(r)} ::
              g.IsRule(r) && g.rlhs[r] == g.ntokens + path[t] ==> g.InClosure(kernel, g.rrhs[r])
  {
    hide Grammar.InClosure, Grammar.WellFormed, LeftCorners;
    SomeVariables(g);
    var j := i;
    if t == 0 {
      ClosureOfKernel(g, kernel, i);
    } else {
      OpensAlong(g, kernel, i, path, t - 1);
      assert Edge(LeftCorners(g), path[t - 1], path[t - 1 + 1]);
      j := Opener(g, kernel, path[t - 1], path[t]);
    }
    forall r {:trigger g.IsRule(r)} | g.IsRule(r) && g.rlhs[r] == g.ntokens + path[t]
      ensures g.InClosure(kernel, g.rrhs[r])
    {
      ClosureStep(g, kernel, j, r);
    }
  }

  lemma Opener(g: Grammar, kernel: seq<int>, v: int, w: int) returns (j: int)
    requires g.WellFormed() && StartsWith(g, v, w)
    requires forall r {:trigger g.IsRule(r)} ::
               g.IsRule(r) && g.rlhs[r] == g.ntokens + v ==> g.InClosure(kernel, g.rrhs[r])
    ensures 0 <= j < |g.ritem| && g.InClosure(kernel, j) && g.ritem[j] == g.ntokens + w
  {
    hide Grammar.InClosure;
    var s :| g.IsRule(s) && g.rlhs[s] == g.ntokens + v && Leading(g, s) == g.ntokens + w;
    RuleBounds(g, s);
    j := g.rrhs[s];
  }

  lemma OpenedInClosure(g: Grammar, kernel: seq<int>, r: int)
    requires g.WellFormed() && OpenedBy(g, kernel, r)
    ensures g.IsRule(r) && g.InClosure(kernel, g.rrhs[r])
  {
    var k :| k in kernel && 0 <= k < |g.ritem| && g.IsVar(g.ritem[k]) && FirstDerives(g, g.ritem[k] - g.ntokens, r);
    var path :| PathFromTo(LeftCorners(g), path, g.ritem[k] - g.ntokens, g.rlhs[r] - g.ntokens);
    hide Grammar.InClosure;
    OpensAlong(g, kernel, k, path, |path| - 1);
  }

  /** Along a path of items, every item after the first opens a rule that the first
      one's variable can open. */
  lemma {:induction false} ItemsAlong(g: Grammar, path: seq<int>, t: nat)
    requires g.WellFormed() && IsPath(g.ItemRelation(), path) && 0 < t < |path|
    ensures g.IsVar(g.ritem[path[0]])
    ensures exists r {:trigger g.IsRule(r)} ::
              FirstDerives(g, g.ritem[path[0]] - g.ntokens, r) && g.IsRule(r) && path[t] == g.rrhs[r]
  {
    assert Edge(g.ItemRelation(), path[t - 1], path[t - 1 + 1]);
    assert g.Opens(path[t - 1], path[t]);
    var r :| g.IsRule(r) && g.rlhs[r] == g.ritem[path[t - 1]] && g.rrhs[r] == path[t];
    assert g.RuleOk(r);
    hide Grammar.WellFormed;
    var lc := LeftCorners(g);
    if t == 1 {
      ReachesSelf(lc, g.rlhs[r] - g.ntokens);
    } else {
      ItemsAlong(g, path, t - 1);
      var s :| FirstDerives(g, g.ritem[path[0]] - g.ntokens, s) && g.IsRule(s) && path[t - 1] == g.rrhs[s];
      FirstDerivesNext(g, g.ritem[path[0]] - g.ntokens, s, r);
    }
    assert FirstDerives(g, g.ritem[path[0]] - g.ntokens, r);
  }

  lemma FirstDerivesNext(g: Grammar, v: int, s: int, r: int)
    requires g.WellFormed() && FirstDerives(g, v, s) && g.IsRule(r) && g.rlhs[r] == g.ritem[g.rrhs[s]]
    ensures FirstDerives(g, v, r)
  {
    assert g.RuleOk(r) && g.RuleOk(s);
    hide Grammar.WellFormed, LeftCorners, Reaches;
    assert Reaches(LeftCorners(g), v, g.rlhs[s] - g.ntokens);
    var lc := LeftCorners(g);
    assert StartsWith(g, g.rlhs[s] - g.ntokens, g.rlhs[r] - g.ntokens);
    assert Edge(lc, g.rlhs[s] - g.ntokens, g.rlhs[r] - g.ntokens);
    ReachesSelf(lc, g.rlhs[r] - g.ntokens);
    ReachesStep(lc, g.rlhs[s] - g.ntokens, g.rlhs[r] - g.ntokens, g.rlhs[r] - g.ntokens);
    ReachesTransitive(lc, v, g.rlhs[s] - g.ntokens, g.rlhs[r] - g.ntokens);
  }

  /** The closure is the kernel and the openings of the rules that it opens. */
  lemma ClosureMeans(g: Grammar, kernel: seq<int>, i: int)
    requires g.WellFormed() && forall k :: k in kernel ==> 0 <= k < |g.ritem|
    ensures g.InClosure(kernel, i) <==>
              i in kernel || exists r {:trigger g.IsRule(r)} :: g.IsRule(r) && OpenedBy(g, kernel, r) && i == g.rrhs[r]
  {
    if i in kernel {
      ClosureOfKernel(g, kernel, i);
    } else if g.InClosure(kernel, i) {
      var k :| k in kernel && Reaches(g.ItemRelation(), k, i);
      var path :| PathFromTo(g.ItemRelation(), path, k, i);
      hide Grammar.InClosure, FirstDerives;
      ItemsAlong(g, path, |path| - 1);
      var r :| FirstDerives(g, g.ritem[path[0]] - g.ntokens, r) && g.IsRule(r) && i == g.rrhs[r];
      assert OpenedBy(g, kernel, r);
    } else {
      hide Grammar.InClosure, OpenedBy;
      forall r {:trigger g.IsRule(r)} | g.IsRule(r) && OpenedBy(g, kernel, r)
        ensures g.InClosure(kernel, g.rrhs[r])
      {
        OpenedInClosure(g, kernel, r);
      }
    }
  }

  ghost predicate Ascending(s: seq<int>) {
    forall i, j :: 0 <= i < j < |s| ==> s[i] < s[j]
  }

  /** The items put out so far: the kernel items before `csp` and the openings of the
      rules of the set before `ruleno`. */
  ghost predicate Merged(g: Grammar, nucleus: seq<int>, csp: int, ruleset: set<int>, ruleno: int, items: seq<int>)
    requires g.WellFormed()
  {
    && 0 <= csp <= |nucleus| && Ascending(items)
    && (forall i {:trigger i in items} :: i in items <==> i in nucleus[..csp] || OpenedBelow(g, ruleset, ruleno, i))
    && (forall i, k {:trigger i in items, nucleus[k]} :: i in items && csp <= k < |nucleus| ==> i < nucleus[k])
    && (forall i, r {:trigger i in items, r in ruleset} ::
          i in items && r in ruleset && r >= ruleno && g.IsRule(r) ==> i < g.rrhs[r])
  }

  ghost predicate OpenedBelow(g: Grammar, ruleset: set<int>, ruleno: int, i: int)
    requires g.WellFormed()
  {
    exists r :: r in ruleset && r < ruleno && g.IsRule(r) && g.rrhs[r] == i
  }

  lemma AppendAscending(items: seq<int>, i: int)
    requires Ascending(items) && forall j :: j in items ==> j < i
    ensures Ascending(items + [i]) && forall j :: j in items + [i] <==> j in items || j == i
  {
    assert forall k :: 0 <= k < |items| ==> items[k] in items;
  }

  lemma TakeOne(nucleus: seq<int>, csp: int)
    requires 0 <= csp < |nucleus|
    ensures forall i :: i in nucleus[..csp + 1] <==> i in nucleus[..csp] || i == nucleus[csp]
  {
    assert nucleus[..csp + 1] == nucleus[..csp] + [nucleus[csp]];
  }

  /** A kernel item is put out when it is below the next opening, and after the last. */
  lemma MergeKernelItem(g: Grammar, nucleus: seq<int>, csp: int, ruleset: set<int>, ruleno: int, items: seq<int>)
    requires g.WellFormed() && Merged(g, nucleus, csp, ruleset, ruleno, items) && Ascending(nucleus) && csp < |nucleus|
    requires forall r :: r in ruleset && r >= ruleno && g.IsRule(r) ==> nucleus[csp] < g.rrhs[r]
    ensures Merged(g, nucleus, csp + 1, ruleset, ruleno, items + [nucleus[csp]])
  {
    hide Grammar.WellFormed, OpenedBelow;
    AppendAscending(items, nucleus[csp]);
    TakeOne(nucleus, csp);
  }

  /** Rule `r` of the set is next: its opening is put out, and a kernel item equal to it
      is passed over. */
  lemma MergeOpening(g: Grammar, nucleus: seq<int>, csp: int, ruleset: set<int>, r: int, items: seq<int>, csp': int)
    requires g.WellFormed() && Merged(g, nucleus, csp, ruleset, r, items) && Ascending(nucleus) && r in ruleset
    requires g.IsRule(r)
    requires csp < |nucleus| ==> nucleus[csp] >= g.rrhs[r]
    requires csp' == if csp < |nucleus| && nucleus[csp] == g.rrhs[r] then csp + 1 else csp
    ensures Merged(g, nucleus, csp', ruleset, r + 1, items + [g.rrhs[r]])
  {
    var item := g.rrhs[r];
    AppendAscending(items, item);
    if csp < |nucleus| {
      TakeOne(nucleus, csp);
    }
    OpenedNext(g, ruleset, r);
    forall s | s in ruleset && s >= r + 1 && g.IsRule(s)
      ensures item < g.rrhs[s]
    {
      RuleStarts(g, r, s);
    }
  }

  lemma OpenedNext(g: Grammar, ruleset: set<int>, r: int)
    requires g.WellFormed()
    ensures forall i {:trigger OpenedBelow(g, ruleset, r + 1, i)} ::
              OpenedBelow(g, ruleset, r + 1, i) <==>
                OpenedBelow(g, ruleset, r, i) || (r in ruleset && g.IsRule(r) && g.rrhs[r] == i)
  {
  }

  lemma MergeSkip(g: Grammar, nucleus: seq<int>, csp: int, ruleset: set<int>, r: int, items: seq<int>)
    requires g.WellFormed() && Merged(g, nucleus, csp, ruleset, r, items) && !(r in ruleset && g.IsRule(r))
    ensures Merged(g, nucleus, csp, ruleset, r + 1, items)
  {
    hide Grammar.WellFormed;
    OpenedNext(g, ruleset, r);
  }

  /** Merges the kernel with the openings of the rules that it opens. */
  method Closure(g: Grammar, first: array<set<int>>, nucleus: seq<int>) returns (itemset: seq<int>)
    requires g.WellFormed() && first.Length == g.nsyms - g.ntokens
    requires forall v, r :: 0 <= v < first.Length ==> (r in first[v] <==> FirstDerives(g, v, r))
    requires Ascending(nucleus) && forall k :: 0 <= k < |nucleus| ==> 0 <= nucleus[k] < |g.ritem|
    ensures Ascending(itemset) && forall i :: i in itemset <==> g.InClosure(nucleus, i)
  {
    hide Grammar.WellFormed, FirstDerives, Grammar.InClosure, Merged, OpenedBy, Ascending, OpenedBelow;
    SomeVariables(g);
    var ruleset := OpenedRules(g, first, nucleus);
    itemset := [];
    var csp, ruleno := 0, 0;
    MergeStart(g, nucleus, ruleset);
    while ruleno < |g.rlhs|
      invariant 0 <= ruleno <= |g.rlhs| && Merged(g, nucleus, csp, ruleset, ruleno, itemset)
      invariant 0 <= csp <= |nucleus|
    {
      if ruleno in ruleset {
        OpenedRange(g, nucleus, ruleno);
        var itemno := g.rrhs[ruleno];
        while csp < |nucleus| && nucleus[csp] < itemno
          invariant 0 <= csp <= |nucleus| && Merged(g, nucleus, csp, ruleset, ruleno, itemset)
        {
          LaterOpenings(g, ruleset, ruleno, nucleus[csp]);
          MergeKernelItem(g, nucleus, csp, ruleset, ruleno, itemset);
          itemset := itemset + [nucleus[csp]];
          csp := csp + 1;
        }
        ghost var before := csp;
        ghost var items := itemset;
        itemset := itemset + [itemno];
        while csp < |nucleus| && nucleus[csp] == itemno
          invariant before <= csp <= |nucleus|
          invariant csp == before || (csp == before + 1 && nucleus[before] == itemno)
        {
          NotTwice(nucleus, before, csp);
          csp := csp + 1;
        }
        MergeOpening(g, nucleus, before, ruleset, ruleno, items, csp);
      } else {
        MergeSkip(g, nucleus, csp, ruleset, ruleno, itemset);
      }
      ruleno := ruleno + 1;
    }
    while csp < |nucleus|
      invariant 0 <= csp <= |nucleus| && Merged(g, nucleus, csp, ruleset, |g.rlhs|, itemset)
    {
      MergeKernelItem(g, nucleus, csp, ruleset, |g.rlhs|, itemset);
      itemset := itemset + [nucleus[csp]];
      csp := csp + 1;
    }
    MergeEnd(g, nucleus, ruleset, itemset);
  }

  lemma MergeStart(g: Grammar, nucleus: seq<int>, ruleset: set<int>)
    requires g.WellFormed()
    ensures Merged(g, nucleus, 0, ruleset, 0, [])
  {
  }

  lemma OpenedRange(g: Grammar, nucleus: seq<int>, r: int)
    requires g.WellFormed() && OpenedBy(g, nucleus, r)
    ensures g.IsRule(r)
  {
  }

  lemma LaterOpenings(g: Grammar, ruleset: set<int>, r: int, item: int)
    requires g.WellFormed() && g.IsRule(r) && item < g.rrhs[r]
    ensures forall s :: s in ruleset && s >= r && g.IsRule(s) ==> item < g.rrhs[s]
  {
    forall s | s in ruleset && s >= r && g.IsRule(s)
      ensures item < g.rrhs[s]
    {
      if s > r {
        RuleBounds(g, r);
        RuleStarts(g, r, s);
      }
    }
  }

  lemma NotTwice(nucleus: seq<int>, a: int, b: int)
    requires Ascending(nucleus) && 0 <= a <= b < |nucleus| && nucleus[a] == nucleus[b]
    ensures a == b
  {
  }

  lemma MergeEnd(g: Grammar, nucleus: seq<int>, ruleset: set<int>, items: seq<int>)
    requires g.WellFormed() && Merged(g, nucleus, |nucleus|, ruleset, |g.rlhs|, items)
    requires forall r :: r in ruleset <==> OpenedBy(g, nucleus, r)
    requires forall k :: 0 <= k < |nucleus| ==> 0 <= nucleus[k] < |g.ritem|
    ensures Ascending(items) && forall i :: i in items <==> g.InClosure(nucleus, i)
  {
    hide Grammar.WellFormed, OpenedBy, Grammar.InClosure;
    assert nucleus[..|nucleus|] == nucleus;
    forall i
      ensures i in items <==> g.InClosure(nucleus, i)
    {
      ClosureMeans(g, nucleus, i);
    }
  }

  /** The union of the rows of the variables behind the dots. */
  method OpenedRules(g: Grammar, first: array<set<int>>, nucleus: seq<int>) returns (ruleset: set<int>)
    requires g.WellFormed() && first.Length == g.nsyms - g.ntokens
    requires forall v, r :: 0 <= v < first.Length ==> (r in first[v] <==> FirstDerives(g, v, r))
    requires forall k :: 0 <= k < |nucleus| ==> 0 <= nucleus[k] < |g.ritem|
    ensures forall r :: r in ruleset <==> OpenedBy(g, nucleus, r)
  {
    hide Grammar.WellFormed, FirstDerives;
    ruleset := {};
    var csp := 0;
    while csp < |nucleus|
      invariant 0 <= csp <= |nucleus|
      invariant forall r :: r in ruleset ==> OpenedBy(g, nucleus, r)
      invariant forall k, r {:trigger FirstDerives(g, g.ritem[nucleus[k]] - g.ntokens, r)} ::
                  (0 <= k < csp && g.IsVar(g.ritem[nucleus[k]]) &&
                   FirstDerives(g, g.ritem[nucleus[k]] - g.ntokens, r)) ==> r in ruleset
    {
      var symbol := g.ritem[nucleus[csp]];
      assert nucleus[csp] in nucleus;
      if g.IsVar(symbol) {
        ruleset := ruleset + first[symbol - g.ntokens];
      }
      csp := csp + 1;
    }
    forall r | OpenedBy(g, nucleus, r)
      ensures r in ruleset
    {
      var i :| i in nucleus && 0 <= i < |g.ritem| && g.IsVar(g.ritem[i]) && FirstDerives(g, g.ritem[i] - g.ntokens, r);
      var k :| 0 <= k < |nucleus| && nucleus[k] == i;
    }
  }
}
