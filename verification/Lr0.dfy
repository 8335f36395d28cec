/** The LR(0) collection (src/mosmlyac/lr0.c). */
module Lr0 {
  import opened Options
  import opened Grammars
  import opened Closures

  /** `kernel` holds exactly the items of the closure of `from` advanced over `s`. */
  ghost predicate Advanced(g: Grammar, from: seq<int>, s: int, kernel: seq<int>)
    requires g.WellFormed()
  {
    forall i {:trigger i in kernel} :: i in kernel <==> AdvancedItem(g, from, s, i)
  }

  ghost predicate AdvancedItem(g: Grammar, from: seq<int>, s: int, i: int)
    requires g.WellFormed()
  {
    1 <= i < |g.ritem| && g.InClosure(from, i - 1) && g.ritem[i - 1] == s
  }

  // ----- Reductions -----

  lemma TerminatorItem(g: Grammar, i: int)
    requires g.WellFormed() && 1 <= i < |g.ritem| && g.ritem[i] < 0
    ensures g.IsRule(-g.ritem[i]) && |g.rrhs| == |g.rlhs| + 1 && g.Terminator(-g.ritem[i]) == i
  {
    ItemHasRule(g, i);
    var r, k :| ItemAt(g, i, r, k);
    ItemSymbol(g, i, r, k);
    RuleBounds(g, r);
  }

  ghost predicate ReductionsOk(g: Grammar, kernel: seq<int>, rules: seq<int>)
    requires g.WellFormed()
  {
    && (forall r {:trigger r in rules} :: r in rules <==> g.IsRule(r) && g.InClosure(kernel, g.Terminator(r)))
    && (forall i, j :: 0 <= i < j < |rules| ==> rules[i] != rules[j])
  }

  /** The rules whose complete items are in the item set. */
  method SaveReductions(g: Grammar, items: seq<int>, ghost kernel: seq<int>) returns (rules: seq<int>)
    requires g.WellFormed() && Ascending(items) && (forall i :: i in items ==> 1 <= i < |g.ritem|)
    requires forall i :: i in items <==> g.InClosure(kernel, i)
    ensures ReductionsOk(g, kernel, rules) && Ascending(rules)
  {
    hide Grammar.WellFormed, Grammar.InClosure, CompleteSoFar;
    SomeVariables(g);
    NoneComplete(g, items);
    rules := [];
    var isp := 0;
    while isp < |items|
      invariant 0 <= isp <= |items| && CompleteSoFar(g, items, isp, rules)
    {
      assert items[isp] in items;
      var item := g.ritem[items[isp]];
      NextComplete(g, items, isp, rules);
      if item < 0 {
        rules := rules + [-item];
      }
      isp := isp + 1;
    }
    AllComplete(g, items, kernel, rules);
  }

  /** The rules whose complete items are among the first `n`, in order. */
  ghost predicate CompleteSoFar(g: Grammar, items: seq<int>, n: int, rules: seq<int>)
    requires g.WellFormed() && 0 <= n <= |items|
  {
    && (forall r :: r in rules ==> CompleteBelow(g, items, n, r))
    && (forall r {:trigger CompleteBelow(g, items, n, r)} :: CompleteBelow(g, items, n, r) ==> r in rules)
    && Ascending(rules)
  }

  lemma NextComplete(g: Grammar, items: seq<int>, n: int, rules: seq<int>)
    requires g.WellFormed() && 0 <= n < |items| && Ascending(items) && 1 <= items[n] < |g.ritem|
    requires CompleteSoFar(g, items, n, rules)
    ensures var item := g.ritem[items[n]];
            CompleteSoFar(g, items, n + 1, if item < 0 then rules + [-item] else rules)
  {
    hide Grammar.WellFormed, CompleteBelow;
    CompleteStep(g, items, n);
    var item := g.ritem[items[n]];
    if item < 0 {
      var rules' := rules + [-item];
      forall i | 0 <= i < |rules|
        ensures rules[i] < -item
      {
        assert rules[i] in rules && CompleteBelow(g, items, n, rules[i]);
      }
      forall r | r in rules'
        ensures CompleteBelow(g, items, n + 1, r)
      {
        assert r in rules || r == -item;
      }
    }
  }

  ghost predicate CompleteBelow(g: Grammar, items: seq<int>, n: int, r: int)
    requires g.WellFormed() && 0 <= n <= |items|
  {
    g.IsRule(r) && exists k :: 0 <= k < n && items[k] == g.Terminator(r)
  }

  lemma CompleteStep(g: Grammar, items: seq<int>, n: int)
    requires g.WellFormed() && 0 <= n < |items| && Ascending(items) && 1 <= items[n] < |g.ritem|
    ensures forall r {:trigger CompleteBelow(g, items, n + 1, r)} ::
              CompleteBelow(g, items, n + 1, r) <==> CompleteBelow(g, items, n, r) || g.ritem[items[n]] == -r < 0
    ensures g.ritem[items[n]] < 0 ==> forall r :: CompleteBelow(g, items, n, r) ==> r < -g.ritem[items[n]]
    ensures g.ritem[items[n]] < 0 ==> CompleteBelow(g, items, n + 1, -g.ritem[items[n]])
  {
    if g.ritem[items[n]] < 0 {
      TerminatorItem(g, items[n]);
    }
    forall r | g.IsRule(r) && items[n] == g.Terminator(r)
      ensures g.ritem[items[n]] == -r
    {
      RuleBounds(g, r);
      assert g.RuleOk(r);
    }
    forall r | g.ritem[items[n]] < 0 && CompleteBelow(g, items, n, r)
      ensures r < -g.ritem[items[n]]
    {
      RuleBounds(g, r);
      if r > -g.ritem[items[n]] {
        TerminatorsAscend(g, -g.ritem[items[n]], r);
      }
    }
  }

  /** Later rules have later terminators. */
  lemma {:induction false} TerminatorsAscend(g: Grammar, r: int, r': int)
    requires g.WellFormed() && g.IsRule(r) && g.IsRule(r') && r < r'
    ensures g.Terminator(r) < g.Terminator(r')
    decreases r'
  {
    assert g.RuleOk(r');
    if r < r' - 1 {
      TerminatorsAscend(g, r, r' - 1);
    }
  }

  lemma NoneComplete(g: Grammar, items: seq<int>)
    requires g.WellFormed()
    ensures CompleteSoFar(g, items, 0, [])
  {
  }

  lemma AllComplete(g: Grammar, items: seq<int>, kernel: seq<int>, rules: seq<int>)
    requires g.WellFormed() && forall i :: i in items <==> g.InClosure(kernel, i)
    requires CompleteSoFar(g, items, |items|, rules)
    ensures ReductionsOk(g, kernel, rules) && Ascending(rules)
  {
    hide Grammar.WellFormed, Grammar.InClosure;
    SomeVariables(g);
    forall r | g.IsRule(r) && g.InClosure(kernel, g.Terminator(r))
      ensures r in rules
    {
      assert g.Terminator(r) in items;
      assert CompleteBelow(g, items, |items|, r);
    }
  }

  // ----- Successor kernels -----

  /** Advancing one of the first `n` items over `s` gives item `i`. */
  ghost predicate MovedItem(g: Grammar, items: seq<int>, n: int, s: int, i: int)
    requires 0 <= n <= |items|
  {
    s > 0 && exists k :: 0 <= k < n && items[k] + 1 == i && 0 <= items[k] < |g.ritem| && g.ritem[items[k]] == s
  }

  ghost predicate MovedAll(g: Grammar, items: seq<int>, n: int, s: int, kernel: seq<int>)
    requires 0 <= n <= |items|
  {
    Ascending(kernel) && forall i {:trigger i in kernel} :: i in kernel <==> MovedItem(g, items, n, s, i)
  }

  /** The successor kernels after `n` items, and the symbols that have one. */
  ghost predicate ItemsetsOk(g: Grammar, items: seq<int>, n: int, kernel: seq<seq<int>>, symbols: seq<int>)
    requires 0 <= n <= |items|
  {
    && |kernel| == g.nsyms
    && (forall s {:trigger kernel[s]} :: 0 <= s < g.nsyms ==> MovedAll(g, items, n, s, kernel[s]))
    && (forall s {:trigger s in symbols} :: s in symbols <==> 0 < s < g.nsyms && kernel[s] != [])
    && (forall i, j :: 0 <= i < j < |symbols| ==> symbols[i] != symbols[j])
  }

  lemma MoveOne(g: Grammar, items: seq<int>, n: int, s: int, kernel: seq<int>)
    requires 0 <= n < |items| && Ascending(items) && 0 <= items[n] < |g.ritem| && MovedAll(g, items, n, s, kernel)
    ensures if g.ritem[items[n]] == s > 0 then MovedAll(g, items, n + 1, s, kernel + [items[n] + 1])
            else MovedAll(g, items, n + 1, s, kernel)
  {
    var hit := g.ritem[items[n]] == s > 0;
    forall i
      ensures MovedItem(g, items, n + 1, s, i) <==> MovedItem(g, items, n, s, i) || (hit && i == items[n] + 1)
    {
      if MovedItem(g, items, n + 1, s, i) {
        var k :| 0 <= k < n + 1 && items[k] + 1 == i && 0 <= items[k] < |g.ritem| && g.ritem[items[k]] == s;
      }
    }
    if hit {
      AppendAscending(kernel, items[n] + 1);
    }
  }

  lemma ItemsetsStep(g: Grammar, items: seq<int>, n: int, kernel: seq<seq<int>>, symbols: seq<int>, symbol: int)
    requires 0 <= n < |items| && Ascending(items) && 0 <= items[n] < |g.ritem|
    requires ItemsetsOk(g, items, n, kernel, symbols)
    requires symbol == g.ritem[items[n]] && symbol < g.nsyms
    ensures if symbol <= 0 then ItemsetsOk(g, items, n + 1, kernel, symbols)
            else ItemsetsOk(g, items, n + 1, kernel[symbol := kernel[symbol] + [items[n] + 1]],
                            if kernel[symbol] == [] then symbols + [symbol] else symbols)
  {
    hide MovedAll, Ascending;
    var m := n + 1;
    var kernel' := if symbol <= 0 then kernel else kernel[symbol := kernel[symbol] + [items[n] + 1]];
    var symbols' := if symbol > 0 && kernel[symbol] == [] then symbols + [symbol] else symbols;
    forall s | 0 <= s < g.nsyms
      ensures MovedAll(g, items, m, s, kernel'[s])
    {
      assert MovedAll(g, items, n, s, kernel[s]);
      MoveOne(g, items, n, s, kernel[s]);
    }
    forall s
      ensures s in symbols' <==> 0 < s < g.nsyms && kernel'[s] != []
    {
      assert s in symbols <==> 0 < s < g.nsyms && kernel[s] != [];
    }
    forall i, j | 0 <= i < j < |symbols'|
      ensures symbols'[i] != symbols'[j]
    {
      assert symbols[i] in symbols;
    }
  }

  method NewItemsets(g: Grammar, items: seq<int>, kernel: array<seq<int>>) returns (symbols: seq<int>)
    requires g.WellFormed() && kernel.Length == g.nsyms && Ascending(items)
    requires forall k :: 0 <= k < |items| ==> 0 <= items[k] < |g.ritem| && g.ritem[items[k]] < g.nsyms
    modifies kernel
    ensures ItemsetsOk(g, items, |items|, kernel[..], symbols)
  {
    hide Grammar.WellFormed, ItemsetsOk, Ascending;
    var i := 0;
    while i < kernel.Length
      invariant 0 <= i <= kernel.Length && forall s :: 0 <= s < i ==> kernel[s] == []
    {
      kernel[i] := [];
      i := i + 1;
    }
    symbols := [];
    NothingMoved(g, items, kernel[..]);
    var isp := 0;
    while isp < |items|
      invariant 0 <= isp <= |items| && ItemsetsOk(g, items, isp, kernel[..], symbols)
    {
      var symbol := g.ritem[items[isp]];
      ItemsetsStep(g, items, isp, kernel[..], symbols, symbol);
      if symbol > 0 {
        ghost var before := kernel[..];
        if kernel[symbol] == [] {
          symbols := symbols + [symbol];
        }
        kernel[symbol] := kernel[symbol] + [items[isp] + 1];
        assert kernel[..] == before[symbol := before[symbol] + [items[isp] + 1]];
      }
      isp := isp + 1;
    }
  }

  lemma NothingMoved(g: Grammar, items: seq<int>, kernel: seq<seq<int>>)
    requires |kernel| == g.nsyms && forall s :: 0 <= s < |kernel| ==> kernel[s] == []
    ensures ItemsetsOk(g, items, 0, kernel, [])
  {
  }

  // ----- Sorting the shift symbols -----

  /** Elements `j` up to `i` of `t` are those of `s` moved up by one, and the rest is the same. */
  ghost predicate MovedUp(s: seq<int>, t: seq<int>, j: int, i: int) {
    && |s| == |t| && 0 <= j <= i < |s|
    && (forall k :: 0 <= k <= j ==> t[k] == s[k]) && (forall k :: i < k < |s| ==> t[k] == s[k])
    && (forall k :: j < k <= i ==> t[k] == s[k - 1])
  }

  lemma Inserted(s: seq<int>, t: seq<int>, j: int, i: int)
    requires MovedUp(s, t, j, i) && (forall k :: j <= k < i ==> s[k] > s[i]) && (j > 0 ==> s[j - 1] <= s[i])
    requires (forall k, l :: 0 <= k < l < i ==> s[k] < s[l]) && (forall k, l :: 0 <= k < l < |s| ==> s[k] != s[l])
    ensures var u := t[j := s[i]];
            (forall k, l :: 0 <= k < l < i + 1 ==> u[k] < u[l]) && (forall k, l :: 0 <= k < l < |u| ==> u[k] != u[l]) &&
            forall x :: x in u <==> x in s
  {
    var u := t[j := s[i]];
    forall x | x in s
      ensures x in u
    {
      var k :| 0 <= k < |s| && s[k] == x;
      var l := if k == i then j else if j <= k < i then k + 1 else k;
      assert u[l] == x;
    }
  }

  /** Insertion sort in place. */
  method SortSymbols(a: array<int>)
    requires forall k, l :: 0 <= k < l < a.Length ==> a[k] != a[l]
    modifies a
    ensures Ascending(a[..]) && forall x :: x in a[..] <==> x in old(a[..])
  {
    ghost var s0 := a[..];
    var i := 1;
    while i < a.Length
      invariant 1 <= i && (a.Length > 0 ==> i <= a.Length)
      invariant forall k, l :: 0 <= k < l < i && l < a.Length ==> a[k] < a[l]
      invariant forall k, l :: 0 <= k < l < a.Length ==> a[k] != a[l]
      invariant forall x :: x in a[..] <==> x in s0
    {
      var symbol, j := a[i], i;
      ghost var s := a[..];
      while j > 0 && a[j - 1] > symbol
        invariant 0 <= j <= i && MovedUp(s, a[..], j, i)
        invariant forall k :: j <= k < i ==> s[k] > symbol
      {
        a[j] := a[j - 1];
        j := j - 1;
      }
      Inserted(s, a[..], j, i);
      ghost var t := a[..];
      a[j] := symbol;
      assert a[..] == t[j := symbol];
      i := i + 1;
    }
  }

  // ----- States -----

  /** The kernel of a state other than 0, reached on symbol `s`. */
  ghost predicate KernelOk(g: Grammar, kernel: seq<int>, s: int) {
    && Ascending(kernel) && kernel != [] && 0 < s && 1 <= kernel[0] < |g.ritem|
    && forall i :: i in kernel ==> 1 <= i < |g.ritem| && g.ritem[i - 1] == s
  }

  ghost predicate CoresOk(g: Grammar, kernels: seq<seq<int>>, accessing: seq<int>) {
    && 0 < |kernels| == |accessing| && kernels[0] == [1] && accessing[0] == 0
    && (forall q :: 0 < q < |kernels| ==> KernelOk(g, kernels[q], accessing[q]))
    && (forall p, q :: 0 <= p < q < |kernels| ==> kernels[p] != kernels[q])
  }

  /** State `q` is in the chain of item `key`. */
  ghost predicate HasKey(kernels: seq<seq<int>>, q: int, key: int) {
    0 < q < |kernels| && kernels[q] != [] && kernels[q][0] == key
  }

  /** `x` is the first state from `from` on in the chain of `key`, or -1. */
  ghost predicate IsNext(kernels: seq<seq<int>>, key: int, from: int, x: int) {
    if x == -1 then forall q :: from <= q ==> !HasKey(kernels, q, key)
    else from <= x && HasKey(kernels, x, key) && forall q :: from <= q < x ==> !HasKey(kernels, q, key)
  }

  /** The chains of states that share their first item. */
  ghost predicate ChainsOk(g: Grammar, kernels: seq<seq<int>>, link: seq<int>, stateSet: seq<int>) {
    && |link| == |kernels| && |stateSet| == |g.ritem|
    && (forall key :: 0 <= key < |stateSet| ==> IsNext(kernels, key, 1, stateSet[key]))
    && (forall q :: 0 < q < |kernels| && kernels[q] != [] ==> IsNext(kernels, kernels[q][0], q + 1, link[q]))
  }

  /** A new state goes to the end of its chain. */
  lemma ChainExtended(g: Grammar, kernels: seq<seq<int>>, link: seq<int>, stateSet: seq<int>, kernel: seq<int>,
                      last: int)
    requires ChainsOk(g, kernels, link, stateSet) && 0 < |kernels| && kernel != [] && 0 <= kernel[0] < |stateSet|
    requires if last == 0 then stateSet[kernel[0]] == -1
             else 0 < last < |kernels| && HasKey(kernels, last, kernel[0]) && link[last] == -1
    ensures var n := |kernels|;
            if last == 0 then ChainsOk(g, kernels + [kernel], link + [-1], stateSet[kernel[0] := n])
            else ChainsOk(g, kernels + [kernel], link[last := n] + [-1], stateSet)
  {
    var n, ks := |kernels|, kernels + [kernel];
    var link' := if last == 0 then link + [-1] else link[last := n] + [-1];
    var set' := if last == 0 then stateSet[kernel[0] := n] else stateSet;
    hide HasKey, IsNext;
    forall key | 0 <= key < |set'|
      ensures IsNext(ks, key, 1, set'[key])
    {
      NextKept(kernels, kernel, key, 1, stateSet[key]);
      if last != 0 {
        NotLast(kernels, kernel[0], 1, last);
      }
    }
    forall q | 0 < q < |ks| && ks[q] != []
      ensures IsNext(ks, ks[q][0], q + 1, link'[q])
    {
      if q < n {
        NextKept(kernels, kernel, kernels[q][0], q + 1, link[q]);
        if last != 0 && kernels[q][0] == kernel[0] && q != last {
          SameChain(kernels, link, kernel[0], q, last);
        } else if last == 0 && kernels[q][0] == kernel[0] {
          NoChain(kernels, kernel[0], q);
        }
      } else {
        NextNone(ks, kernel[0], n + 1);
      }
    }
  }

  lemma NextKept(kernels: seq<seq<int>>, kernel: seq<int>, key: int, from: int, x: int)
    requires IsNext(kernels, key, from, x) && kernel != [] && 1 <= from <= |kernels|
    ensures IsNext(kernels + [kernel], key, from, if x == -1 && key == kernel[0] then |kernels| else x)
  {
    assert forall q :: HasKey(kernels + [kernel], q, key) <==>
             HasKey(kernels, q, key) || (0 < q == |kernels| && key == kernel[0]);
  }

  lemma NotLast(kernels: seq<seq<int>>, key: int, from: int, last: int)
    requires HasKey(kernels, last, key) && from <= last
    ensures !IsNext(kernels, key, from, -1)
  {
  }

  lemma SameChain(kernels: seq<seq<int>>, link: seq<int>, key: int, q: int, last: int)
    requires HasKey(kernels, last, key) && 0 < q < |kernels| == |link| && kernels[q] != [] && kernels[q][0] == key
    requires q != last
    requires IsNext(kernels, key, last + 1, -1) && IsNext(kernels, key, q + 1, link[q])
    ensures link[q] != -1
  {
    assert HasKey(kernels, q, key);
  }

  lemma NoChain(kernels: seq<seq<int>>, key: int, q: int)
    requires 0 < q < |kernels| && kernels[q] != [] && kernels[q][0] == key
    ensures !IsNext(kernels, key, 1, -1)
  {
    assert HasKey(kernels, q, key);
  }

  lemma NextNone(kernels: seq<seq<int>>, key: int, from: int)
    requires |kernels| <= from
    ensures IsNext(kernels, key, from, -1)
  {
  }

  /** State `q` is the target on symbol `s`. */
  ghost predicate Target(g: Grammar, kernels: seq<seq<int>>, accessing: seq<int>, from: seq<int>, s: int, q: int)
    requires g.WellFormed()
  {
    0 < q < |kernels| == |accessing| && accessing[q] == s && 0 < s && kernels[q] != [] &&
      Advanced(g, from, s, kernels[q])
  }

  /** The targets of the first symbols have been found, and only they have been added. */
  ghost predicate Appended(ks0: seq<seq<int>>, acc0: seq<int>, ks: seq<seq<int>>, acc: seq<int>, kernel: seq<seq<int>>,
                           sorted: seq<int>, row: seq<int>) {
    && |ks0| == |acc0| && |ks| == |acc| && ks0 <= ks && acc0 <= acc && |row| <= |sorted|
    && (forall j :: 0 <= j < |row| ==> 0 < row[j] < |ks| && 0 <= sorted[j] < |kernel| &&
                                       acc[row[j]] == sorted[j] && ks[row[j]] == kernel[sorted[j]])
    && (forall q :: |ks0| <= q < |ks| ==> q in row)
  }

  lemma NothingAppended(ks: seq<seq<int>>, acc: seq<int>, kernel: seq<seq<int>>, sorted: seq<int>)
    requires |ks| == |acc|
    ensures Appended(ks, acc, ks, acc, kernel, sorted, [])
  {
  }

  lemma AppendedStep(ks0: seq<seq<int>>, acc0: seq<int>, ks: seq<seq<int>>, acc: seq<int>, ks': seq<seq<int>>,
                     acc': seq<int>, kernel: seq<seq<int>>, sorted: seq<int>, row: seq<int>, q: int)
    requires Appended(ks0, acc0, ks, acc, kernel, sorted, row) && |row| < |sorted| && 0 <= sorted[|row|] < |kernel|
    requires var k, s := kernel[sorted[|row|]], sorted[|row|];
             (ks' == ks && acc' == acc) || (q == |ks| && ks' == ks + [k] && acc' == acc + [s])
    requires 0 < q < |ks'| == |acc'| && ks'[q] == kernel[sorted[|row|]] && acc'[q] == sorted[|row|]
    ensures Appended(ks0, acc0, ks', acc', kernel, sorted, row + [q])
  {
    var row' := row + [q];
    assert row'[|row|] == q;
    forall p | |ks0| <= p < |ks'|
      ensures p in row'
    {
      if p < |ks| {
        assert p in row;
      }
    }
  }

  class Builder {
    const g: Grammar
    var kernels: seq<seq<int>>
    var accessing: seq<int>
    var link: seq<int>
    var stateSet: array<int>
    var kernel: array<seq<int>>

    ghost predicate Valid()
      reads this, stateSet
    {
      && g.WellFormed() && kernel.Length == g.nsyms
      && CoresOk(g, kernels, accessing) && ChainsOk(g, kernels, link, stateSet[..])
    }

    /** The single kernel item of state 0 opens the augmented rule. */
    constructor (g: Grammar)
      requires g.WellFormed()
      ensures Valid() && this.g == g && kernels == [[1]] && fresh(stateSet) && fresh(kernel)
    {
      this.g := g;
      kernels, accessing, link := [[g.rrhs[2]]], [0], [-1];
      stateSet := new int[|g.ritem|](_ => -1);
      kernel := new seq<int>[g.nsyms](_ => []);
    }

    /** Appends a state with the kernel of the symbol at the end of the chain after `last`,
        or as the first of its chain. */
    method NewState(symbol: int, last: int) returns (q: int)
      requires Valid() && 0 <= symbol < kernel.Length && KernelOk(g, kernel[symbol], symbol)
      requires stateSet.Length == |g.ritem|
      requires if last == 0 then stateSet[kernel[symbol][0]] == -1
               else 0 < last < |kernels| == |link| && HasKey(kernels, last, kernel[symbol][0]) && link[last] == -1
      requires kernel[symbol] !in kernels
      modifies this, stateSet
      ensures Valid() && q == |old(kernels)| && kernel == old(kernel) && stateSet == old(stateSet)
      ensures kernels == old(kernels) + [kernel[symbol]] && accessing == old(accessing) + [symbol]
    {
      hide Ascending, HasKey, Grammar.WellFormed, IsNext;
      q := |kernels|;
      ghost var before := stateSet[..];
      ChainExtended(g, kernels, link, stateSet[..], kernel[symbol], last);
      CoreExtended(g, kernels, accessing, kernel[symbol], symbol);
      if last == 0 {
        stateSet[kernel[symbol][0]] := q;
        assert stateSet[..] == before[kernel[symbol][0] := q];
        link := link + [-1];
      } else {
        link := link[last := q] + [-1];
      }
      kernels := kernels + [kernel[symbol]];
      accessing := accessing + [symbol];
    }

    /** The state with the kernel of the symbol: one of those that share its first item, or
        a new one.  Fails when there would be too many states. */
    method GetState(symbol: int) returns (q: int, ok: bool)
      requires Valid() && 0 <= symbol < kernel.Length && KernelOk(g, kernel[symbol], symbol)
      modifies this, stateSet
      ensures Valid() && kernel == old(kernel) && stateSet == old(stateSet)
      ensures ok ==> 0 < q < |kernels| && kernels[q] == kernel[symbol] && accessing[q] == symbol
      ensures if ok && kernel[symbol] !in old(kernels) then
                q == |old(kernels)| && kernels == old(kernels) + [kernel[symbol]] &&
                  accessing == old(accessing) + [symbol]
              else kernels == old(kernels) && accessing == old(accessing)
      ensures !ok <==> kernel[symbol] !in old(kernels) && |old(kernels)| >= MAXSHORT
    {
      hide Ascending, Grammar.WellFormed, ChainsOk, CoresOk, IsNext, HasKey;
      var key := kernel[symbol][0];
      ghost var chains := stateSet[..];
      NextFirst(g, kernels, link, chains, key);
      CoresSize(g, kernels, accessing);
      q, ok := 0, true;
      var sp := stateSet[key];
      var last := 0;
      while sp != -1
        invariant 0 <= last < |kernels| && -1 <= sp < |kernels| && (sp != -1 ==> last < sp)
        invariant IsNext(kernels, key, last + 1, sp) && forall s :: 0 < s <= last ==> kernels[s] != kernel[symbol]
        invariant if last == 0 then sp == stateSet[key] else HasKey(kernels, last, key) && link[last] == sp
        invariant ChainsOk(g, kernels, link, chains)
        decreases if sp == -1 then 0 else |kernels| - sp
        modifies {}
      {
        if kernels[sp] == kernel[symbol] {
          SameAccess(g, kernels, accessing, sp, symbol);
          q := sp;
          return;
        }
        NotBetween(kernels, key, last, sp, kernel[symbol]);
        NextLink(g, kernels, link, chains, sp, key);
        last := sp;
        sp := link[sp];
      }
      NoneWithKernel(g, kernels, accessing, key, last, kernel[symbol], symbol);
      if |kernels| >= MAXSHORT {
        ok := false;
        return;
      }
      q := NewState(symbol, last);
    }

    /** The targets of the sorted symbols, in their order. */
    method AppendStates(symbols: seq<int>) returns (row: seq<int>, ghost sorted: seq<int>, ok: bool)
      requires Valid() && forall i, j :: 0 <= i < j < |symbols| ==> symbols[i] != symbols[j]
      requires forall s :: s in symbols ==> 0 <= s < kernel.Length && KernelOk(g, kernel[s], s)
      modifies this, stateSet
      ensures Valid() && kernel == old(kernel) && stateSet == old(stateSet)
      ensures Ascending(sorted) && forall s :: s in sorted <==> s in symbols
      ensures Appended(old(kernels), old(accessing), kernels, accessing, kernel[..], sorted, row)
      ensures ok ==> |row| == |sorted|
      ensures |old(kernels)| <= MAXSHORT ==> |kernels| <= MAXSHORT
      ensures !ok ==> |kernels| >= MAXSHORT && |row| < |sorted| && 0 <= sorted[|row|] < kernel.Length
      ensures !ok ==> kernel[sorted[|row|]] !in kernels
    {
      hide Ascending, Grammar.WellFormed, ChainsOk, CoresOk, KernelOk, Appended;
      CoresSize(g, kernels, accessing);
      var shiftSymbol := new int[|symbols|](i requires 0 <= i < |symbols| => symbols[i]);
      assert shiftSymbol[..] == symbols;
      SortSymbols(shiftSymbol);
      sorted := shiftSymbol[..];
      row, ok := [], true;
      NothingAppended(kernels, accessing, kernel[..], sorted);
      var i := 0;
      while i < shiftSymbol.Length
        invariant 0 <= i <= shiftSymbol.Length && |row| == i && shiftSymbol[..] == sorted
        invariant Valid() && kernel == old(kernel) && stateSet == old(stateSet) && kernel[..] == old(kernel[..])
        invariant Appended(old(kernels), old(accessing), kernels, accessing, kernel[..], sorted, row)
        invariant |old(kernels)| <= MAXSHORT ==> |kernels| <= MAXSHORT
      {
        assert sorted[i] in sorted;
        var q;
        ghost var ks, acc := kernels, accessing;
        q, ok := GetState(shiftSymbol[i]);
        if !ok {
          return;
        }
        CoresSize(g, kernels, accessing);
        AppendedStep(old(kernels), old(accessing), ks, acc, kernels, accessing, kernel[..], sorted, row, q);
        row := row + [q];
        i := i + 1;
      }
    }
  }

  lemma NextFirst(g: Grammar, kernels: seq<seq<int>>, link: seq<int>, stateSet: seq<int>, key: int)
    requires ChainsOk(g, kernels, link, stateSet) && 0 <= key < |g.ritem|
    ensures |stateSet| == |g.ritem| && IsNext(kernels, key, 1, stateSet[key])
    ensures -1 <= stateSet[key] < |kernels| == |link|
  {
  }

  lemma NextLink(g: Grammar, kernels: seq<seq<int>>, link: seq<int>, stateSet: seq<int>, q: int, key: int)
    requires ChainsOk(g, kernels, link, stateSet) && HasKey(kernels, q, key)
    ensures |link| == |kernels| && IsNext(kernels, key, q + 1, link[q]) && -1 <= link[q] < |kernels|
    ensures (link[q] == -1 || q < link[q])
  {
  }

  lemma CoresSize(g: Grammar, kernels: seq<seq<int>>, accessing: seq<int>)
    requires CoresOk(g, kernels, accessing)
    ensures 0 < |kernels| == |accessing|
  {
  }

  lemma CoreExtended(g: Grammar, kernels: seq<seq<int>>, accessing: seq<int>, kernel: seq<int>, s: int)
    requires CoresOk(g, kernels, accessing) && KernelOk(g, kernel, s) && kernel !in kernels
    ensures CoresOk(g, kernels + [kernel], accessing + [s])
  {
  }

  lemma SameAccess(g: Grammar, kernels: seq<seq<int>>, accessing: seq<int>, q: int, s: int)
    requires CoresOk(g, kernels, accessing) && 0 < q < |kernels| && KernelOk(g, kernels[q], s)
    ensures accessing[q] == s
  {
    assert kernels[q][0] in kernels[q];
  }

  lemma NotBetween(kernels: seq<seq<int>>, key: int, last: int, sp: int, kernel: seq<int>)
    requires IsNext(kernels, key, last + 1, sp) && 0 <= last < sp < |kernels| && kernel != [] && kernel[0] == key
    requires kernels[sp] != kernel && forall s :: 0 < s <= last ==> kernels[s] != kernel
    ensures HasKey(kernels, sp, key) && forall s :: 0 < s <= sp ==> kernels[s] != kernel
  {
    forall s | 0 < s <= sp
      ensures kernels[s] != kernel
    {
      if last < s < sp {
        assert !HasKey(kernels, s, key);
      }
    }
  }

  lemma NoneWithKernel(g: Grammar, kernels: seq<seq<int>>, accessing: seq<int>, key: int, last: int, kernel: seq<int>,
                       s: int)
    requires CoresOk(g, kernels, accessing) && KernelOk(g, kernel, s) && kernel[0] == key && g.WellFormed()
    requires IsNext(kernels, key, last + 1, -1) && 0 <= last < |kernels|
    requires forall q :: 0 < q <= last ==> kernels[q] != kernel
    ensures kernel !in kernels
  {
    assert kernel[0] in kernel;
    forall q | 0 <= q < |kernels|
      ensures kernels[q] != kernel
    {
      if last < q {
        assert !HasKey(kernels, q, key);
      }
    }
  }

  // ----- The collection -----

  /** What has been saved for state `p`. */
  ghost predicate RowDone(g: Grammar, ks: seq<seq<int>>, acc: seq<int>, p: int, row: seq<int>, rules: seq<int>)
    requires g.WellFormed()
  {
    && 0 <= p < |ks| == |acc|
    && (forall j :: 0 <= j < |row| ==> 0 < row[j] < |ks| && Target(g, ks, acc, ks[p], acc[row[j]], row[j]))
    && (forall i, j :: 0 <= i < j < |row| ==> 0 < row[i] < |acc| && 0 < row[j] < |acc| && acc[row[i]] < acc[row[j]])
    && (forall i {:trigger g.InClosure(ks[p], i)} :: 0 <= i < |g.ritem| && g.InClosure(ks[p], i) && 0 < g.ritem[i] ==>
          HasTarget(acc, row, g.ritem[i]))
    && ReductionsOk(g, ks[p], rules)
  }

  ghost predicate HasTarget(acc: seq<int>, row: seq<int>, s: int) {
    exists j :: 0 <= j < |row| && 0 <= row[j] < |acc| && acc[row[j]] == s
  }

  ghost predicate Reached(rows: seq<seq<int>>, q: int) {
    exists p :: 0 <= p < |rows| && p < q && q in rows[p]
  }

  /** The first states are done, and every state has been reached from one of them. */
  ghost predicate Collected(g: Grammar, ks: seq<seq<int>>, acc: seq<int>, rows: seq<seq<int>>, rules: seq<seq<int>>)
    requires g.WellFormed()
  {
    && |rows| == |rules| <= |ks|
    && (forall p :: 0 <= p < |rows| ==> RowDone(g, ks, acc, p, rows[p], rules[p]))
    && (forall q :: 0 < q < |ks| ==> Reached(rows, q))
  }

  lemma TargetKept(g: Grammar, ks: seq<seq<int>>, acc: seq<int>, ks': seq<seq<int>>, acc': seq<int>, from: seq<int>,
                   s: int, q: int)
    requires g.WellFormed() && Target(g, ks, acc, from, s, q) && ks <= ks' && acc <= acc' && |ks'| == |acc'|
    ensures Target(g, ks', acc', from, s, q)
  {
    hide Advanced;
  }

  lemma RowKept(g: Grammar, ks: seq<seq<int>>, acc: seq<int>, ks': seq<seq<int>>, acc': seq<int>, p: int, row: seq<int>,
                rules: seq<int>)
    requires g.WellFormed() && RowDone(g, ks, acc, p, row, rules) && ks <= ks' && acc <= acc' && |ks'| == |acc'|
    ensures RowDone(g, ks', acc', p, row, rules)
  {
    hide Target, ReductionsOk, Grammar.InClosure, Grammar.WellFormed;
    assert ks'[p] == ks[p];
    forall j | 0 <= j < |row|
      ensures Target(g, ks', acc', ks'[p], acc'[row[j]], row[j])
    {
      TargetKept(g, ks, acc, ks', acc', ks[p], acc[row[j]], row[j]);
    }
    forall s | HasTarget(acc, row, s)
      ensures HasTarget(acc', row, s)
    {
      var j :| 0 <= j < |row| && 0 <= row[j] < |acc| && acc[row[j]] == s;
      assert acc'[row[j]] == s;
    }
  }

  /** The successor kernels of a closure are its advanced items. */
  lemma MovedAdvanced(g: Grammar, from: seq<int>, items: seq<int>, s: int, kernel: seq<int>)
    requires g.WellFormed() && MovedAll(g, items, |items|, s, kernel) && 0 < s
    requires (forall i :: i in items <==> g.InClosure(from, i))
    requires forall k :: 0 <= k < |items| ==> 0 <= items[k] < |g.ritem|
    ensures Advanced(g, from, s, kernel)
  {
    hide Grammar.WellFormed, Grammar.InClosure, Ascending;
    forall i
      ensures i in kernel <==> AdvancedItem(g, from, s, i)
    {
      if AdvancedItem(g, from, s, i) {
        var k :| 0 <= k < |items| && items[k] == i - 1;
        assert MovedItem(g, items, |items|, s, i);
      }
      if i in kernel {
        var k :| 0 <= k < |items| && items[k] + 1 == i && g.ritem[items[k]] == s;
        assert items[k] in items;
        NotLastItem(g, items[k]);
      }
    }
  }

  lemma MovedKernelOk(g: Grammar, items: seq<int>, s: int, kernel: seq<int>)
    requires MovedAll(g, items, |items|, s, kernel) && kernel != [] && 0 < s
    requires g.WellFormed() && forall k :: 0 <= k < |items| ==> 0 <= items[k] < |g.ritem|
    ensures KernelOk(g, kernel, s)
  {
    hide Ascending, Grammar.WellFormed;
    forall i | i in kernel
      ensures 1 <= i < |g.ritem| && g.ritem[i - 1] == s
    {
      var k :| 0 <= k < |items| && items[k] + 1 == i && g.ritem[items[k]] == s;
      NotLastItem(g, items[k]);
    }
    assert kernel[0] in kernel;
  }

  lemma NotLastItem(g: Grammar, i: int)
    requires g.WellFormed() && 0 <= i < |g.ritem| && g.ritem[i] >= 0
    ensures 1 <= i && i + 1 < |g.ritem| && g.ritem[i] < g.nsyms
  {
    ItemHasRule(g, i);
    var r, k :| ItemAt(g, i, r, k);
    ItemSymbol(g, i, r, k);
    RuleBounds(g, r);
  }

  /** What the steps on state `p` give. */
  ghost predicate StateSteps(g: Grammar, ks: seq<seq<int>>, acc: seq<int>, ks': seq<seq<int>>, acc': seq<int>, p: int,
                             items: seq<int>, kernel: seq<seq<int>>, symbols: seq<int>, sorted: seq<int>, row: seq<int>,
                             rules: seq<int>)
    requires g.WellFormed()
  {
    && 0 <= p < |ks| && (forall i :: i in items <==> g.InClosure(ks[p], i))
    && (forall k :: 0 <= k < |items| ==> 0 <= items[k] < |g.ritem|)
    && ReductionsOk(g, ks[p], rules) && ItemsetsOk(g, items, |items|, kernel, symbols)
    && Ascending(sorted) && (forall s :: s in sorted <==> s in symbols)
    && Appended(ks, acc, ks', acc', kernel, sorted, row) && |row| == |sorted|
  }

  lemma StateTarget(g: Grammar, ks: seq<seq<int>>, acc: seq<int>, ks': seq<seq<int>>, acc': seq<int>, p: int,
                    items: seq<int>, kernel: seq<seq<int>>, symbols: seq<int>, sorted: seq<int>, row: seq<int>,
                    rules: seq<int>, j: int)
    requires g.WellFormed() && StateSteps(g, ks, acc, ks', acc', p, items, kernel, symbols, sorted, row, rules)
    requires 0 <= j < |row|
    ensures 0 < row[j] < |ks'| == |acc'| && acc'[row[j]] == sorted[j]
    ensures Target(g, ks', acc', ks'[p], acc'[row[j]], row[j])
  {
    hide Grammar.WellFormed, Grammar.InClosure, Ascending, Advanced, MovedAll, ReductionsOk;
    assert sorted[j] in sorted && ks'[p] == ks[p];
    assert MovedAll(g, items, |items|, sorted[j], kernel[sorted[j]]);
    MovedAdvanced(g, ks[p], items, sorted[j], kernel[sorted[j]]);
  }

  lemma StateComplete(g: Grammar, ks: seq<seq<int>>, acc: seq<int>, ks': seq<seq<int>>, acc': seq<int>, p: int,
                      items: seq<int>, kernel: seq<seq<int>>, symbols: seq<int>, sorted: seq<int>, row: seq<int>,
                      rules: seq<int>, i: int)
    requires g.WellFormed() && StateSteps(g, ks, acc, ks', acc', p, items, kernel, symbols, sorted, row, rules)
    requires 0 <= i < |g.ritem| && g.InClosure(ks[p], i) && 0 < g.ritem[i]
    ensures HasTarget(acc', row, g.ritem[i])
  {
    hide Grammar.WellFormed, Grammar.InClosure, Ascending, Advanced, ReductionsOk;
    NotLastItem(g, i);
    var s := g.ritem[i];
    var k :| 0 <= k < |items| && items[k] == i;
    assert MovedAll(g, items, |items|, s, kernel[s]);
    assert MovedItem(g, items, |items|, s, i + 1);
    assert i + 1 in kernel[s];
    assert s in symbols && s in sorted;
    var j :| 0 <= j < |sorted| && sorted[j] == s;
    assert acc'[row[j]] == s;
  }

  lemma StateDone(g: Grammar, ks: seq<seq<int>>, acc: seq<int>, ks': seq<seq<int>>, acc': seq<int>, p: int,
                  items: seq<int>, kernel: seq<seq<int>>, symbols: seq<int>, sorted: seq<int>, row: seq<int>,
                  rules: seq<int>)
    requires g.WellFormed() && StateSteps(g, ks, acc, ks', acc', p, items, kernel, symbols, sorted, row, rules)
    ensures RowDone(g, ks', acc', p, row, rules)
  {
    hide Grammar.WellFormed, Grammar.InClosure, Target, HasTarget, ReductionsOk, ItemsetsOk;
    assert ks'[p] == ks[p] && |ks'| == |acc'|;
    forall j | 0 <= j < |row|
      ensures 0 < row[j] < |ks'| && acc'[row[j]] == sorted[j] && Target(g, ks', acc', ks'[p], acc'[row[j]], row[j])
    {
      StateTarget(g, ks, acc, ks', acc', p, items, kernel, symbols, sorted, row, rules, j);
    }
    forall i | 0 <= i < |g.ritem| && g.InClosure(ks'[p], i) && 0 < g.ritem[i]
      ensures HasTarget(acc', row, g.ritem[i])
    {
      StateComplete(g, ks, acc, ks', acc', p, items, kernel, symbols, sorted, row, rules, i);
    }
  }

  lemma CollectedStep(g: Grammar, ks: seq<seq<int>>, acc: seq<int>, ks': seq<seq<int>>, acc': seq<int>,
                      rows: seq<seq<int>>, rules: seq<seq<int>>, row: seq<int>, reds: seq<int>)
    requires g.WellFormed() && Collected(g, ks, acc, rows, rules) && |rows| < |ks| == |acc|
    requires ks <= ks' && acc <= acc' && |ks'| == |acc'| && RowDone(g, ks', acc', |rows|, row, reds)
    requires forall q :: |ks| <= q < |ks'| ==> q in row
    ensures Collected(g, ks', acc', rows + [row], rules + [reds])
  {
    hide RowDone, Grammar.WellFormed;
    var n, rows', rules' := |rows|, rows + [row], rules + [reds];
    forall p | 0 <= p < |rows'|
      ensures RowDone(g, ks', acc', p, rows'[p], rules'[p])
    {
      if p < n {
        RowKept(g, ks, acc, ks', acc', p, rows[p], rules[p]);
      }
    }
    forall q | 0 < q < |ks'|
      ensures Reached(rows', q)
    {
      if q < |ks| {
        assert Reached(rows, q);
        var p :| 0 <= p < |rows| && p < q && q in rows[p];
        assert q in rows'[p];
      } else {
        assert q in rows'[n];
      }
    }
  }

  /** When all states are done, the collection is the automaton. */
  lemma CollectionIsLr0(g: Grammar, ks: seq<seq<int>>, acc: seq<int>, rows: seq<seq<int>>, rules: seq<seq<int>>)
    requires g.WellFormed() && CoresOk(g, ks, acc) && Collected(g, ks, acc, rows, rules) && |rows| == |ks|
    ensures Automaton(ks, acc, rows, rules).IsLr0(g)
  {
    var a := Automaton(ks, acc, rows, rules);
    hide Grammar.WellFormed, Grammar.InClosure, CoresOk;
    CoresMean(g, ks, acc);
    forall p | a.IsState(p)
      ensures a.StateOk(g, p)
    {
      RowStateOk(g, a, p);
    }
    forall p, q | a.IsState(p) && a.IsState(q) && q in a.shifts[p]
      ensures a.Advances(g, p, q)
    {
      RowAdvances(g, a, p, q);
    }
    hide Automaton.StateOk, Automaton.Advances, RowDone;
    forall q | 0 < q < |a.kernels|
      ensures a.HasPredecessor(q)
    {
      assert Reached(rows, q);
    }
  }

  lemma CoresMean(g: Grammar, ks: seq<seq<int>>, acc: seq<int>)
    requires CoresOk(g, ks, acc)
    ensures 0 < |ks| == |acc| && ks[0] == [1] && forall p, q :: 0 <= p < q < |ks| ==> ks[p] != ks[q]
  {
  }

  lemma RowStateOk(g: Grammar, a: Automaton, p: int)
    requires g.WellFormed() && a.Sized() && a.IsState(p)
    requires RowDone(g, a.kernels, a.accessing, p, a.shifts[p], a.reductions[p])
    ensures a.StateOk(g, p)
  {
    hide Grammar.WellFormed, Grammar.InClosure, Advanced;
    forall i {:trigger a.In(g, p, i)} | 0 <= i < |g.ritem| && a.In(g, p, i) && 0 < g.ritem[i]
      ensures exists q :: a.Trans(p, g.ritem[i], q)
    {
      assert g.InClosure(a.kernels[p], i);
      var j :| 0 <= j < |a.shifts[p]| && 0 <= a.shifts[p][j] < |a.accessing| &&
        a.accessing[a.shifts[p][j]] == g.ritem[i];
      assert a.Trans(p, g.ritem[i], a.shifts[p][j]);
    }
  }

  lemma RowAdvances(g: Grammar, a: Automaton, p: int, q: int)
    requires g.WellFormed() && a.Sized() && a.IsState(p) && a.IsState(q) && q in a.shifts[p]
    requires RowDone(g, a.kernels, a.accessing, p, a.shifts[p], a.reductions[p])
    ensures a.Advances(g, p, q)
  {
    hide Grammar.WellFormed, Grammar.InClosure, ReductionsOk;
    var j :| 0 <= j < |a.shifts[p]| && a.shifts[p][j] == q;
    assert Target(g, a.kernels, a.accessing, a.kernels[p], a.accessing[q], q);
    forall i
      ensures i in a.kernels[q] <==> 1 <= i < |g.ritem| && a.In(g, p, i - 1) && g.ritem[i - 1] == a.accessing[q]
    {
      assert i in a.kernels[q] <==> AdvancedItem(g, a.kernels[p], a.accessing[q], i);
    }
  }

  /** The collection would have more states than a short can number. */
  ghost predicate TooManyStates(g: Grammar)
    requires g.WellFormed()
  {
    exists ks: seq<seq<int>> :: |ks| > MAXSHORT && ks[0] == [1] && AllReached(g, ks) &&
      forall p, q :: 0 <= p < q < |ks| ==> ks[p] != ks[q]
  }

  ghost predicate AllReached(g: Grammar, ks: seq<seq<int>>)
    requires g.WellFormed()
  {
    forall q {:trigger ReachedKernel(g, ks, q)} :: 0 < q < |ks| ==> ReachedKernel(g, ks, q)
  }

  /** The kernel is one that an earlier one advances to. */
  ghost predicate ReachedKernel(g: Grammar, ks: seq<seq<int>>, q: int)
    requires g.WellFormed() && 0 <= q < |ks|
  {
    ks[q] != [] && exists p, s :: 0 <= p < q && 0 < s && Advanced(g, ks[p], s, ks[q])
  }

  lemma CollectedReached(g: Grammar, ks: seq<seq<int>>, acc: seq<int>, rows: seq<seq<int>>, rules: seq<seq<int>>)
    requires g.WellFormed() && Collected(g, ks, acc, rows, rules) && |ks| == |acc|
    ensures AllReached(g, ks)
  {
    hide Grammar.WellFormed, Advanced, ReductionsOk, Grammar.InClosure;
    forall q | 0 < q < |ks|
      ensures ReachedKernel(g, ks, q)
    {
      assert Reached(rows, q);
      var p :| 0 <= p < |rows| && p < q && q in rows[p];
      var j :| 0 <= j < |rows[p]| && rows[p][j] == q;
      assert RowDone(g, ks, acc, p, rows[p], rules[p]);
      assert Target(g, ks, acc, ks[p], acc[q], q);
    }
  }

  lemma KernelRange(g: Grammar, ks: seq<seq<int>>, acc: seq<int>, p: int)
    requires g.WellFormed() && CoresOk(g, ks, acc) && 0 <= p < |ks|
    ensures Ascending(ks[p]) && forall k :: 0 <= k < |ks[p]| ==> 1 <= ks[p][k] < |g.ritem|
  {
    if p > 0 {
      assert KernelOk(g, ks[p], acc[p]);
      forall k | 0 <= k < |ks[p]|
        ensures 1 <= ks[p][k] < |g.ritem|
      {
        assert ks[p][k] in ks[p];
      }
    }
  }

  lemma ClosureRange(g: Grammar, kernel: seq<int>, items: seq<int>)
    requires g.WellFormed() && forall k :: 0 <= k < |kernel| ==> 1 <= kernel[k] < |g.ritem|
    requires forall i :: i in items <==> g.InClosure(kernel, i)
    ensures forall i :: i in items ==> 1 <= i < |g.ritem| && g.ritem[i] < g.nsyms
  {
    hide Grammar.InClosure, Grammar.WellFormed;
    SomeVariables(g);
    forall i | i in items
      ensures 1 <= i < |g.ritem| && g.ritem[i] < g.nsyms
    {
      ClosureMeans(g, kernel, i);
      if i !in kernel {
        var r :| g.IsRule(r) && OpenedBy(g, kernel, r) && i == g.rrhs[r];
        RuleBounds(g, r);
      }
      if g.ritem[i] >= 0 {
        NotLastItem(g, i);
      }
    }
  }

  lemma SymbolKernels(g: Grammar, items: seq<int>, kernel: seq<seq<int>>, symbols: seq<int>)
    requires g.WellFormed() && ItemsetsOk(g, items, |items|, kernel, symbols)
    requires forall k :: 0 <= k < |items| ==> 0 <= items[k] < |g.ritem|
    ensures |kernel| == g.nsyms && forall s :: s in symbols ==> 0 <= s < |kernel| && KernelOk(g, kernel[s], s)
    ensures forall i, j :: 0 <= i < j < |symbols| ==> symbols[i] != symbols[j]
  {
    hide Grammar.WellFormed, MovedAll, KernelOk;
    forall s | s in symbols
      ensures 0 <= s < |kernel| && KernelOk(g, kernel[s], s)
    {
      assert MovedAll(g, items, |items|, s, kernel[s]);
      MovedKernelOk(g, items, s, kernel[s]);
    }
  }

  /** The steps on one state. */
  method OneState(g: Grammar, b: Builder, first: array<set<int>>, p: int, ghost rows: seq<seq<int>>,
                  ghost reds: seq<seq<int>>)
    returns (row: seq<int>, rules: seq<int>, ok: bool)
    requires g.WellFormed() && b.Valid() && b.g == g && p == |rows| < |b.kernels| <= MAXSHORT
    requires Collected(g, b.kernels, b.accessing, rows, reds)
    requires first.Length == g.nsyms - g.ntokens
    requires forall v, r :: 0 <= v < first.Length ==> (r in first[v] <==> FirstDerives(g, v, r))
    modifies b, b.stateSet, b.kernel
    ensures b.Valid() && b.kernel == old(b.kernel) && b.stateSet == old(b.stateSet) && |b.kernels| <= MAXSHORT
    ensures ok ==> Collected(g, b.kernels, b.accessing, rows + [row], reds + [rules]) && p < |b.kernels|
    ensures !ok ==> TooManyStates(g)
  {
    hide Grammar.WellFormed, Grammar.InClosure, Ascending, ReductionsOk, ItemsetsOk, Appended, Collected, RowDone,
      CoresOk, ChainsOk, FirstDerives, KernelOk, TooManyStates;
    ghost var ks, acc := b.kernels, b.accessing;
    KernelRange(g, ks, acc, p);
    var items := Closure(g, first, b.kernels[p]);
    ClosureRange(g, b.kernels[p], items);
    assert forall k :: 0 <= k < |items| ==> items[k] in items;
    rules := SaveReductions(g, items, b.kernels[p]);
    var symbols := NewItemsets(g, items, b.kernel);
    ghost var kernel := b.kernel[..];
    SymbolKernels(g, items, kernel, symbols);
    ghost var sorted;
    row, sorted, ok := b.AppendStates(symbols);
    CoresSize(g, b.kernels, b.accessing);
    if ok {
      StateDone(g, ks, acc, b.kernels, b.accessing, p, items, kernel, symbols, sorted, row, rules);
      AppendedMeans(ks, acc, b.kernels, b.accessing, kernel, sorted, row);
      CollectedStep(g, ks, acc, b.kernels, b.accessing, rows, reds, row, rules);
    } else {
      StatesExhausted(g, ks, acc, b.kernels, b.accessing, rows, reds, items, kernel, symbols, sorted, row);
    }
  }

  lemma AppendedMeans(ks0: seq<seq<int>>, acc0: seq<int>, ks: seq<seq<int>>, acc: seq<int>, kernel: seq<seq<int>>,
                      sorted: seq<int>, row: seq<int>)
    requires Appended(ks0, acc0, ks, acc, kernel, sorted, row)
    ensures ks0 <= ks && acc0 <= acc && |ks0| == |acc0| && |ks| == |acc| && forall q :: |ks0| <= q < |ks| ==> q in row
  {
  }

  /** The states and one more kernel, all of them reached. */
  lemma StatesExhausted(g: Grammar, ks: seq<seq<int>>, acc: seq<int>, ks': seq<seq<int>>, acc': seq<int>,
                        rows: seq<seq<int>>, reds: seq<seq<int>>, items: seq<int>, kernel: seq<seq<int>>,
                        symbols: seq<int>, sorted: seq<int>, row: seq<int>)
    requires g.WellFormed() && Collected(g, ks, acc, rows, reds) && |rows| < |ks| && CoresOk(g, ks', acc')
    requires (forall i :: i in items <==> g.InClosure(ks[|rows|], i))
    requires forall k :: 0 <= k < |items| ==> 0 <= items[k] < |g.ritem|
    requires ItemsetsOk(g, items, |items|, kernel, symbols) && forall s :: s in sorted <==> s in symbols
    requires Appended(ks, acc, ks', acc', kernel, sorted, row) && |row| < |sorted| && |ks'| >= MAXSHORT
    requires 0 <= sorted[|row|] < |kernel| && kernel[sorted[|row|]] !in ks'
    ensures TooManyStates(g)
  {
    hide Grammar.WellFormed, Grammar.InClosure, Collected, ItemsetsOk, Advanced, ReachedKernel, CoresOk;
    var all := ks' + [kernel[sorted[|row|]]];
    CollectedReached(g, ks, acc, rows, reds);
    CoresMean(g, ks', acc');
    forall q | 0 < q < |all|
      ensures ReachedKernel(g, all, q)
    {
      if q < |ks| {
        assert ReachedKernel(g, ks, q);
        StillReached(g, ks, all, q);
      } else {
        var j := |row|;
        if q < |ks'| {
          assert q in row;
          j :| 0 <= j < |row| && row[j] == q;
        }
        assert sorted[j] in sorted;
        SuccessorReached(g, ks[|rows|], items, kernel, symbols, sorted[j], all, |rows|, q);
      }
    }
  }

  lemma StillReached(g: Grammar, ks: seq<seq<int>>, all: seq<seq<int>>, q: int)
    requires g.WellFormed() && 0 < q < |ks| && ks <= all && ReachedKernel(g, ks, q)
    ensures ReachedKernel(g, all, q)
  {
    hide Advanced;
    var p, s :| 0 <= p < q && 0 < s && Advanced(g, ks[p], s, ks[q]);
    assert all[p] == ks[p] && all[q] == ks[q];
  }

  lemma SuccessorReached(g: Grammar, from: seq<int>, items: seq<int>, kernel: seq<seq<int>>, symbols: seq<int>, s: int,
                         all: seq<seq<int>>, p: int, q: int)
    requires g.WellFormed() && ItemsetsOk(g, items, |items|, kernel, symbols) && s in symbols && 0 <= p < q < |all|
    requires (forall i :: i in items <==> g.InClosure(from, i))
    requires forall k :: 0 <= k < |items| ==> 0 <= items[k] < |g.ritem|
    requires all[p] == from && 0 <= s < |kernel| && all[q] == kernel[s]
    ensures ReachedKernel(g, all, q)
  {
    hide Advanced, MovedAll, Grammar.InClosure, Grammar.WellFormed;
    assert MovedAll(g, items, |items|, s, kernel[s]);
    MovedAdvanced(g, from, items, s, kernel[s]);
  }

  /** Generates the collection from the start state on, taking the states in the order of
      their numbers; fails when there are too many. */
  method GenerateStates(g: Grammar) returns (r: Option<Automaton>)
    requires g.WellFormed()
    ensures r.Some? ==> r.value.IsLr0(g) && |r.value.kernels| <= MAXSHORT
    ensures r.None? ==> TooManyStates(g)
  {
    hide Grammar.WellFormed, Grammar.InClosure, Ascending, ReductionsOk, ItemsetsOk, Appended, Collected, RowDone,
      CoresOk, ChainsOk, FirstDerives, StateSteps, TooManyStates, KernelOk;
    SomeVariables(g);
    var first := SetFirstDerives(g);
    var b := new Builder(g);
    var shifts, reductions: seq<seq<int>> := [], [];
    var thisState := 0;
    NothingCollected(g, b.kernels, b.accessing);
    while thisState < |b.kernels|
      invariant b.Valid() && b.g == g && thisState == |shifts| <= |b.kernels| <= MAXSHORT
      invariant Collected(g, b.kernels, b.accessing, shifts, reductions)
      invariant first.Length == g.nsyms - g.ntokens && fresh(b) && fresh(b.kernel) && fresh(b.stateSet)
      invariant forall v, r :: 0 <= v < first.Length ==> (r in first[v] <==> FirstDerives(g, v, r))
      decreases MAXSHORT - thisState
    {
      var row, rules, ok := OneState(g, b, first, thisState, shifts, reductions);
      if !ok {
        return None;
      }
      shifts, reductions := shifts + [row], reductions + [rules];
      thisState := thisState + 1;
    }
    CollectionIsLr0(g, b.kernels, b.accessing, shifts, reductions);
    CoresSize(g, b.kernels, b.accessing);
    return Some(Automaton(b.kernels, b.accessing, shifts, reductions));
  }

  lemma NothingCollected(g: Grammar, ks: seq<seq<int>>, acc: seq<int>)
    requires g.WellFormed() && |ks| == 1
    ensures Collected(g, ks, acc, [], [])
  {
  }
}
