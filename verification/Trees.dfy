/** Parse trees, and the nullable symbols of src/mosmlyac/lr0.c (`set_nullable`). */
module Trees {
  import opened Grammars

  datatype Tree = Leaf(token: int) | Node(rule: int, kids: seq<Tree>)

  function Root(g: Grammar, t: Tree): int {
    match t
    case Leaf(token) => token
    case Node(rule, _) => if 0 <= rule < |g.rlhs| then g.rlhs[rule] else -1
  }

  ghost function Roots(g: Grammar, ts: seq<Tree>): seq<int> {
    seq(|ts|, k requires 0 <= k < |ts| => Root(g, ts[k]))
  }

  /** Every node applies a rule to trees whose roots spell its right-hand side. */
  ghost predicate IsTree(g: Grammar, t: Tree) {
    match t
    case Leaf(token) => g.IsToken(token)
    case Node(rule, kids) =>
      && g.WellFormed() && g.IsRule(rule)
      && (forall k :: 0 <= k < |kids| ==> IsTree(g, kids[k]))
      && Roots(g, kids) == g.Rhs(rule)
  }

  /** The tokens at the leaves, from left to right. */
  function Yield(t: Tree): seq<int>
    decreases t, 0
  {
    match t
    case Leaf(token) => [token]
    case Node(_, kids) => Yields(kids)
  }

  function Yields(ts: seq<Tree>): seq<int>
    decreases ts, 1
  {
    if ts == [] then [] else Yield(ts[0]) + Yields(ts[1..])
  }

  lemma {:induction false} YieldsConcat(a: seq<Tree>, b: seq<Tree>)
    ensures Yields(a + b) == Yields(a) + Yields(b)
  {
    if a == [] {
      assert a + b == b;
    } else {
      assert (a + b)[1..] == a[1..] + b;
      YieldsConcat(a[1..], b);
    }
  }

  /** The symbol derives the empty string. */
  ghost predicate Nullable(g: Grammar, s: int) {
    exists t :: IsTree(g, t) && Root(g, t) == s && Yield(t) == []
  }

  ghost predicate NullableTable(g: Grammar, nullable: seq<bool>) {
    |nullable| == g.nsyms && forall s :: 0 <= s < g.nsyms ==> (nullable[s] <==> Nullable(g, s))
  }

  lemma {:induction false} NullableRule(g: Grammar, r: int)
    requires g.WellFormed() && g.IsRule(r)
    requires forall k :: 0 <= k < g.RhsLength(r) ==> Nullable(g, g.Rhs(r)[k])
    ensures Nullable(g, g.rlhs[r])
  {
    var kids := NullableKids(g, g.Rhs(r));
    var t := Node(r, kids);
    assert Roots(g, kids) == g.Rhs(r);
    assert IsTree(g, t) && Yield(t) == [];
  }

  lemma {:induction false} NullableKids(g: Grammar, symbols: seq<int>) returns (kids: seq<Tree>)
    requires forall k :: 0 <= k < |symbols| ==> Nullable(g, symbols[k])
    ensures |kids| == |symbols|
    ensures forall k :: 0 <= k < |kids| ==> IsTree(g, kids[k]) && Root(g, kids[k]) == symbols[k]
    ensures Yields(kids) == []
  {
    if symbols == [] {
      kids := [];
    } else {
      var rest := NullableKids(g, symbols[1..]);
      var t :| IsTree(g, t) && Root(g, t) == symbols[0] && Yield(t) == [];
      kids := [t] + rest;
    }
  }

  /** Marks that are closed under the rules cover every nullable symbol. */
  lemma {:induction false} NullableMarked(g: Grammar, marked: seq<bool>, t: Tree)
    requires g.WellFormed() && |marked| == g.nsyms
    requires forall r {:trigger g.IsRule(r)} :: g.IsRule(r) && AllMarked(g, marked, r) ==> marked[g.rlhs[r]]
    requires IsTree(g, t) && Yield(t) == []
    ensures 0 <= Root(g, t) < g.nsyms && marked[Root(g, t)]
  {
    match t
    case Leaf(_) =>
    case Node(rule, kids) =>
      assert g.IsRule(rule);
      forall k | 0 <= k < |kids|
        ensures marked[g.Rhs(rule)[k]]
      {
        YieldsNone(kids, k);
        NullableMarked(g, marked, kids[k]);
        assert g.Rhs(rule)[k] == Roots(g, kids)[k];
      }
      assert AllMarked(g, marked, rule);
  }

  lemma {:induction false} YieldsNone(ts: seq<Tree>, k: int)
    requires Yields(ts) == [] && 0 <= k < |ts|
    ensures Yield(ts[k]) == []
  {
    if k > 0 {
      YieldsNone(ts[1..], k - 1);
    }
  }

  /** All right-hand side symbols of the rule are marked. */
  ghost predicate AllMarked(g: Grammar, marked: seq<bool>, r: int)
    requires g.WellFormed() && g.IsRule(r) && |marked| == g.nsyms
  {
    forall i :: g.rrhs[r] <= i < g.Terminator(r) ==> 0 <= g.ritem[i] < g.nsyms && marked[g.ritem[i]]
  }

  ghost predicate Sound(g: Grammar, marked: seq<bool>) {
    |marked| == g.nsyms && forall s :: 0 <= s < g.nsyms && marked[s] ==> Nullable(g, s)
  }

  lemma MarkSound(g: Grammar, marked: seq<bool>, r: int)
    requires g.WellFormed() && g.IsRule(r) && Sound(g, marked) && AllMarked(g, marked, r)
    ensures Sound(g, marked[g.rlhs[r] := true])
  {
    forall k | 0 <= k < g.RhsLength(r)
      ensures Nullable(g, g.Rhs(r)[k])
    {
      assert g.Rhs(r)[k] == g.ritem[g.rrhs[r] + k];
    }
    NullableRule(g, r);
  }

  ghost function Unmarked(marked: seq<bool>): set<int> {
    set s | 0 <= s < |marked| && !marked[s]
  }

  /** Runs over the right-hand side that starts at `start`, looking for a symbol that
      is not marked. */
  method ScanRule(g: Grammar, nullable: array<bool>, start: int, ghost r: int) returns (empty: bool, i: int)
    requires g.WellFormed() && nullable.Length == g.nsyms && g.IsRule(r) && start == g.rrhs[r]
    ensures i == g.Terminator(r) && (empty <==> AllMarked(g, nullable[..], r))
  {
    i, empty := start, true;
    while g.ritem[i] >= 0
      invariant g.rrhs[r] <= i <= g.Terminator(r)
      invariant empty <==> forall k :: g.rrhs[r] <= k < i ==> 0 <= g.ritem[k] < g.nsyms && nullable[g.ritem[k]]
      decreases |g.ritem| - i
    {
      ItemSymbol(g, i, r, i - g.rrhs[r]);
      if !nullable[g.ritem[i]] {
        empty := false;
      }
      i := i + 1;
    }
  }

  /** Sweeps over the rules until no sweep marks a new variable. */
  method SetNullable(g: Grammar) returns (nullable: array<bool>)
    requires g.WellFormed()
    ensures fresh(nullable) && NullableTable(g, nullable[..])
  {
    nullable := new bool[g.nsyms](_ => false);
    var done := false;
    while !done
      invariant nullable.Length == g.nsyms && Sound(g, nullable[..])
      invariant done ==> forall r {:trigger g.IsRule(r)} ::
                  g.IsRule(r) && AllMarked(g, nullable[..], r) ==> nullable[g.rlhs[r]]
      decreases Unmarked(nullable[..]), !done
    {
      done := true;
      var i := 1;
      ghost var r := 2;
      ghost var before := nullable[..];
      while i < |g.ritem|
        invariant 2 <= r <= |g.rlhs|
        invariant if r < |g.rlhs| then i == g.rrhs[r] else i == |g.ritem|
        invariant nullable.Length == g.nsyms && Sound(g, nullable[..])
        invariant Unmarked(nullable[..]) <= Unmarked(before)
        invariant done ==> nullable[..] == before
        invariant !done ==> Unmarked(nullable[..]) < Unmarked(before)
        invariant done ==> forall s {:trigger g.IsRule(s)} ::
                    g.IsRule(s) && s < r && AllMarked(g, before, s) ==> before[g.rlhs[s]]
      {
        assert g.IsRule(r);
        var empty;
        empty, i := ScanRule(g, nullable, i, r);
        if empty {
          var j := g.rlhs[-g.ritem[i]];
          assert AllMarked(g, nullable[..], r);
          if !nullable[j] {
            MarkSound(g, nullable[..], r);
            ghost var marked := nullable[..];
            nullable[j] := true;
            assert nullable[..] == marked[j := true];
            assert j in Unmarked(marked) && j !in Unmarked(nullable[..]);
            done := false;
          }
        }
        i := i + 1;
        r := r + 1;
        NextOpening(g, r);
      }
      assert r < |g.rlhs| ==> g.IsRule(r);
    }
    forall s | 0 <= s < g.nsyms && Nullable(g, s)
      ensures nullable[s]
    {
      var t :| IsTree(g, t) && Root(g, t) == s && Yield(t) == [];
      NullableMarked(g, nullable[..], t);
    }
  }

  lemma NextOpening(g: Grammar, r: int)
    requires g.WellFormed() && 3 <= r <= |g.rlhs|
    ensures g.Terminator(r - 1) + 1 == if r < |g.rlhs| then g.rrhs[r] else |g.ritem|
  {
    assert g.IsRule(r - 1);
    if r == |g.rlhs| && g.Terminator(r - 1) + 1 < |g.ritem| {
      assert g.Covered(g.Terminator(r - 1) + 1);
      var s :| g.IsRule(s) && g.rrhs[s] <= g.Terminator(r - 1) + 1 <= g.Terminator(s);
      if s < r - 1 {
        RuleStarts(g, s, r - 1);
      }
    }
  }
}
