/** What the lookahead sets of src/mosmlyac/lalr.c mean: the relations of DeRemer and
    Pennello over the variable moves of an LR(0) automaton, and the least read and
    follow sets that satisfy them. */
module Lookahead {
  import opened Grammars
  import opened Trees

  /** A move of the automaton on a variable. */
  datatype Move = Move(state: int, symbol: int)

  type Family = map<Move, set<int>>

  ghost predicate IsMove(g: Grammar, a: Automaton, m: Move)
    requires a.Sized()
  {
    g.IsVar(m.symbol) && exists q :: a.Trans(m.state, m.symbol, q)
  }

  /** The token can be shifted right after the move; the end marker follows the goal. */
  ghost predicate DirectRead(g: Grammar, a: Automaton, m: Move, t: int)
    requires a.Sized()
  {
    || (g.IsToken(t) && exists q, q' :: a.Trans(m.state, m.symbol, q) && a.Trans(q, t, q'))
    || (m == Move(0, g.Goal()) && t == 0)
  }

  /** After the move, a nullable variable may be passed over by move `m'`. */
  ghost predicate Reads(g: Grammar, a: Automaton, m: Move, m': Move)
    requires a.Sized()
  {
    a.Trans(m.state, m.symbol, m'.state) && IsMove(g, a, m') && Nullable(g, m'.symbol)
  }

  /** Everything after position `k` of the rule is nullable. */
  ghost predicate NullableAfter(g: Grammar, r: int, k: int)
    requires g.WellFormed() && g.IsRule(r) && 0 <= k
  {
    forall j :: k < j < g.RhsLength(r) ==> Nullable(g, g.Rhs(r)[j])
  }

  /** Some way from `p` to `q` spells `symbols`. */
  ghost predicate Spells(a: Automaton, p: int, symbols: seq<int>, q: int)
    requires a.Sized()
  {
    exists states :: Walk(a, states, symbols) && states[0] == p && states[|symbols|] == q
  }

  /** `m` is the last variable of a rule that the move `m'` stands for, up to a nullable rest. */
  ghost predicate IncludesVia(g: Grammar, a: Automaton, m: Move, m': Move, r: int, k: int)
    requires a.Sized() && g.WellFormed()
  {
    && g.IsRule(r) && g.rlhs[r] == m'.symbol && 0 <= k < g.RhsLength(r)
    && g.Rhs(r)[k] == m.symbol && NullableAfter(g, r, k)
    && Spells(a, m'.state, g.Rhs(r)[..k], m.state)
  }

  ghost predicate Includes(g: Grammar, a: Automaton, m: Move, m': Move)
    requires a.Sized() && g.WellFormed()
  {
    IsMove(g, a, m) && IsMove(g, a, m') && exists r, k :: IncludesVia(g, a, m, m', r, k)
  }

  /** Reducing by `r` in state `q` can uncover the move `m`. */
  ghost predicate Lookback(g: Grammar, a: Automaton, q: int, r: int, m: Move)
    requires a.Sized() && g.WellFormed()
  {
    g.IsRule(r) && g.rlhs[r] == m.symbol && IsMove(g, a, m) && Spells(a, m.state, g.Rhs(r), q)
  }

  ghost predicate Defined(g: Grammar, a: Automaton, f: Family)
    requires a.Sized()
  {
    forall m :: m in f <==> IsMove(g, a, m)
  }

  /** `read` and `follow` satisfy the equations of the method. */
  ghost predicate Satisfies(g: Grammar, a: Automaton, read: Family, follow: Family)
    requires a.Sized() && g.WellFormed()
  {
    && Defined(g, a, read) && Defined(g, a, follow)
    && (forall m, t :: m in read && DirectRead(g, a, m, t) ==> t in read[m])
    && (forall m, m' :: m in read && m' in read && Reads(g, a, m, m') ==> read[m'] <= read[m])
    && (forall m :: m in follow ==> read[m] <= follow[m])
    && (forall m, m' :: m in follow && m' in follow && Includes(g, a, m, m') ==> follow[m'] <= follow[m])
  }

  ghost predicate Below(f: Family, f': Family) {
    forall m :: m in f ==> m in f' && f[m] <= f'[m]
  }

  /** `follow` is the least family of follow sets. */
  ghost predicate IsFollow(g: Grammar, a: Automaton, follow: Family)
    requires a.Sized() && g.WellFormed()
  {
    exists read :: Satisfies(g, a, read, follow) &&
      forall read', follow' :: Satisfies(g, a, read', follow') ==> Below(read, read') && Below(follow, follow')
  }

  /** The lookahead set of rule `r` in state `q` is the union of the follow sets of
      the moves that its reduction can uncover. */
  ghost predicate IsLookahead(g: Grammar, a: Automaton, follow: Family, q: int, r: int, la: set<int>)
    requires a.Sized() && g.WellFormed() && Defined(g, a, follow)
  {
    forall t :: t in la <==> exists m :: m in follow && Lookback(g, a, q, r, m) && t in follow[m]
  }

  lemma WalkUnique(g: Grammar, a: Automaton, s1: seq<int>, s2: seq<int>, symbols: seq<int>, k: int)
    requires a.IsLr0(g) && Walk(a, s1, symbols) && Walk(a, s2, symbols) && s1[0] == s2[0] && 0 <= k <= |symbols|
    ensures s1[k] == s2[k]
  {
    if k > 0 {
      WalkUnique(g, a, s1, s2, symbols, k - 1);
      TransUnique(g, a, s1[k - 1], symbols[k - 1], s1[k], s2[k]);
    }
  }

  lemma SpellsEmpty(a: Automaton, p: int)
    requires a.Sized() && a.IsState(p)
    ensures Spells(a, p, [], p)
  {
    assert Walk(a, [p], []);
  }

  lemma SpellsExtend(a: Automaton, p: int, symbols: seq<int>, q: int, s: int, q': int)
    requires a.Sized() && Spells(a, p, symbols, q) && a.Trans(q, s, q')
    ensures Spells(a, p, symbols + [s], q')
  {
    var states :| Walk(a, states, symbols) && states[0] == p && states[|symbols|] == q;
    assert Walk(a, states + [q'], symbols + [s]);
  }

  lemma SpellsUnique(g: Grammar, a: Automaton, p: int, symbols: seq<int>, q: int, q': int)
    requires a.IsLr0(g) && Spells(a, p, symbols, q) && Spells(a, p, symbols, q')
    ensures q == q'
  {
    var s1 :| Walk(a, s1, symbols) && s1[0] == p && s1[|symbols|] == q;
    var s2 :| Walk(a, s2, symbols) && s2[0] == p && s2[|symbols|] == q';
    WalkUnique(g, a, s1, s2, symbols, |symbols|);
  }

  lemma AdvanceItem(g: Grammar, a: Automaton, p: int, r: int, k: int) returns (q: int)
    requires a.IsLr0(g) && a.IsState(p) && 3 <= r < |g.rlhs| && 0 <= k < g.RhsLength(r)
    requires a.In(g, p, g.rrhs[r] + k)
    ensures a.Trans(p, g.Rhs(r)[k], q) && a.In(g, q, g.rrhs[r] + k + 1)
  {
    var i := g.rrhs[r] + k;
    assert g.IsRule(r) && ItemAt(g, i, r, k);
    ItemSymbol(g, i, r, k);
    assert a.StateOk(g, p);
    q :| a.Trans(p, g.ritem[i], q);
    StepForward(g, a, p, g.ritem[i], q, i);
  }
}
