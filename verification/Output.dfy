/** The vectors that go into the packed tables (src/mosmlyac/output.c), and what the
    tables mean: they refine the settled actions and the moves of the automaton. */
module Output {
  import opened Options
  import opened Grammars
  import opened Gotos
  import opened Conflicts
  import opened Packing
  import opened Vectors

  /** The codes of the tokens are distinct and fit a short. */
  ghost predicate CodesOk(g: Grammar, codes: seq<int>) {
    && |codes| == g.ntokens
    && (forall t :: 0 <= t < |codes| ==> 0 <= codes[t] <= MAXSHORT)
    && (forall t, u :: 0 <= t < u < |codes| ==> codes[t] != codes[u])
  }

  /** The row has a live shift (or, for `shift` false, a live reduction by a rule other
      than `except`) with number `x` on the token with code `c`. */
  ghost predicate ActsOn(s: seq<Action>, codes: seq<int>, shift: bool, except: int, c: int, x: int) {
    exists y :: y in s && Live(y) && y.isShift == shift && (shift || y.number != except)
                && 0 <= y.symbol < |codes| && codes[y.symbol] == c && y.number == x
  }

  /** Entry `t` of the action row holds the number of the action on token `t`. */
  ghost predicate RowHolds(s: seq<Action>, n: int, shift: bool, except: int, t: int, x: int)
    requires 0 <= n <= |s|
  {
    exists i :: 0 <= i < n && Live(s[i]) && s[i].isShift == shift && (shift || s[i].number != except) &&
      s[i].symbol == t && s[i].number == x
  }

  ghost predicate RowUsable(s: seq<Action>, ntokens: int) {
    && (forall x :: x in s ==> 0 <= x.symbol < ntokens && x.number > 0)
    && Settled(s, |s|)
  }

  /** The entries of the action row are those of the live actions, and 0 elsewhere. */
  ghost predicate IsActionRow(s: seq<Action>, n: int, shift: bool, except: int, row: seq<int>)
    requires 0 <= n <= |s|
  {
    forall t :: 0 <= t < |row| ==>
      if row[t] != 0 then RowHolds(s, n, shift, except, t, row[t])
      else forall x :: !RowHolds(s, n, shift, except, t, x)
  }

  /** The action rows of one state: shifts, and reductions that are not the default. */
  method ActionRows(s: seq<Action>, ntokens: int, except: int) returns (shifts: array<int>, reduces: array<int>)
    requires 0 <= ntokens && RowUsable(s, ntokens)
    ensures fresh(shifts) && fresh(reduces) && shifts.Length == reduces.Length == ntokens
    ensures IsActionRow(s, |s|, true, except, shifts[..]) && IsActionRow(s, |s|, false, except, reduces[..])
  {
    shifts, reduces := new int[ntokens](_ => 0), new int[ntokens](_ => 0);
    var p := 0;
    while p < |s|
      invariant 0 <= p <= |s| && shifts.Length == reduces.Length == ntokens
      invariant IsActionRow(s, p, true, except, shifts[..]) && IsActionRow(s, p, false, except, reduces[..])
    {
      assert s[p] in s;
      ghost var f, h := shifts[..], reduces[..];
      if s[p].suppressed == 0 {
        if s[p].isShift {
          shifts[s[p].symbol] := s[p].number;
        } else if s[p].number != except {
          reduces[s[p].symbol] := s[p].number;
        }
      }
      ActionRowStep(s, p, true, except, f, shifts[..]);
      ActionRowStep(s, p, false, except, h, reduces[..]);
      p := p + 1;
    }
  }

  lemma ActionRowStep(s: seq<Action>, p: int, shift: bool, except: int, row: seq<int>, row': seq<int>)
    requires 0 <= p < |s| && RowUsable(s, |row|) && IsActionRow(s, p, shift, except, row) && s[p] in s
    requires row' == if Live(s[p]) && s[p].isShift == shift && (shift || s[p].number != except)
                     then row[s[p].symbol := s[p].number] else row
    ensures IsActionRow(s, p + 1, shift, except, row')
  {
    var now := Live(s[p]) && s[p].isShift == shift && (shift || s[p].number != except);
    var q := p + 1;
    forall t | 0 <= t < |row'|
      ensures if row'[t] != 0 then RowHolds(s, q, shift, except, t, row'[t])
              else forall x {:trigger RowHolds(s, q, shift, except, t, x)} :: !RowHolds(s, q, shift, except, t, x)
    {
      if !(now && s[p].symbol == t) {
        assert row'[t] == row[t];
        forall x {:trigger RowHolds(s, q, shift, except, t, x)}
          ensures RowHolds(s, q, shift, except, t, x) == RowHolds(s, p, shift, except, t, x)
        {
        }
      }
    }
  }

  /** The vector of the first `j` entries that are not 0, lowered by `less`; `tokens`
      are the tokens they belong to. */
  ghost predicate Collected(row: seq<int>, codes: seq<int>, less: int, j: int, v: Vector, tokens: seq<int>)
    requires |row| == |codes| && 0 <= j <= |row|
  {
    && |v.from| == |v.to| == |tokens|
    && (forall k :: 0 <= k < |tokens| ==> 0 <= tokens[k] < j && row[tokens[k]] != 0)
    && (forall k :: 0 <= k < |tokens| ==> v.from[k] == codes[tokens[k]] && v.to[k] == row[tokens[k]] - less)
    && (forall k, l :: 0 <= k < l < |tokens| ==> tokens[k] < tokens[l])
    && (forall t :: 0 <= t < j && row[t] != 0 ==> t in tokens)
  }

  lemma CollectStep(row: seq<int>, codes: seq<int>, less: int, j: int, v: Vector, tokens: seq<int>)
    requires |row| == |codes| && 0 <= j < |row| && Collected(row, codes, less, j, v, tokens) && row[j] != 0
    ensures Collected(row, codes, less, j + 1, Vector(v.from + [codes[j]], v.to + [row[j] - less]), tokens + [j])
  {
    var tokens' := tokens + [j];
    assert tokens'[|tokens|] == j;
    forall t | 0 <= t < j && row[t] != 0
      ensures t in tokens'
    {
      assert t in tokens;
    }
  }

  lemma WidthStep(from: seq<int>, c: int)
    ensures Max(from + [c]) == if from == [] || Max(from) < c then c else Max(from)
    ensures Min(from + [c]) == if from == [] || Min(from) > c then c else Min(from)
  {
    var s := from + [c];
    assert s[|from|] == c;
    assert forall x :: x in s <==> x in from || x == c;
    var m := if from == [] || Max(from) < c then c else Max(from);
    var n := if from == [] || Min(from) > c then c else Min(from);
    assert m in s && n in s && Max(s) in s && Min(s) in s;
  }

  /** The codes of the entries that are not 0, with their numbers lowered by `less`. */
  method CollectRow(row: seq<int>, codes: seq<int>, less: int) returns (v: Vector, width: int)
    requires |row| == |codes| && (forall t, u :: 0 <= t < u < |codes| ==> codes[t] != codes[u])
    requires forall t :: 0 <= t < |codes| ==> 0 <= codes[t] <= MAXSHORT
    ensures v.Ok() && width == Width(v)
    ensures forall c, x ::
              v.Maps(c, x) <==> exists t :: 0 <= t < |codes| && codes[t] == c && row[t] != 0 && row[t] - less == x
  {
    hide Collected, Max, Min;
    v := Vector([], []);
    var lo, hi := MAXSHORT, 0;
    ghost var tokens: seq<int> := [];
    var j := 0;
    NothingCollected(row, codes, less);
    while j < |row|
      invariant 0 <= j <= |row| && Collected(row, codes, less, j, v, tokens)
      invariant if v.from == [] then lo == MAXSHORT && hi == 0 else lo == Min(v.from) && hi == Max(v.from)
    {
      if row[j] != 0 {
        CollectStep(row, codes, less, j, v, tokens);
        WidthStep(v.from, codes[j]);
        if lo > codes[j] {
          lo := codes[j];
        }
        if hi < codes[j] {
          hi := codes[j];
        }
        v := Vector(v.from + [codes[j]], v.to + [row[j] - less]);
        tokens := tokens + [j];
      } else {
        CollectSkip(row, codes, less, j, v, tokens);
      }
      j := j + 1;
    }
    width := if v.from == [] then 0 else hi - lo + 1;
    CollectedMaps(row, codes, less, v, tokens);
  }

  lemma NothingCollected(row: seq<int>, codes: seq<int>, less: int)
    requires |row| == |codes|
    ensures Collected(row, codes, less, 0, Vector([], []), [])
  {
  }

  lemma CollectSkip(row: seq<int>, codes: seq<int>, less: int, j: int, v: Vector, tokens: seq<int>)
    requires |row| == |codes| && 0 <= j < |row| && Collected(row, codes, less, j, v, tokens) && row[j] == 0
    ensures Collected(row, codes, less, j + 1, v, tokens)
  {
  }

  lemma CollectedMaps(row: seq<int>, codes: seq<int>, less: int, v: Vector, tokens: seq<int>)
    requires |row| == |codes| && Collected(row, codes, less, |row|, v, tokens)
    requires forall t, u :: 0 <= t < u < |codes| ==> codes[t] != codes[u]
    requires forall t :: 0 <= t < |codes| ==> 0 <= codes[t]
    ensures v.Ok()
    ensures forall c, x ::
              v.Maps(c, x) <==> exists t :: 0 <= t < |codes| && codes[t] == c && row[t] != 0 && row[t] - less == x
  {
    forall c, x
      ensures v.Maps(c, x) <==> exists t :: 0 <= t < |codes| && codes[t] == c && row[t] != 0 && row[t] - less == x
    {
      if t :| 0 <= t < |codes| && codes[t] == c && row[t] != 0 && row[t] - less == x {
        var k :| 0 <= k < |tokens| && tokens[k] == t;
        assert v.from[k] == c && v.to[k] == x;
      }
    }
  }

  /** The two vectors of one state. */
  method TokenVectors(s: seq<Action>, codes: seq<int>, except: int)
    returns (shift: Vector, shiftWidth: int, reduce: Vector, reduceWidth: int)
    requires RowUsable(s, |codes|)
    requires forall t :: 0 <= t < |codes| ==> 0 <= codes[t] <= MAXSHORT
    requires forall t, u :: 0 <= t < u < |codes| ==> codes[t] != codes[u]
    ensures shift.Ok() && reduce.Ok() && shiftWidth == Width(shift) && reduceWidth == Width(reduce)
    ensures forall c, x :: shift.Maps(c, x) <==> ActsOn(s, codes, true, except, c, x)
    ensures forall c, x :: reduce.Maps(c, x) <==> ActsOn(s, codes, false, except, c, x + 2)
  {
    hide Vector.Ok, Width, Settled, IsActionRow;
    var shifts, reduces := ActionRows(s, |codes|, except);
    shift, shiftWidth := CollectRow(shifts[..], codes, 0);
    reduce, reduceWidth := CollectRow(reduces[..], codes, 2);
    forall c, x
      ensures shift.Maps(c, x) <==> ActsOn(s, codes, true, except, c, x)
    {
      RowActs(s, codes, true, except, shifts[..], c, x, 0);
    }
    forall c, x
      ensures reduce.Maps(c, x) <==> ActsOn(s, codes, false, except, c, x + 2)
    {
      RowActs(s, codes, false, except, reduces[..], c, x + 2, 2);
    }
  }

  lemma RowActs(s: seq<Action>, codes: seq<int>, shift: bool, except: int, row: seq<int>, c: int, x: int, less: int)
    requires RowUsable(s, |codes|) && |row| == |codes| && IsActionRow(s, |s|, shift, except, row)
    ensures (exists t :: 0 <= t < |codes| && codes[t] == c && row[t] != 0 && row[t] - less == x - less) <==>
              ActsOn(s, codes, shift, except, c, x)
  {
    if t :| 0 <= t < |codes| && codes[t] == c && row[t] != 0 && row[t] - less == x - less {
      assert RowHolds(s, |s|, shift, except, t, row[t]);
      var i :| 0 <= i < |s| && Live(s[i]) && s[i].isShift == shift && (shift || s[i].number != except) &&
        s[i].symbol == t && s[i].number == x;
      assert s[i] in s;
    }
    if ActsOn(s, codes, shift, except, c, x) {
      var y :| y in s && Live(y) && y.isShift == shift && (shift || y.number != except)
               && 0 <= y.symbol < |codes| && codes[y.symbol] == c && y.number == x;
      var i :| 0 <= i < |s| && s[i] == y;
      assert RowHolds(s, |s|, shift, except, y.symbol, x);
      var t := y.symbol;
      assert RowHolds(s, |s|, shift, except, t, row[t]);
      var j :| 0 <= j < |s| && Live(s[j]) && s[j].isShift == shift && (shift || s[j].number != except) &&
        s[j].symbol == t && s[j].number == row[t];
      assert i == j;
    }
  }

  // ----- Columns of moves -----

  /** How often state `q` is the target among the moves from `lo` up to `hi`. */
  ghost function Times(to: seq<int>, lo: int, hi: int, q: int): nat
    requires 0 <= lo <= hi <= |to|
  {
    multiset(to[lo..hi])[q]
  }

  lemma TimesStep(to: seq<int>, lo: int, hi: int)
    requires 0 <= lo <= hi < |to|
    ensures forall q :: Times(to, lo, hi + 1, q) == Times(to, lo, hi, q) + (if q == to[hi] then 1 else 0)
  {
    assert to[lo..hi + 1] == to[lo..hi] + [to[hi]];
  }

  /** The most frequent target of a variable's moves. */
  method DefaultGoto(to: seq<int>, lo: int, hi: int, nstates: int) returns (d: int)
    requires 0 <= lo <= hi <= |to| && forall k :: lo <= k < hi ==> 0 <= to[k] < nstates
    ensures lo == hi ==> d == 0
    ensures lo < hi ==> 0 <= d < nstates
    ensures lo < hi ==> forall q :: 0 <= q < nstates ==> Times(to, lo, hi, q) <= Times(to, lo, hi, d)
  {
    if lo == hi {
      return 0;
    }
    assert 0 <= to[lo] < nstates;
    var count := new int[nstates](_ => 0);
    assert to[lo..lo] == [];
    var i := lo;
    while i < hi
      invariant lo <= i <= hi && forall q :: 0 <= q < nstates ==> count[q] == Times(to, lo, i, q)
    {
      TimesStep(to, lo, i);
      count[to[i]] := count[to[i]] + 1;
      i := i + 1;
    }
    var max := 0;
    d := 0;
    i := 0;
    while i < nstates
      invariant 0 <= i <= nstates && 0 <= d < nstates
      invariant forall q :: 0 <= q < i ==> count[q] <= max
      invariant max == 0 || max == count[d]
      invariant forall q :: 0 <= q < nstates ==> count[q] == Times(to, lo, hi, q)
    {
      if count[i] > max {
        max := count[i];
        d := i;
      }
      i := i + 1;
    }
  }

  /** The move from `p` to `q` is among those from `lo` up to `hi`. */
  ghost predicate MovesTo(from: seq<int>, to: seq<int>, lo: int, hi: int, p: int, q: int)
    requires 0 <= lo <= hi <= |from| == |to|
  {
    exists k :: lo <= k < hi && from[k] == p && to[k] == q
  }

  ghost predicate IsColumn(from: seq<int>, to: seq<int>, lo: int, hi: int, d: int, v: Vector)
    requires 0 <= lo <= hi <= |from| == |to|
  {
    && |v.from| == |v.to|
    && (forall k, l :: 0 <= k < l < |v.from| ==> v.from[k] < v.from[l])
    && (forall k :: 0 <= k < |v.from| ==> v.to[k] != d && MovesTo(from, to, lo, hi, v.from[k], v.to[k]))
    && (forall k :: lo <= k < hi && to[k] != d ==> v.Maps(from[k], to[k]))
  }

  /** The moves of a variable that do not lead to the default state. */
  method SaveColumn(from: seq<int>, to: seq<int>, lo: int, hi: int, d: int) returns (v: Vector, width: int)
    requires 0 <= lo <= hi <= |from| == |to|
    requires forall k :: lo <= k < hi ==> from[k] >= 0
    requires forall k, l :: lo <= k < l < hi ==> from[k] < from[l]
    ensures v.Ok() && width == Width(v)
    ensures forall p, q :: v.Maps(p, q) <==> q != d && MovesTo(from, to, lo, hi, p, q)
  {
    hide *;
    v := Vector([], []);
    var i := lo;
    NoColumn(from, to, lo, d);
    while i < hi
      invariant lo <= i <= hi && IsColumn(from, to, lo, i, d, v)
    {
      if to[i] != d {
        ColumnStep(from, to, lo, i, d, v);
        v := Vector(v.from + [from[i]], v.to + [to[i]]);
      } else {
        ColumnSkip(from, to, lo, i, d, v);
      }
      i := i + 1;
    }
    width := if v.from == [] then 0 else v.from[|v.from| - 1] - v.from[0] + 1;
    ColumnMaps(from, to, lo, hi, d, v);
  }

  lemma MapsMore(v: Vector, c: int, x: int)
    requires |v.from| == |v.to|
    ensures var v' := Vector(v.from + [c], v.to + [x]); v'.Maps(c, x) && forall p, q :: v.Maps(p, q) ==> v'.Maps(p, q)
  {
    var v' := Vector(v.from + [c], v.to + [x]);
    assert v'.from[|v.from|] == c && v'.to[|v.to|] == x;
    forall p, q | v.Maps(p, q)
      ensures v'.Maps(p, q)
    {
      var l :| 0 <= l < |v.from| && v.from[l] == p && v.to[l] == q;
      assert v'.from[l] == p && v'.to[l] == q;
    }
  }

  lemma MovesMore(from: seq<int>, to: seq<int>, lo: int, i: int)
    requires 0 <= lo <= i < |from| == |to|
    ensures MovesTo(from, to, lo, i + 1, from[i], to[i])
    ensures forall p, q :: MovesTo(from, to, lo, i, p, q) ==> MovesTo(from, to, lo, i + 1, p, q)
  {
  }

  lemma MovesBelow(from: seq<int>, to: seq<int>, lo: int, i: int, p: int, q: int)
    requires 0 <= lo <= i < |from| == |to| && MovesTo(from, to, lo, i, p, q)
    requires forall k, l :: lo <= k < l <= i ==> from[k] < from[l]
    ensures p < from[i]
  {
  }

  lemma ColumnStep(from: seq<int>, to: seq<int>, lo: int, i: int, d: int, v: Vector)
    requires 0 <= lo <= i < |from| == |to| && IsColumn(from, to, lo, i, d, v) && to[i] != d
    requires forall k, l :: lo <= k < l <= i ==> from[k] < from[l]
    ensures IsColumn(from, to, lo, i + 1, d, Vector(v.from + [from[i]], v.to + [to[i]]))
  {
    hide MovesTo, Vector.Maps;
    var v' := Vector(v.from + [from[i]], v.to + [to[i]]);
    MapsMore(v, from[i], to[i]);
    MovesMore(from, to, lo, i);
    forall k | 0 <= k < |v.from|
      ensures v.from[k] < from[i]
    {
      MovesBelow(from, to, lo, i, v.from[k], v.to[k]);
    }
  }

  lemma ColumnSkip(from: seq<int>, to: seq<int>, lo: int, i: int, d: int, v: Vector)
    requires 0 <= lo <= i < |from| == |to| && IsColumn(from, to, lo, i, d, v) && to[i] == d
    ensures IsColumn(from, to, lo, i + 1, d, v)
  {
    forall k | 0 <= k < |v.from|
      ensures MovesTo(from, to, lo, i + 1, v.from[k], v.to[k])
    {
      assert MovesTo(from, to, lo, i, v.from[k], v.to[k]);
    }
  }

  lemma ColumnMaps(from: seq<int>, to: seq<int>, lo: int, hi: int, d: int, v: Vector)
    requires 0 <= lo <= hi <= |from| == |to| && IsColumn(from, to, lo, hi, d, v)
    requires forall k :: lo <= k < hi ==> from[k] >= 0
    ensures v.Ok() && Width(v) == if v.from == [] then 0 else v.from[|v.from| - 1] - v.from[0] + 1
    ensures forall p, q :: v.Maps(p, q) <==> q != d && MovesTo(from, to, lo, hi, p, q)
  {
    hide *;
    ColumnMapsTo(from, to, lo, hi, d, v);
    ColumnSorted(from, to, lo, hi, d, v);
    ColumnCodes(from, to, lo, hi, d, v);
    SortedOk(v);
  }

  lemma ColumnCodes(from: seq<int>, to: seq<int>, lo: int, hi: int, d: int, v: Vector)
    requires 0 <= lo <= hi <= |from| == |to| && IsColumn(from, to, lo, hi, d, v)
    requires forall k :: lo <= k < hi ==> from[k] >= 0
    ensures forall k :: 0 <= k < |v.from| ==> v.from[k] >= 0
  {
    forall k | 0 <= k < |v.from|
      ensures v.from[k] >= 0
    {
      assert MovesTo(from, to, lo, hi, v.from[k], v.to[k]);
    }
  }

  lemma SortedOk(v: Vector)
    requires |v.from| == |v.to| && forall k, l :: 0 <= k < l < |v.from| ==> v.from[k] < v.from[l]
    requires forall k :: 0 <= k < |v.from| ==> v.from[k] >= 0
    ensures v.Ok() && Width(v) == if v.from == [] then 0 else v.from[|v.from| - 1] - v.from[0] + 1
  {
    if v.from != [] {
      SortedEnds(v.from);
    }
  }

  lemma NoColumn(from: seq<int>, to: seq<int>, lo: int, d: int)
    requires 0 <= lo <= |from| == |to|
    ensures IsColumn(from, to, lo, lo, d, Vector([], []))
  {
  }

  lemma ColumnSorted(from: seq<int>, to: seq<int>, lo: int, hi: int, d: int, v: Vector)
    requires 0 <= lo <= hi <= |from| == |to| && IsColumn(from, to, lo, hi, d, v)
    ensures |v.from| == |v.to| && forall k, l :: 0 <= k < l < |v.from| ==> v.from[k] < v.from[l]
  {
  }

  lemma ColumnMapsTo(from: seq<int>, to: seq<int>, lo: int, hi: int, d: int, v: Vector)
    requires 0 <= lo <= hi <= |from| == |to| && IsColumn(from, to, lo, hi, d, v)
    ensures forall p, q :: v.Maps(p, q) <==> q != d && MovesTo(from, to, lo, hi, p, q)
  {
  }

  lemma SortedEnds(s: seq<int>)
    requires s != [] && forall k, l :: 0 <= k < l < |s| ==> s[k] < s[l]
    ensures Max(s) == s[|s| - 1] && Min(s) == s[0]
  {
    hide Max, Min;
    assert s[|s| - 1] in s && s[0] in s;
  }

  // ----- The parser tables -----

  datatype ParserTables = ParserTables(lhs: seq<int>, len: seq<int>, defred: seq<int>, dgoto: seq<int>,
                                       sindex: seq<int>, rindex: seq<int>, gindex: seq<int>, packed: Tables) {
    ghost predicate Sized(g: Grammar, a: Automaton) {
      && |packed.table| == |packed.check| == packed.size + 1
      && |sindex| == |rindex| == |defred| == |a.kernels|
      && |gindex| == |dgoto| == g.nsyms - g.ntokens - 1
      && |lhs| == |len| == |g.rlhs| - 2
    }

    /** The state the engine moves to from `p` on the variable with code `m`. */
    function Goto(p: int, m: int): int
      requires |packed.table| == |packed.check| == packed.size + 1 && 0 <= m < |gindex| == |dgoto|
    {
      match Lookup(packed, gindex[m], p)
      case Some(q) => q
      case None => dgoto[m]
    }
  }

  /** What the tables mean for state `q`: looking up a code gives exactly the live shift,
      or the live reduction other than the default, of a token with that code. */
  ghost predicate StateRefines(rows: seq<seq<Action>>, defs: seq<int>, codes: seq<int>, pt: ParserTables, q: int)
    requires |pt.packed.table| == |pt.packed.check| == pt.packed.size + 1
    requires 0 <= q < |rows| == |defs| == |pt.sindex| == |pt.rindex| == |pt.defred|
  {
    && pt.defred[q] == (if defs[q] != 0 then defs[q] - 2 else 0)
    && (forall c, x :: c >= 0 ==>
          (Lookup(pt.packed, pt.sindex[q], c) == Some(x) <==> ActsOn(rows[q], codes, true, defs[q], c, x)))
    && (forall c, x :: c >= 0 ==>
          (Lookup(pt.packed, pt.rindex[q], c) == Some(x) <==> ActsOn(rows[q], codes, false, defs[q], c, x + 2)))
  }

  ghost predicate GotoRefines(g: Grammar, a: Automaton, pt: ParserTables)
    requires a.Sized() && pt.Sized(g, a)
  {
    forall p, s, q {:trigger a.Trans(p, s, q)} :: a.Trans(p, s, q) && g.ntokens < s < g.nsyms ==>
      pt.Goto(p, s - g.ntokens - 1) == q
  }

  ghost predicate RulesRefine(g: Grammar, pt: ParserTables)
    requires |g.rrhs| == |g.rlhs| + 1 && |pt.lhs| == |pt.len| == |g.rlhs| - 2
  {
    forall n {:trigger pt.lhs[n]} {:trigger pt.len[n]} :: 1 <= n < |pt.lhs| ==>
      pt.lhs[n] == g.rlhs[n + 2] - g.ntokens - 1 && pt.len[n] == g.RhsLength(n + 2)
  }

  ghost predicate Refines(g: Grammar, a: Automaton, rows: seq<seq<Action>>, defs: seq<int>, codes: seq<int>,
                          pt: ParserTables) {
    && a.Sized() && pt.Sized(g, a) && |rows| == |defs| == |a.kernels| && |g.rrhs| == |g.rlhs| + 1
    && (forall q {:trigger StateRefines(rows, defs, codes, pt, q)} ::
          0 <= q < |rows| ==> StateRefines(rows, defs, codes, pt, q))
    && GotoRefines(g, a, pt) && RulesRefine(g, pt)
  }

  /** The vectors of all states. */
  method StateVectors(g: Grammar, codes: seq<int>, rows: seq<seq<Action>>, defs: seq<int>)
    returns (shifts: seq<Vector>, reduces: seq<Vector>, shiftWidths: seq<int>, reduceWidths: seq<int>)
    requires CodesOk(g, codes) && |rows| == |defs| && forall q :: 0 <= q < |rows| ==> RowUsable(rows[q], g.ntokens)
    ensures |shifts| == |reduces| == |shiftWidths| == |reduceWidths| == |rows|
    ensures forall q :: 0 <= q < |rows| ==>
              StateVectorsOk(codes, rows[q], defs[q], shifts[q], reduces[q], shiftWidths[q], reduceWidths[q])
  {
    hide StateVectorsOk, RowUsable;
    shifts, reduces, shiftWidths, reduceWidths := [], [], [], [];
    var q := 0;
    while q < |rows|
      invariant 0 <= q <= |rows| && |shifts| == |reduces| == |shiftWidths| == |reduceWidths| == q
      invariant forall p :: 0 <= p < q ==>
                  StateVectorsOk(codes, rows[p], defs[p], shifts[p], reduces[p], shiftWidths[p], reduceWidths[p])
    {
      var f, fw, r, rw := OneState(codes, rows[q], defs[q]);
      shifts, reduces := shifts + [f], reduces + [r];
      shiftWidths, reduceWidths := shiftWidths + [fw], reduceWidths + [rw];
      q := q + 1;
    }
  }

  ghost predicate StateVectorsOk(codes: seq<int>, row: seq<Action>, d: int, shift: Vector, reduce: Vector, sw: int,
                                 rw: int) {
    && shift.Ok() && reduce.Ok() && sw == Width(shift) && rw == Width(reduce)
    && (forall c, x :: shift.Maps(c, x) <==> ActsOn(row, codes, true, d, c, x))
    && (forall c, x :: reduce.Maps(c, x) <==> ActsOn(row, codes, false, d, c, x + 2))
  }

  method OneState(codes: seq<int>, row: seq<Action>, d: int)
    returns (shift: Vector, shiftWidth: int, reduce: Vector, reduceWidth: int)
    requires RowUsable(row, |codes|)
    requires forall t :: 0 <= t < |codes| ==> 0 <= codes[t] <= MAXSHORT
    requires forall t, u :: 0 <= t < u < |codes| ==> codes[t] != codes[u]
    ensures StateVectorsOk(codes, row, d, shift, reduce, shiftWidth, reduceWidth)
  {
    shift, shiftWidth, reduce, reduceWidth := TokenVectors(row, codes, d);
  }

  /** The column of variable `s` holds its moves other than those to the default. */
  ghost predicate ColumnOk(g: Grammar, a: Automaton, s: int, d: int, v: Vector, w: int)
    requires a.Sized()
  {
    && v.Ok() && w == Width(v)
    && (forall p, q {:trigger a.Trans(p, s, q)} :: a.Trans(p, s, q) && q != d ==> v.Maps(p, q))
    && (forall p, q {:trigger v.Maps(p, q)} :: v.Maps(p, q) ==> q != d && a.Trans(p, s, q))
  }

  /** The columns and default states of the variables from the goal on. */
  method GotoColumns(g: Grammar, a: Automaton,
                     t: GotoTable) returns (columns: seq<Vector>, widths: seq<int>, dgoto: seq<int>)
    requires a.IsLr0(g) && t.Ok(g, a) && a.Sized()
    ensures |columns| == |widths| == |dgoto| == g.nsyms - g.ntokens - 1
    ensures forall m :: 0 <= m < |columns| ==> ColumnOk(g, a, g.ntokens + 1 + m, dgoto[m], columns[m], widths[m])
  {
    hide ColumnOk, Automaton.IsLr0, GotoTable.Ok, Vector.Ok, Width;
    Basics(g, a);
    columns, widths, dgoto := [], [], [];
    var s := g.ntokens + 1;
    while s < g.nsyms
      invariant g.ntokens + 1 <= s <= g.nsyms && |columns| == |widths| == |dgoto| == s - g.ntokens - 1
      invariant forall m :: 0 <= m < |columns| ==> ColumnOk(g, a, g.ntokens + 1 + m, dgoto[m], columns[m], widths[m])
    {
      SectionFacts(g, a, t, s);
      var lo, hi := t.index[s - g.ntokens], t.index[s - g.ntokens + 1];
      var d := DefaultGoto(t.to, lo, hi, |a.kernels|);
      var v, w := SaveColumn(t.from, t.to, lo, hi, d);
      ColumnFits(g, a, t, s, d, v, w);
      columns, widths, dgoto := columns + [v], widths + [w], dgoto + [d];
      s := s + 1;
    }
  }

  lemma SectionFacts(g: Grammar, a: Automaton, t: GotoTable, s: int)
    requires a.IsLr0(g) && t.Ok(g, a) && g.IsVar(s)
    ensures s - g.ntokens + 1 < |t.index|
    ensures 0 <= t.index[s - g.ntokens] <= t.index[s - g.ntokens + 1] <= |t.from| == |t.to|
    ensures forall k :: t.index[s - g.ntokens] <= k < t.index[s - g.ntokens + 1] ==>
              a.Trans(t.from[k], s, t.to[k]) && t.from[k] >= 0 && 0 <= t.to[k] < |a.kernels|
    ensures forall k, l :: t.index[s - g.ntokens] <= k < l < t.index[s - g.ntokens + 1] ==> t.from[k] < t.from[l]
  {
    hide Automaton.IsLr0;
    var x := s - g.ntokens;
    forall k | t.index[x] <= k < t.index[x + 1]
      ensures t.InSection(x, k) && a.Trans(t.from[k], s, t.to[k])
    {
    }
  }

  lemma ColumnFits(g: Grammar, a: Automaton, t: GotoTable, s: int, d: int, v: Vector, w: int)
    requires a.IsLr0(g) && t.Ok(g, a) && g.IsVar(s) && s - g.ntokens + 1 < |t.index|
    requires 0 <= t.index[s - g.ntokens] <= t.index[s - g.ntokens + 1] <= |t.from| == |t.to|
    requires v.Ok() && w == Width(v)
    requires forall p, q :: v.Maps(p, q) <==>
               q != d && MovesTo(t.from, t.to, t.index[s - g.ntokens], t.index[s - g.ntokens + 1], p, q)
    ensures a.Sized() && ColumnOk(g, a, s, d, v, w)
  {
    SectionFacts(g, a, t, s);
    var lo, hi := t.index[s - g.ntokens], t.index[s - g.ntokens + 1];
    forall p, q | a.Trans(p, s, q)
      ensures MovesTo(t.from, t.to, lo, hi, p, q)
    {
      assert t.HasEntry(s - g.ntokens, p);
      var k :| t.InSection(s - g.ntokens, k) && 0 <= k < |t.from| && t.from[k] == p;
      TransUnique(g, a, p, s, q, t.to[k]);
    }
    hide Automaton.IsLr0, GotoTable.Ok, Vector.Ok, Width;
    Basics(g, a);
  }

  function RuleCodes(g: Grammar, n: int): (lhs: seq<int>)
    requires 1 <= n <= |g.rlhs| - 2
    ensures |lhs| == n && forall k :: 1 <= k < n ==> lhs[k] == g.rlhs[k + 2] - g.ntokens - 1
  {
    if n == 1 then [-1] else RuleCodes(g, n - 1) + [g.rlhs[n + 1] - g.ntokens - 1]
  }

  function RuleLengths(g: Grammar, n: int): (len: seq<int>)
    requires 1 <= n <= |g.rlhs| - 2 && |g.rrhs| == |g.rlhs| + 1
    ensures |len| == n && forall k :: 1 <= k < n ==> len[k] == g.RhsLength(k + 2)
  {
    if n == 1 then [2] else RuleLengths(g, n - 1) + [g.RhsLength(n + 1)]
  }

  /** The vectors of all states and variables. */
  datatype Layout = Layout(shifts: seq<Vector>, reduces: seq<Vector>, columns: seq<Vector>,
                           sw: seq<int>, rw: seq<int>, cw: seq<int>, dgoto: seq<int>) {
    ghost predicate For(g: Grammar, a: Automaton, codes: seq<int>, rows: seq<seq<Action>>, defs: seq<int>)
      requires a.Sized()
    {
      && |shifts| == |reduces| == |sw| == |rw| == |rows| == |defs| == |a.kernels|
      && |columns| == |cw| == |dgoto| == g.nsyms - g.ntokens - 1
      && (forall q :: 0 <= q < |rows| ==> StateVectorsOk(codes, rows[q], defs[q], shifts[q], reduces[q], sw[q], rw[q]))
      && (forall m :: 0 <= m < |columns| ==> ColumnOk(g, a, g.ntokens + 1 + m, dgoto[m], columns[m], cw[m]))
    }

    ghost function All(): seq<Vector> {
      shifts + reduces + columns + [Vector([], [])]
    }
  }

  /** The vectors that the tables need have so many entries that one might not find room. */
  ghost predicate TableCrowded(g: Grammar, a: Automaton, codes: seq<int>, rows: seq<seq<Action>>, defs: seq<int>)
    requires a.Sized()
  {
    exists l: Layout {:trigger l.All()} :: l.For(g, a, codes, rows, defs) && Crowded(l.All())
  }

  /** Builds and packs all vectors, or gives up when the table grows too large. */
  method MakeTables(g: Grammar, a: Automaton, t: GotoTable, codes: seq<int>, rows: seq<seq<Action>>, defs: seq<int>)
    returns (pt: ParserTables, ok: bool)
    requires a.IsLr0(g) && t.Ok(g, a) && CodesOk(g, codes) && |rows| == |defs| == |a.kernels|
    requires forall q :: 0 <= q < |rows| ==> RowUsable(rows[q], g.ntokens)
    ensures ok ==> Refines(g, a, rows, defs, codes, pt)
    ensures a.Sized() && (!ok ==> TableCrowded(g, a, codes, rows, defs))
  {
    hide Automaton.IsLr0, GotoTable.Ok, RowUsable, StateVectorsOk, ColumnOk, Width, Vector.Ok, Refines,
      Grammar.WellFormed, Crowded, TableCrowded;
    Basics(g, a);
    RuleTwoExists(g);
    var n := |rows|;
    var shifts, reduces, sw, rw := StateVectors(g, codes, rows, defs);
    var columns, cw, dgoto := GotoColumns(g, a, t);
    var vs := shifts + reduces + columns + [Vector([], [])];
    var width := sw + rw + cw + [0];
    VectorsUsable(g, a, codes, rows, defs, shifts, reduces, columns, sw, rw, cw, dgoto, vs, width);
    var packed, base;
    packed, base, ok := PackTable(vs, width, 2 * n);
    var defred := seq(n, q requires 0 <= q < n => if defs[q] != 0 then defs[q] - 2 else 0);
    pt := ParserTables(RuleCodes(g, |g.rlhs| - 2), RuleLengths(g, |g.rlhs| - 2), defred, dgoto,
                       base[..n], base[n..2 * n], base[2 * n..|base| - 1], packed);
    if ok {
      TablesRefine(g, a, codes, rows, defs, shifts, reduces, columns, sw, rw, cw, dgoto, vs, base, pt);
    } else {
      CrowdedLayout(g, a, codes, rows, defs, Layout(shifts, reduces, columns, sw, rw, cw, dgoto));
    }
  }

  lemma CrowdedLayout(g: Grammar, a: Automaton, codes: seq<int>, rows: seq<seq<Action>>, defs: seq<int>, l: Layout)
    requires a.Sized() && l.For(g, a, codes, rows, defs) && Crowded(l.All())
    ensures TableCrowded(g, a, codes, rows, defs)
  {
    hide Layout.For, Crowded;
  }

  // ----- Small tables always fit -----

  lemma {:induction false} DistinctSize(s: seq<int>, t: set<int>)
    requires (forall k, l :: 0 <= k < l < |s| ==> s[k] != s[l]) && forall k :: 0 <= k < |s| ==> s[k] in t
    ensures |s| <= |t|
  {
    if s != [] {
      var n := |s| - 1;
      DistinctSize(s[..n], t - {s[n]});
    }
  }

  lemma WidthBound(v: Vector, m: int)
    requires v.Ok() && m >= 0 && forall k :: 0 <= k < |v.from| ==> v.from[k] <= m
    ensures Width(v) <= m + 1
  {
  }

  /** A vector of a state has an entry for each token at most. */
  lemma StateVectorSmall(codes: seq<int>, row: seq<Action>, d: int, shift: Vector, reduce: Vector, sw: int, rw: int,
                         m: int)
    requires StateVectorsOk(codes, row, d, shift, reduce, sw, rw) && m >= 0
    requires forall t :: 0 <= t < |codes| ==> codes[t] <= m
    ensures |shift.from| <= |codes| && |reduce.from| <= |codes| && Width(shift) <= m + 1 && Width(reduce) <= m + 1
  {
    hide Width;
    ghost var all := set c | c in codes;
    forall k | 0 <= k < |shift.from|
      ensures shift.from[k] in all && shift.from[k] <= m
    {
      assert shift.Maps(shift.from[k], shift.to[k]);
    }
    forall k | 0 <= k < |reduce.from|
      ensures reduce.from[k] in all && reduce.from[k] <= m
    {
      assert reduce.Maps(reduce.from[k], reduce.to[k] + 2 - 2);
    }
    hide ActsOn;
    MembersSize(codes);
    DistinctSize(shift.from, all);
    DistinctSize(reduce.from, all);
    WidthBound(shift, m);
    WidthBound(reduce, m);
  }

  /** A column has an entry for each state at most. */
  lemma ColumnSmall(g: Grammar, a: Automaton, s: int, d: int, v: Vector, w: int)
    requires a.Sized() && ColumnOk(g, a, s, d, v, w)
    ensures |v.from| <= |a.kernels| && Width(v) <= |a.kernels|
  {
    hide Width, Interval;
    ghost var all := Interval(0, |a.kernels|);
    forall k | 0 <= k < |v.from|
      ensures v.from[k] in all && v.from[k] <= |a.kernels| - 1
    {
      assert v.Maps(v.from[k], v.to[k]);
      assert a.Trans(v.from[k], s, v.to[k]);
    }
    DistinctSize(v.from, all);
    WidthBound(v, |a.kernels| - 1);
  }

  lemma {:induction false} TotalBound(vs: seq<Vector>, b: int)
    requires forall i :: 0 <= i < |vs| ==> |vs[i].from| <= b
    ensures Total(vs) <= |vs| * b
  {
    if vs != [] {
      var n := |vs| - 1;
      TotalBound(vs[..n], b);
      assert |vs| * b == n * b + b;
    }
  }

  lemma VectorSmall(g: Grammar, a: Automaton, codes: seq<int>, rows: seq<seq<Action>>, defs: seq<int>, l: Layout,
                    m: int, i: int)
    requires a.Sized() && l.For(g, a, codes, rows, defs) && m >= 0 && (forall t :: 0 <= t < |codes| ==> codes[t] <= m)
    requires 0 <= i < |l.All()|
    ensures |l.All()[i].from| <= |codes| + |a.kernels| && Width(l.All()[i]) <= m + 1 + |a.kernels|
  {
    hide Width, StateVectorsOk, ColumnOk;
    var n := |rows|;
    if i < 2 * n {
      var q := if i < n then i else i - n;
      assert l.All()[i] == if i < n then l.shifts[q] else l.reduces[q];
      StateVectorSmall(codes, rows[q], defs[q], l.shifts[q], l.reduces[q], l.sw[q], l.rw[q], m);
    } else if i < 2 * n + |l.columns| {
      var k := i - 2 * n;
      assert l.All()[i] == l.columns[k];
      ColumnSmall(g, a, g.ntokens + 1 + k, l.dgoto[k], l.columns[k], l.cw[k]);
    } else {
      assert l.All()[i] == Vector([], []);
      EmptyVector();
    }
  }

  /** A table for few states, tokens and variables, with token codes up to `m`, is never
      too large. */
  lemma SmallTablesFit(g: Grammar, a: Automaton, codes: seq<int>, rows: seq<seq<Action>>, defs: seq<int>, m: int)
    requires a.Sized() && m >= 0 && (forall t :: 0 <= t < |codes| ==> codes[t] <= m) && g.ntokens < g.nsyms
    requires var vectors, most := 2 * |a.kernels| + g.nsyms - g.ntokens, |codes| + |a.kernels|;
             vectors * most * most + vectors + m + 1 + |a.kernels| < MAXTABLE
    ensures !TableCrowded(g, a, codes, rows, defs)
  {
    hide Width, Total;
    forall l: Layout {:trigger l.All()} | l.For(g, a, codes, rows, defs)
      ensures !Crowded(l.All())
    {
      var vs, b := l.All(), |codes| + |a.kernels|;
      forall i | 0 <= i < |vs|
        ensures |vs[i].from| <= b && Width(vs[i]) <= m + 1 + |a.kernels|
      {
        VectorSmall(g, a, codes, rows, defs, l, m, i);
      }
      TotalBound(vs, b);
      forall i | 0 <= i < |vs|
        ensures Total(vs) * |vs[i].from| <= |vs| * b * b
      {
        Products(Total(vs), |vs| * b, |vs[i].from|, b);
      }
    }
  }

  lemma Products(a: int, b: int, c: int, d: int)
    requires 0 <= a <= b && 0 <= c <= d
    ensures a * c <= b * d
  {
    assert a * c <= b * c <= b * d;
  }

  lemma RuleTwoExists(g: Grammar)
    requires g.WellFormed()
    ensures |g.rlhs| >= 3 && |g.rrhs| == |g.rlhs| + 1
  {
  }

  lemma VectorsUsable(g: Grammar, a: Automaton, codes: seq<int>, rows: seq<seq<Action>>, defs: seq<int>,
                      shifts: seq<Vector>, reduces: seq<Vector>, columns: seq<Vector>,
                      sw: seq<int>, rw: seq<int>, cw: seq<int>, dgoto: seq<int>, vs: seq<Vector>, width: seq<int>)
    requires a.Sized() && |shifts| == |reduces| == |sw| == |rw| == |rows| == |defs| && |columns| == |cw| == |dgoto|
    requires forall q ::
               0 <= q < |rows| ==> StateVectorsOk(codes, rows[q], defs[q], shifts[q], reduces[q], sw[q], rw[q])
    requires forall m :: 0 <= m < |columns| ==> ColumnOk(g, a, g.ntokens + 1 + m, dgoto[m], columns[m], cw[m])
    requires vs == shifts + reduces + columns + [Vector([], [])] && width == sw + rw + cw + [0]
    ensures WidthsAgree(vs, width) && forall i :: 0 <= i < |vs| ==> vs[i].Ok()
  {
    hide Width, Vector.Ok;
    var n := |rows|;
    forall i | 0 <= i < |vs|
      ensures vs[i].Ok() && width[i] == Width(vs[i])
    {
      if i < n {
        assert vs[i] == shifts[i] && width[i] == sw[i];
      } else if i < 2 * n {
        assert vs[i] == reduces[i - n] && width[i] == rw[i - n];
      } else if i < 2 * n + |columns| {
        assert vs[i] == columns[i - 2 * n] && width[i] == cw[i - 2 * n];
        assert ColumnOk(g, a, g.ntokens + 1 + (i - 2 * n), dgoto[i - 2 * n], columns[i - 2 * n], cw[i - 2 * n]);
      } else {
        EmptyVector();
      }
    }
  }

  lemma EmptyVector()
    ensures Vector([], []).Ok() && Width(Vector([], [])) == 0
  {
  }

  /** The packed lookups are those of the vectors, so the tables refine the actions and
      the moves. */
  lemma TablesRefine(g: Grammar, a: Automaton, codes: seq<int>, rows: seq<seq<Action>>, defs: seq<int>,
                     shifts: seq<Vector>, reduces: seq<Vector>, columns: seq<Vector>,
                     sw: seq<int>, rw: seq<int>, cw: seq<int>, dgoto: seq<int>, vs: seq<Vector>, base: seq<int>,
                     pt: ParserTables)
    requires a.IsLr0(g) && |shifts| == |reduces| == |sw| == |rw| == |rows| == |defs| == |a.kernels|
    requires |columns| == |cw| == |dgoto| == g.nsyms - g.ntokens - 1
    requires forall q ::
               0 <= q < |rows| ==> StateVectorsOk(codes, rows[q], defs[q], shifts[q], reduces[q], sw[q], rw[q])
    requires forall m :: 0 <= m < |columns| ==> ColumnOk(g, a, g.ntokens + 1 + m, dgoto[m], columns[m], cw[m])
    requires vs == shifts + reduces + columns + [Vector([], [])] && |base| == |vs|
    requires |g.rlhs| >= 3 && |g.rrhs| == |g.rlhs| + 1 && |pt.packed.table| == |pt.packed.check| == pt.packed.size + 1
    requires forall v, c, x ::
               0 <= v < |vs| && c >= 0 ==> (Lookup(pt.packed, base[v], c) == Some(x) <==> vs[v].Maps(c, x))
    requires var n := |rows|;
             pt.sindex == base[..n] && pt.rindex == base[n..2 * n] && pt.gindex == base[2 * n..|base| - 1] &&
               pt.dgoto == dgoto
    requires pt.lhs == RuleCodes(g, |g.rlhs| - 2) && pt.len == RuleLengths(g, |g.rlhs| - 2)
    requires |pt.defred| == |rows|
    requires forall q :: 0 <= q < |rows| ==> pt.defred[q] == if defs[q] != 0 then defs[q] - 2 else 0
    ensures Refines(g, a, rows, defs, codes, pt)
  {
    hide Width, Vector.Ok, Vector.Maps, Lookup, ActsOn, RuleCodes, RuleLengths, Automaton.Trans, Automaton.IsLr0;
    Basics(g, a);
    var n := |rows|;
    forall q | 0 <= q < n
      ensures StateRefines(rows, defs, codes, pt, q)
    {
      assert pt.sindex[q] == base[q] && vs[q] == shifts[q];
      assert pt.rindex[q] == base[n + q] && vs[n + q] == reduces[q];
      assert StateVectorsOk(codes, rows[q], defs[q], shifts[q], reduces[q], sw[q], rw[q]);
    }
    forall p, s, q {:trigger a.Trans(p, s, q)} | a.Trans(p, s, q) && g.ntokens < s < g.nsyms
      ensures pt.Goto(p, s - g.ntokens - 1) == q
    {
      var m := s - g.ntokens - 1;
      assert pt.gindex[m] == base[2 * n + m] && vs[2 * n + m] == columns[m];
      assert ColumnOk(g, a, g.ntokens + 1 + m, dgoto[m], columns[m], cw[m]);
      forall q' | a.Trans(p, s, q')
        ensures q' == q
      {
        TransUnique(g, a, p, s, q', q);
      }
      GotoFound(g, a, pt, columns[m], cw[m], s, p, q);
    }
  }

  /** A move found in the column is taken from there, the others are the default. */
  lemma GotoFound(g: Grammar, a: Automaton, pt: ParserTables, v: Vector, w: int, s: int, p: int, q: int)
    requires a.Sized() && |pt.packed.table| == |pt.packed.check| == pt.packed.size + 1
    requires 0 <= s - g.ntokens - 1 < |pt.gindex| == |pt.dgoto|
    requires forall c, x :: c >= 0 ==>
               (Lookup(pt.packed, pt.gindex[s - g.ntokens - 1], c) == Some(x) <==> v.Maps(c, x))
    requires ColumnOk(g, a, s, pt.dgoto[s - g.ntokens - 1], v, w)
    requires a.Trans(p, s, q) && forall q' :: a.Trans(p, s, q') ==> q' == q
    ensures pt.Goto(p, s - g.ntokens - 1) == q
  {
    hide Width, Vector.Ok, Vector.Maps, Lookup;
    match Lookup(pt.packed, pt.gindex[s - g.ntokens - 1], p)
    case Some(x) =>
      assert p >= 0 && v.Maps(p, x);
      assert a.Trans(p, s, x);
    case None =>
  }
}
