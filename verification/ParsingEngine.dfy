/** The table-driven engine (src/runtime/parsing.c) and the driver that calls it and
    grows its stacks (src/mosmllib/Parsing.sml). */
module ParsingEngine {
  import opened Options
  import opened Trees
  import opened Reduction
  import opened Packing
  import opened Output
  import opened Generator
  import opened Machine
  import opened Completeness
  import opened Conflicts
  import opened Nesting

  datatype Command = Start | TokenRead(token: int) | StacksGrown1 | StacksGrown2 | SemanticActionComputed(value: Tree)

  datatype Reply = ReadToken | RaiseParseError | GrowStacks1 | GrowStacks2 | ComputeSemanticAction

  /** The unit value that fills fresh stack slots. */
  const UNIT := Leaf(-1)

  /** The part of the parser's state that the driver shares with the engine. */
  class ParserEnv {
    var sStack: array<int>
    var vStack: array<Tree>
    var stackSize: int
    var currChar: int
    var lval: Tree
    var sp: int
    var ruleLen: int
    var ruleNumber: int

    ghost predicate Valid()
      reads this, sStack
    {
      sStack.Length == vStack.Length == stackSize > 0 && sStack[0] == 0
    }

    constructor ()
      ensures Valid() && fresh(sStack) && fresh(vStack)
    {
      sStack := new int[100](_ => 0);
      vStack := new Tree[100](_ => UNIT);
      stackSize, currChar, lval := 100, 0, UNIT;
      sp, ruleLen, ruleNumber := 0, 0, 0;
    }

    /** Doubles the stacks, keeping what they hold. */
    method GrowStacks()
      requires Valid()
      modifies this
      ensures Valid() && fresh(sStack) && fresh(vStack) && stackSize == 2 * old(stackSize)
      ensures sStack[..old(stackSize)] == old(sStack[..]) && vStack[..old(stackSize)] == old(vStack[..])
      ensures unchanged(`currChar) && unchanged(`lval) && unchanged(`sp) && unchanged(`ruleLen)
      ensures unchanged(`ruleNumber)
    {
      var oldsize := stackSize;
      var newsize := oldsize * 2;
      var newS := CopyStack(sStack, newsize, 0);
      var newV := CopyStack(vStack, newsize, UNIT);
      sStack, vStack, stackSize := newS, newV, newsize;
      assert sStack[0] == sStack[..oldsize][0];
    }

    static method CopyStack<T>(s: array<T>, newsize: int, none: T) returns (r: array<T>)
      requires s.Length <= newsize
      ensures fresh(r) && r.Length == newsize && r[..s.Length] == s[..]
    {
      r := new T[newsize](_ => none);
      var i := s.Length - 1;
      while i >= 0
        invariant -1 <= i < s.Length
        invariant forall k :: i < k < s.Length ==> r[k] == s[k]
      {
        r[i] := s[i];
        i := i - 1;
      }
    }
  }

  /** How the tables decide a move. */
  lemma StepDecided(p: Parser, c: Config)
    requires p.Ok() && Ready(p, c)
    ensures p.a.Sized() && p.pt.Sized(p.g, p.a) && c.states != [] && p.a.IsState(Top(c.states))
    ensures |c.states| == |c.values|
    ensures var q := Top(c.states);
            if p.pt.defred[q] != 0 then
              Applies(p, c, p.pt.defred[q]) && Step(p, c) == Reduced(p, c, p.pt.defred[q])
            else if c.look.None? then
              Step(p, c) == if c.input == [] then Starved else Running(AfterRead(p, c))
            else
              match Lookup(p.pt.packed, p.pt.sindex[q], c.look.value.code)
              case Some(q') => Step(p, c) == Running(AfterShift(c, q'))
              case None =>
                match Lookup(p.pt.packed, p.pt.rindex[q], c.look.value.code)
                case Some(n) => Applies(p, c, n) && Step(p, c) == Reduced(p, c, n)
                case None => Step(p, c) == Rejected
  {
    hide Parser.Ok, EntryOk, Lookup, Reduced;
    LookupsFit(p, c);
  }

  class Engine {
    const env: ParserEnv
    var state: int
    var sp: int

    constructor (e: ParserEnv)
      ensures env == e
    {
      env, state, sp := e, 0, 0;
    }

    /** Both stacks hold the configuration, up to and including the top at `n`. */
    ghost predicate Holds(c: Config)
      reads this, env, env.sStack, env.vStack
    {
      && env.Valid() && 0 < |c.states| == |c.values| <= env.stackSize
      && env.sStack[..|c.states|] == c.states && env.vStack[..|c.states|] == c.values
      && c.look == (if env.currChar >= 0 then Some(Look(env.currChar, env.lval)) else None)
    }

    ghost predicate At(c: Config)
      reads this, env, env.sStack, env.vStack
    {
      Holds(c) && state == c.states[|c.states| - 1] && sp == |c.states| - 1
    }

    /** A shift to `state` has been decided on. */
    ghost predicate Shifting(p: Parser, c: Config)
      requires p.Ok() && Ready(p, c)
      reads this, env, env.sStack, env.vStack
    {
      Holds(c) && sp == |c.states| && c.look.Some? && Step(p, c) == Running(AfterShift(c, state))
    }

    /** A reduction has been decided on: the new state is known, and the driver may
        compute the value. */
    ghost predicate Reducing(p: Parser, c: Config)
      requires p.Ok() && Ready(p, c)
      reads this, env, env.sStack, env.vStack
    {
      && Holds(c) && Applies(p, c, env.ruleNumber) && Step(p, c) == Reduced(p, c, env.ruleNumber)
      && env.sp == |c.states| - 1 && env.ruleLen == p.pt.len[env.ruleNumber] && sp == |c.states| - env.ruleLen
      && state == p.pt.Goto(c.states[sp - 1], p.pt.lhs[env.ruleNumber])
    }

    ghost predicate Replied(p: Parser, c: Config, r: Reply)
      requires p.Ok() && Ready(p, c)
      reads this, env, env.sStack, env.vStack
    {
      match r
      case ReadToken =>
        && At(c) && c.look.None? && 0 <= state < |p.pt.defred| && p.pt.defred[state] == 0
        && Step(p, c) == (if c.input == [] then Starved else Running(AfterRead(p, c)))
      case RaiseParseError => At(c) && Step(p, c) == Rejected
      case GrowStacks1 => Shifting(p, c) && sp == env.stackSize
      case GrowStacks2 => Reducing(p, c) && sp == env.stackSize
      case ComputeSemanticAction => Reducing(p, c) && sp < env.stackSize
    }

    /** The `reduce` label: looks up the rule and the state to go to. */
    method Reduce(pt: ParserTables, n: int, ghost p: Parser, ghost c: Config) returns (r: Reply)
      requires p.Ok() && pt == p.pt && Ready(p, c) && At(c) && Applies(p, c, n) && Step(p, c) == Reduced(p, c, n)
      modifies this, env
      ensures Replied(p, c, r) && (r == GrowStacks2 || r == ComputeSemanticAction) && env.currChar == old(env.currChar)
      ensures env.sStack == old(env.sStack) && env.vStack == old(env.vStack)
    {
      hide Parser.Ok, Ready, Step, Reduced, ParserTables.Goto;
      var m := pt.len[n];
      env.sp := sp;
      env.ruleNumber := n;
      env.ruleLen := m;
      sp := sp - m + 1;
      m := pt.lhs[n];
      assert env.sStack[..|c.states|][sp - 1] == c.states[sp - 1];
      var state1 := env.sStack[sp - 1];
      state := pt.Goto(state1, m);
      r := if sp < env.stackSize then ComputeSemanticAction else GrowStacks2;
    }

    /** The `loop` label. */
    method Loop(pt: ParserTables, ghost p: Parser, ghost entry: int, ghost tokens: seq<int>, ghost c: Config)
      returns (r: Reply, ghost k: nat, ghost c': Config)
      requires p.Ok() && pt == p.pt && Inv(p, entry, tokens, c) && At(c)
      modifies this, env, env.sStack, env.vStack
      ensures Run(p, entry, tokens, c, k) == Running(c') && Inv(p, entry, tokens, c') && Replied(p, c', r)
      ensures c'.input == c.input
      ensures env.sStack == old(env.sStack) && env.vStack == old(env.vStack)
      decreases env.currChar >= 0, 2
    {
      hide Parser.Ok, Inv, Ready, Step, Reduced, Applies, Lookup, ParserTables.Goto;
      InvReady(p, entry, tokens, c);
      StepDecided(p, c);
      k, c' := 0, c;
      var n := pt.defred[state];
      if n != 0 {
        r := Reduce(pt, n, p, c);
      } else if env.currChar >= 0 {
        r, k, c' := TestShift(pt, p, entry, tokens, c);
      } else {
        r := ReadToken;
      }
    }

    /** The `testshift` label. */
    method TestShift(pt: ParserTables, ghost p: Parser, ghost entry: int, ghost tokens: seq<int>, ghost c: Config)
      returns (r: Reply, ghost k: nat, ghost c': Config)
      requires p.Ok() && pt == p.pt && Inv(p, entry, tokens, c) && At(c) && env.currChar >= 0
      requires p.pt.Sized(p.g, p.a) && 0 <= state < |p.pt.defred| && p.pt.defred[state] == 0
      modifies this, env, env.sStack, env.vStack
      ensures Run(p, entry, tokens, c, k) == Running(c') && Inv(p, entry, tokens, c') && Replied(p, c', r)
      ensures c'.input == c.input
      ensures env.sStack == old(env.sStack) && env.vStack == old(env.vStack)
      decreases env.currChar >= 0, 1
    {
      hide Parser.Ok, Inv, Ready, Step, Reduced, Applies, Lookup, ParserTables.Goto;
      InvReady(p, entry, tokens, c);
      StepDecided(p, c);
      k, c' := 0, c;
      match Lookup(pt.packed, pt.sindex[state], env.currChar) {
        case Some(q) =>
          state := q;
          sp := sp + 1;
          if sp < env.stackSize {
            r, k, c' := Push(pt, p, entry, tokens, c);
          } else {
            r := GrowStacks1;
          }
        case None =>
          match Lookup(pt.packed, pt.rindex[state], env.currChar) {
            case Some(n) => r := Reduce(pt, n, p, c);
            case None => r := RaiseParseError;
          }
      }
    }

    /** The `push` label. */
    method Push(pt: ParserTables, ghost p: Parser, ghost entry: int, ghost tokens: seq<int>, ghost c: Config)
      returns (r: Reply, ghost k: nat, ghost c': Config)
      requires p.Ok() && pt == p.pt && Inv(p, entry, tokens, c) && Shifting(p, c) && sp < env.stackSize
      modifies this, env, env.sStack, env.vStack
      ensures k > 0 && Run(p, entry, tokens, c, k) == Running(c') && Inv(p, entry, tokens, c') && Replied(p, c', r)
      ensures c'.input == c.input
      ensures env.sStack == old(env.sStack) && env.vStack == old(env.vStack)
      decreases env.currChar >= 0, 0
    {
      hide Parser.Ok, Inv, Ready, Step, Reduced, Applies, Lookup, ParserTables.Goto;
      InvReady(p, entry, tokens, c);
      StepKeeps(p, entry, tokens, c);
      env.sStack[sp] := state;
      env.vStack[sp] := env.lval;
      env.currChar := -1;
      ghost var c1 := AfterShift(c, state);
      assert env.sStack[..sp + 1] == c1.states && env.vStack[..sp + 1] == c1.values;
      r, k, c' := Loop(pt, p, entry, tokens, c1);
      k := k + 1;
    }

    /** What must hold when the engine is called with the command. */
    ghost predicate Awaits(p: Parser, c: Config, cmd: Command)
      requires p.Ok() && Ready(p, c)
      reads this, env, env.sStack, env.vStack
    {
      match cmd
      case Start => Holds(c) && |c.states| == 1 && env.sp == 0
      case TokenRead(t) => Replied(p, c, ReadToken) && c.input != [] && t == c.input[0]
      case StacksGrown1 => Shifting(p, c) && sp < env.stackSize
      case StacksGrown2 => Reducing(p, c) && sp < env.stackSize
      case SemanticActionComputed(v) =>
        && Reducing(p, c) && sp < env.stackSize && p.pt.lhs[env.ruleNumber] != 0
        && v == Node(env.ruleNumber + 2, c.values[sp..])
    }

    /** The token-read command: takes the token's code and value. */
    method Accept(pt: ParserTables, transl: seq<int>, t: int, ghost p: Parser, ghost entry: int, ghost tokens: seq<int>,
                  ghost c: Config)
      returns (r: Reply, ghost k: nat, ghost c': Config)
      requires p.Ok() && pt == p.pt && transl == p.codes && Inv(p, entry, tokens, c) && Awaits(p, c, TokenRead(t))
      modifies this, env, env.sStack, env.vStack
      ensures k > 0 && Run(p, entry, tokens, c, k) == Running(c') && Inv(p, entry, tokens, c') && Replied(p, c', r)
      ensures c.input != [] && c'.input == c.input[1..]
      ensures env.sStack == old(env.sStack) && env.vStack == old(env.vStack)
    {
      hide Parser.Ok, Inv, Ready, Step, Applies, Lookup, ParserTables.Goto, Reduced;
      InvReady(p, entry, tokens, c);
      StepKeeps(p, entry, tokens, c);
      TokenInRange(p, c);
      env.currChar := transl[t];
      env.lval := Leaf(t);
      ghost var c1 := AfterRead(p, c);
      InvReady(p, entry, tokens, c1);
      StepDecided(p, c);
      StepDecided(p, c1);
      r, k, c' := TestShift(pt, p, entry, tokens, c1);
      k := k + 1;
    }

    /** The action-computed command: enters the variable's state and value. */
    method Enter(pt: ParserTables, v: Tree, ghost p: Parser, ghost entry: int, ghost tokens: seq<int>, ghost c: Config)
      returns (r: Reply, ghost k: nat, ghost c': Config)
      requires p.Ok() && pt == p.pt && Inv(p, entry, tokens, c) && Awaits(p, c, SemanticActionComputed(v))
      modifies this, env, env.sStack, env.vStack
      ensures k > 0 && Run(p, entry, tokens, c, k) == Running(c') && Inv(p, entry, tokens, c') && Replied(p, c', r)
      ensures c'.input == c.input
      ensures env.sStack == old(env.sStack) && env.vStack == old(env.vStack)
    {
      hide Parser.Ok, Inv, Ready, Step, Lookup, ParserTables.Goto;
      InvReady(p, entry, tokens, c);
      StepKeeps(p, entry, tokens, c);
      env.sStack[sp] := state;
      env.vStack[sp] := v;
      ghost var c1 := Reduced(p, c, env.ruleNumber).c;
      assert env.sStack[..sp + 1] == c1.states && env.vStack[..sp + 1] == c1.values;
      r, k, c' := Loop(pt, p, entry, tokens, c1);
      k := k + 1;
    }

    /** One call of the engine makes moves until it needs the driver. */
    method ParseEngine(pt: ParserTables, transl: seq<int>, cmd: Command,
                       ghost p: Parser, ghost entry: int, ghost tokens: seq<int>, ghost c: Config)
      returns (r: Reply, ghost k: nat, ghost c': Config)
      requires p.Ok() && pt == p.pt && transl == p.codes && Inv(p, entry, tokens, c) && Awaits(p, c, cmd)
      modifies this, env, env.sStack, env.vStack
      ensures Run(p, entry, tokens, c, k) == Running(c') && Inv(p, entry, tokens, c') && Replied(p, c', r)
      ensures if cmd.TokenRead? then c.input != [] && c'.input == c.input[1..] else c'.input == c.input
      ensures cmd.TokenRead? || cmd.StacksGrown1? || cmd.SemanticActionComputed? ==> k > 0
      ensures cmd.StacksGrown2? ==> r == ComputeSemanticAction
      ensures env.sStack == old(env.sStack) && env.vStack == old(env.vStack)
    {
      hide Parser.Ok, Inv, Ready, Step, Applies, Lookup, ParserTables.Goto, Reduced;
      InvReady(p, entry, tokens, c);
      match cmd {
        case Start =>
          state := 0;
          sp := env.sp;
          r, k, c' := Loop(pt, p, entry, tokens, c);
        case TokenRead(t) =>
          r, k, c' := Accept(pt, transl, t, p, entry, tokens, c);
        case StacksGrown1 =>
          r, k, c' := Push(pt, p, entry, tokens, c);
        case StacksGrown2 =>
          r, k, c' := ComputeSemanticAction, 0, c;
        case SemanticActionComputed(v) =>
          r, k, c' := Enter(pt, v, p, entry, tokens, c);
      }
    }
  }

  lemma TokenInRange(p: Parser, c: Config)
    requires p.Ok() && Ready(p, c) && c.input != []
    ensures 0 <= c.input[0] < |p.codes| && p.codes[c.input[0]] >= 0
  {
  }

  datatype Result = Value(v: Tree) | ParseError | EndOfInput | OutOfFuel

  /** What the result of the driver means: it is the outcome of the machine's run; and
      when it stops early, the machine has made a third of the calls as moves. */
  ghost predicate Reports(p: Parser, entry: int, stale: (Tree, Tree), tokens: seq<int>, fuel: nat, result: Result)
    requires p.Ok() && 0 <= entry < |p.codes|
  {
    var c := Initial(p, entry, stale, tokens);
    && Inv(p, entry, tokens, c)
    && match result
       case Value(v) => exists n: nat :: Run(p, entry, tokens, c, n) == Accepted(v)
       case ParseError => exists n: nat :: Run(p, entry, tokens, c, n) == Rejected
       case EndOfInput => exists n: nat :: Run(p, entry, tokens, c, n) == Starved
       case OutOfFuel => exists n: nat :: fuel <= 3 * n + 2 && Run(p, entry, tokens, c, n).Running?
  }

  /** How many calls may be left of the three that a move takes. */
  ghost function Pending(r: Reply): int {
    if r == ComputeSemanticAction then 2 else 1
  }

  datatype Service = Call(cmd: Command) | Stop(result: Result)

  ghost predicate Serves(p: Parser, e: Engine, c: Config, r: Reply, s: Service)
    requires p.Ok() && Ready(p, c)
    reads e, e.env, e.env.sStack, e.env.vStack
  {
    match s
    case Call(cmd) =>
      && e.Awaits(p, c, cmd) && !cmd.Start?
      && (r == GrowStacks2 <==> cmd == StacksGrown2)
    case Stop(Value(v)) => Step(p, c) == Accepted(v)
    case Stop(ParseError) => Step(p, c) == Rejected
    case Stop(EndOfInput) => Step(p, c) == Starved
    case Stop(OutOfFuel) => false
  }

  /** What the driver does for the engine. */
  method Serve(e: Engine, pt: ParserTables, next: seq<int>, r: Reply, ghost p: Parser,
               ghost c: Config) returns (s: Service)
    requires p.Ok() && pt == p.pt && Ready(p, c) && e.Replied(p, c, r) && next == c.input
    modifies e.env
    ensures Serves(p, e, c, r, s)
    ensures e.env.sStack == old(e.env.sStack) || fresh(e.env.sStack)
    ensures e.env.vStack == old(e.env.vStack) || fresh(e.env.vStack)
  {
    hide Parser.Ok, Ready, Step, Lookup, ParserTables.Goto, Engine.Shifting, Engine.Reducing;
    match r {
      case ReadToken =>
        s := if next == [] then Stop(EndOfInput) else Call(TokenRead(next[0]));
      case RaiseParseError =>
        s := Stop(ParseError);
      case GrowStacks1 | GrowStacks2 =>
        s := Grow(e, r, p, c);
      case ComputeSemanticAction =>
        s := ComputeAction(e, pt, p, c);
    }
  }

  /** Makes room on the stacks. */
  method Grow(e: Engine, r: Reply, ghost p: Parser, ghost c: Config) returns (s: Service)
    requires p.Ok() && Ready(p, c) && (r == GrowStacks1 || r == GrowStacks2) && e.Replied(p, c, r)
    modifies e.env
    ensures Serves(p, e, c, r, s)
    ensures e.env.sStack == old(e.env.sStack) || fresh(e.env.sStack)
    ensures e.env.vStack == old(e.env.vStack) || fresh(e.env.vStack)
  {
    hide Parser.Ok, Ready, Step, Lookup, ParserTables.Goto;
    e.env.GrowStacks();
    s := Call(if r == GrowStacks1 then StacksGrown1 else StacksGrown2);
  }

  /** The action of the rule: makes a node, or ends the parse with the value on top. */
  method ComputeAction(e: Engine, pt: ParserTables, ghost p: Parser, ghost c: Config) returns (s: Service)
    requires p.Ok() && pt == p.pt && Ready(p, c) && e.Replied(p, c, ComputeSemanticAction)
    ensures Serves(p, e, c, ComputeSemanticAction, s)
  {
    hide Parser.Ok, Ready, Step, Lookup, ParserTables.Goto;
    var n, top := e.env.ruleNumber, e.env.sp;
    assert e.env.vStack[..top + 1] == c.values;
    if pt.lhs[n] == 0 {
      s := Stop(Value(e.env.vStack[top]));
    } else {
      var kids := e.env.vStack[top - e.env.ruleLen + 1..top + 1];
      assert kids == c.values[e.sp..];
      s := Call(SemanticActionComputed(Node(n + 2, kids)));
    }
  }

  /** How far the calls have come: each move takes at most three. */
  ghost predicate Progress(p: Parser, entry: int, tokens: seq<int>, c0: Config, n: nat, c: Config, calls: nat, r: Reply)
    requires p.Ok()
  {
    && Inv(p, entry, tokens, c0) && Run(p, entry, tokens, c0, n) == Running(c) && Inv(p, entry, tokens, c)
    && calls <= 3 * n + Pending(r)
  }

  /** One more call. */
  method Call1(e: Engine, pt: ParserTables, transl: seq<int>, cmd: Command, ghost r: Reply, ghost p: Parser,
               ghost entry: int, ghost tokens: seq<int>, ghost c0: Config, ghost n: nat, ghost c: Config,
                 ghost calls: nat)
    returns (r': Reply, ghost n': nat, ghost c': Config)
    requires p.Ok() && pt == p.pt && transl == p.codes && Progress(p, entry, tokens, c0, n, c, calls, r)
    requires Ready(p, c) && Serves(p, e, c, r, Call(cmd))
    modifies e, e.env, e.env.sStack, e.env.vStack
    ensures Progress(p, entry, tokens, c0, n', c', calls + 1, r') && Ready(p, c') && e.Replied(p, c', r')
    ensures if cmd.TokenRead? then c.input != [] && c'.input == c.input[1..] else c'.input == c.input
    ensures e.env.sStack == old(e.env.sStack) && e.env.vStack == old(e.env.vStack)
  {
    hide Parser.Ok, Ready, Inv, Run, Engine.Awaits, Engine.Replied;
    ghost var k;
    r', k, c' := e.ParseEngine(pt, transl, cmd, p, entry, tokens, c);
    RunOn(p, entry, tokens, c0, n, c, k);
    n' := n + k;
    InvReady(p, entry, tokens, c');
  }

  /** The driver: starts the engine and does what it asks for, calling it at most
      `fuel` times. */
  method YyParse(env: ParserEnv, pt: ParserTables, transl: seq<int>, start: int, tokens: seq<int>, fuel: nat,
                 ghost p: Parser, ghost entry: int) returns (result: Result)
    requires p.Ok() && pt == p.pt && transl == p.codes && EntryOk(p.g) && |p.codes| == p.g.ntokens
    requires p.g.IsToken(entry) && IsEntryToken(p.g, entry) && start == p.codes[entry]
    requires forall k :: 0 <= k < |tokens| ==> p.g.IsToken(tokens[k])
    requires env.Valid()
    modifies env, env.sStack, env.vStack
    ensures exists stale :: Reports(p, entry, stale, tokens, fuel, result)
  {
    hide Parser.Ok, Ready, Inv, Run, Engine.Awaits, Engine.Replied, EntryOk, Step, Progress, Serves, Reports;
    ghost var stale := (env.vStack[0], env.lval);
    ghost var c0 := Initial(p, entry, stale, tokens);
    InitialInv(p, entry, stale, tokens);
    if fuel == 0 {
      Unfinished(p, entry, stale, tokens, 0, c0, fuel);
      return OutOfFuel;
    }
    var e := new Engine(env);
    var r;
    ghost var n, c;
    r, n, c := Begin(e, pt, transl, start, tokens, p, entry, stale);
    var calls := 1;
    var next := tokens;
    while calls < fuel
      invariant e.env == env && 1 <= calls <= fuel && Progress(p, entry, tokens, c0, n, c, calls, r)
      invariant Ready(p, c) && e.Replied(p, c, r) && next == c.input
      invariant env.sStack == old(env.sStack) || fresh(env.sStack)
      invariant env.vStack == old(env.vStack) || fresh(env.vStack)
    {
      var s := Serve(e, pt, next, r, p, c);
      match s {
        case Stop(o) =>
          Stopped(p, entry, stale, tokens, n, c, calls, e, r, o, fuel);
          return o;
        case Call(cmd) =>
          r, n, c := Call1(e, pt, transl, cmd, r, p, entry, tokens, c0, n, c, calls);
          if cmd.TokenRead? {
            next := next[1..];
          }
      }
      calls := calls + 1;
    }
    result := OutOfFuel;
    Exhausted(p, entry, stale, tokens, n, c, calls, r);
  }

  /** The first call. */
  method Begin(e: Engine, pt: ParserTables, transl: seq<int>, start: int, tokens: seq<int>,
               ghost p: Parser, ghost entry: int, ghost stale: (Tree, Tree))
    returns (r: Reply, ghost n: nat, ghost c: Config)
    requires p.Ok() && pt == p.pt && transl == p.codes && |p.codes| == p.g.ntokens && p.g.IsToken(entry)
    requires Inv(p, entry, tokens, Initial(p, entry, stale, tokens)) && start == p.codes[entry]
    requires e.env.Valid() && stale == (e.env.vStack[0], e.env.lval)
    modifies e, e.env, e.env.sStack, e.env.vStack
    ensures Progress(p, entry, tokens, Initial(p, entry, stale, tokens), n, c, 1, r)
    ensures Ready(p, c) && e.Replied(p, c, r) && c.input == tokens
    ensures e.env.sStack == old(e.env.sStack) && e.env.vStack == old(e.env.vStack)
  {
    hide Parser.Ok, Ready, Inv, Run, Engine.Replied, EntryOk, Step;
    InvReady(p, entry, tokens, Initial(p, entry, stale, tokens));
    CodeOf(p, entry, entry);
    e.env.currChar := start;
    e.env.sp := 0;
    r, n, c := e.ParseEngine(pt, transl, Start, p, entry, tokens, Initial(p, entry, stale, tokens));
    InvReady(p, entry, tokens, c);
  }

  lemma Unfinished(p: Parser, entry: int, stale: (Tree, Tree), tokens: seq<int>, n: nat, c: Config, fuel: nat)
    requires p.Ok() && 0 <= entry < |p.codes| && Inv(p, entry, tokens, Initial(p, entry, stale, tokens))
    requires fuel <= 3 * n + 2
    requires n == 0 || Run(p, entry, tokens, Initial(p, entry, stale, tokens), n).Running?
    ensures Reports(p, entry, stale, tokens, fuel, OutOfFuel)
  {
    hide Parser.Ok, Inv;
    assert Run(p, entry, tokens, Initial(p, entry, stale, tokens), n).Running?;
  }

  lemma Exhausted(p: Parser, entry: int, stale: (Tree, Tree), tokens: seq<int>, n: nat, c: Config, calls: nat, r: Reply)
    requires p.Ok() && 0 <= entry < |p.codes|
    requires Progress(p, entry, tokens, Initial(p, entry, stale, tokens), n, c, calls, r)
    ensures Reports(p, entry, stale, tokens, calls, OutOfFuel)
  {
    hide Parser.Ok, Inv, Run;
  }

  lemma Stopped(p: Parser, entry: int, stale: (Tree, Tree), tokens: seq<int>, n: nat, c: Config, calls: nat, e: Engine,
                r: Reply, result: Result, fuel: nat)
    requires p.Ok() && 0 <= entry < |p.codes| && Ready(p, c) && Serves(p, e, c, r, Stop(result))
    requires Progress(p, entry, tokens, Initial(p, entry, stale, tokens), n, c, calls, r)
    ensures Reports(p, entry, stale, tokens, fuel, result)
  {
    hide Parser.Ok, Inv, Step, Ready;
    RunOn(p, entry, tokens, Initial(p, entry, stale, tokens), n, c, 1);
    StepKeeps(p, entry, tokens, c);
    assert Run(p, entry, tokens, c, 1) == Step(p, c);
  }

  /** Put together: what the driver returns for an accepted input is a parse tree of a
      prefix of it. */
  lemma ValueIsParse(p: Parser, entry: int, stale: (Tree, Tree), tokens: seq<int>, fuel: nat, v: Tree)
    requires p.Ok() && 0 <= entry < |p.codes| && Reports(p, entry, stale, tokens, fuel, Value(v))
    ensures IsParse(p.g, entry, v) && Yield(v) <= tokens
  {
    hide Parser.Ok, Inv, Run, IsParse;
    var n: nat :| Run(p, entry, tokens, Initial(p, entry, stale, tokens), n) == Accepted(v);
    Soundness(p, entry, tokens, Initial(p, entry, stale, tokens), n);
  }

  /** And in that tree all binary operators nest as the precedences say. */
  lemma ValueNests(p: Parser, prec: Precedences, entry: int, stale: (Tree, Tree), tokens: seq<int>, fuel: nat, v: Tree)
    requires p.Ok() && prec.Fits(p.g) && UsesPrecedences(prec, p.rows)
    requires 0 <= entry < |p.codes| && Reports(p, entry, stale, tokens, fuel, Value(v))
    ensures Nests(p.g, prec, v)
  {
    hide Parser.Ok, Inv, Run, Nests, UsesPrecedences;
    var n: nat :| Run(p, entry, tokens, Initial(p, entry, stale, tokens), n) == Accepted(v);
    AcceptedNests(p, prec, entry, stale, tokens, n);
  }

  /** And without conflicts, given enough calls it returns the parse tree of every
      sentence. */
  lemma SentencesParse(p: Parser, entry: int, stale: (Tree, Tree), tokens: seq<int>, v: Tree) returns (enough: nat)
    requires p.Ok() && NoConflicts(p) && EntryOk(p.g) && p.g.IsToken(entry) && |p.codes| == p.g.ntokens
    requires IsParse(p.g, entry, v) && Yield(v) + [0] <= tokens
    requires forall k :: 0 <= k < |tokens| ==> p.g.IsToken(tokens[k])
    ensures forall fuel, result ::
              fuel > enough && Reports(p, entry, stale, tokens, fuel, result) ==> result == Value(v)
  {
    hide Parser.Ok, Inv, Run, IsParse, EntryOk, NoConflicts;
    var n := AcceptsSentence(p, entry, stale, tokens, v);
    enough := 3 * n + 2;
    forall fuel, result | fuel > enough && Reports(p, entry, stale, tokens, fuel, result)
      ensures result == Value(v)
    {
      OneOutcome(p, entry, stale, tokens, n, v, fuel, result);
    }
  }

  lemma OneOutcome(p: Parser, entry: int, stale: (Tree, Tree), tokens: seq<int>, n: nat, v: Tree, fuel: nat,
                   result: Result)
    requires p.Ok() && 0 <= entry < |p.codes| && Reports(p, entry, stale, tokens, fuel, result) && fuel > 3 * n + 2
    requires Run(p, entry, tokens, Initial(p, entry, stale, tokens), n) == Accepted(v)
    ensures result == Value(v)
  {
    hide Parser.Ok, Inv, Run;
    var c := Initial(p, entry, stale, tokens);
    forall m: nat
      ensures !Run(p, entry, tokens, c, m).Running? ==> Run(p, entry, tokens, c, m) == Accepted(v)
      ensures m >= n ==> Run(p, entry, tokens, c, m) == Accepted(v)
    {
      if m >= n {
        RunEnds(p, entry, tokens, c, n, m);
      } else if !Run(p, entry, tokens, c, m).Running? {
        RunEnds(p, entry, tokens, c, m, n);
      }
    }
  }
}
