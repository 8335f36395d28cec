/** What the control instructions of the interpreter do to the bytes that the compiler lays out
    (src/runtime/interp.c): branches, calls and returns, partial applications, closures, exceptions
    and signals, one instruction at a time and several together. */
module InstructionLaws {
  import opened Options
  import opened Bytecode
  import opened Encoding
  import opened Interpreter
  import opened Threading

  // ----- One step -----

  /** A step executes the instruction that lies at the program counter. */
  lemma Steps(data: Data, prog: seq<byte>, s: State, signal: int, op: int, nums: seq<int>, targets: seq<int>)
    requires EncodedAt(prog, s.pc, op, nums, targets)
    ensures var next := s.pc + 1 + NumBytes(ShapeOf(op).value) + 4 * |targets|;
            var i := Instr(op, nums, if op == GRAB then [next - 3] else targets, next);
            WellFormed(i) && ByteStep(data, prog, s, signal) == Execute(data, i, s, signal)
  {
    hide Execute, Nums, Labels, Head, ShapeOf, NumBytes, ByteSize, WellFormed, Encodable;
    Decoded(prog, s.pc, op, nums, targets);
    ByteFetchOk(prog, s.pc);
  }

  /** The shapes of calls. */
  lemma CallShapes(op: int)
    ensures APPLY1 <= op <= APPLY4 || PUSH_ENV1_APPLY1 <= op <= PUSH_ENV1_APPLY4 ==> ShapeOf(op) == Some(Plain)
    ensures PUSH_GETGLOBAL_APPLY1 <= op <= PUSH_GETGLOBAL_APPLY4 ==> ShapeOf(op) == Some(Long)
    ensures APPTERM1 <= op <= APPTERM4 || PUSH_ENV1_APPTERM1 <= op <= PUSH_ENV1_APPTERM4 ==> ShapeOf(op) == Some(Short)
    ensures PUSH_GETGLOBAL_APPTERM1 <= op <= PUSH_GETGLOBAL_APPTERM4 ==> ShapeOf(op) == Some(ShortLong)
  {
  }

  lemma Cut(a: seq<Val>, b: seq<Val>)
    ensures (a + b)[..|a|] == a && (a + b)[|a|..] == b
  {
  }

  // ----- Branches -----

  /** The tag of an atom or of a block. */
  ghost predicate HasTag(s: State, v: Val, tag: int) {
    v == Atom(tag) || (v.Ptr? && v.a in s.heap && s.heap[v.a].tag == tag)
  }

  lemma BranchLaw(data: Data, prog: seq<byte>, s: State, signal: int, t: int)
    requires EncodedAt(prog, s.pc, BRANCH, [], [t])
    ensures ByteStep(data, prog, s, signal) == Continue(s.(pc := t))
  {
    Steps(data, prog, s, signal, BRANCH, [], [t]);
    hide EncodedAt, ByteStep;
  }

  /** Only the tag 0 is false. */
  lemma BranchIfLaw(data: Data, prog: seq<byte>, s: State, signal: int, t: int, tag: int)
    requires HasTag(s, s.accu, tag)
    ensures EncodedAt(prog, s.pc, BRANCHIF, [], [t]) ==>
              ByteStep(data, prog, s, signal) == Continue(s.(pc := if tag != 0 then t else s.pc + 5))
    ensures EncodedAt(prog, s.pc, BRANCHIFNOT, [], [t]) ==>
              ByteStep(data, prog, s, signal) == Continue(s.(pc := if tag == 0 then t else s.pc + 5))
    ensures forall n :: EncodedAt(prog, s.pc, BRANCHIFNEQTAG, [n], [t]) ==>
              ByteStep(data, prog, s, signal) == Continue(s.(pc := if tag != n then t else s.pc + 6))
  {
    hide EncodedAt, ByteStep;
    if EncodedAt(prog, s.pc, BRANCHIF, [], [t]) {
      Steps(data, prog, s, signal, BRANCHIF, [], [t]);
    }
    if EncodedAt(prog, s.pc, BRANCHIFNOT, [], [t]) {
      Steps(data, prog, s, signal, BRANCHIFNOT, [], [t]);
    }
    forall n | EncodedAt(prog, s.pc, BRANCHIFNEQTAG, [n], [t])
      ensures ByteStep(data, prog, s, signal) == Continue(s.(pc := if tag != n then t else s.pc + 6))
    {
      Steps(data, prog, s, signal, BRANCHIFNEQTAG, [n], [t]);
    }
  }

  lemma PopBranchLaw(data: Data, prog: seq<byte>, s: State, signal: int, t: int, tag: int, v: Val, rest: seq<Val>)
    requires HasTag(s, s.accu, tag) && s.stack == [v] + rest
    requires EncodedAt(prog, s.pc, POPBRANCHIFNOT, [], [t])
    ensures ByteStep(data, prog, s, signal) ==
            Continue(s.(pc := if tag == 0 then t else s.pc + 5, accu := v, stack := rest))
  {
    Steps(data, prog, s, signal, POPBRANCHIFNOT, [], [t]);
    Cut([v], rest);
    hide EncodedAt, ByteStep;
  }

  /** The operand that was pushed is compared with the accumulator. */
  ghost predicate Holds(op: int, x: int, y: int) {
    if op == BRANCHIFEQ then x == y
    else if op == BRANCHIFNEQ then x != y
    else if op == BRANCHIFLT then x < y
    else if op == BRANCHIFGT then x > y
    else if op == BRANCHIFLE then x <= y
    else x >= y
  }

  lemma CompareLaw(data: Data, prog: seq<byte>, s: State, signal: int, op: int, t: int, x: int, y: int,
                   rest: seq<Val>)
    requires op in {BRANCHIFEQ, BRANCHIFNEQ, BRANCHIFLT, BRANCHIFGT, BRANCHIFLE, BRANCHIFGE}
    requires EncodedAt(prog, s.pc, op, [], [t]) && s.stack == [Imm(x)] + rest && s.accu == Imm(y)
    ensures ByteStep(data, prog, s, signal) ==
            Continue(s.(pc := if Holds(op, x, y) then t else s.pc + 5, stack := rest))
  {
    Steps(data, prog, s, signal, op, [], [t]);
    Cut([Imm(x)], rest);
    hide EncodedAt, ByteStep;
  }

  /** Pointers and atoms are compared as such. */
  lemma SameLaw(data: Data, prog: seq<byte>, s: State, signal: int, op: int, t: int, x: Val, rest: seq<Val>)
    requires op in {BRANCHIFEQ, BRANCHIFNEQ} && EncodedAt(prog, s.pc, op, [], [t])
    requires s.stack == [x] + rest && !x.Code? && !s.accu.Code?
    ensures ByteStep(data, prog, s, signal) ==
            Continue(s.(pc := if (x == s.accu) == (op == BRANCHIFEQ) then t else s.pc + 5, stack := rest))
  {
    Steps(data, prog, s, signal, op, [], [t]);
    Cut([x], rest);
    hide EncodedAt, ByteStep;
  }

  lemma SwitchLaw(data: Data, prog: seq<byte>, s: State, signal: int, n: int, targets: seq<int>, k: int)
    requires EncodedAt(prog, s.pc, SWITCH, [n], targets) && s.accu == Imm(k) && 0 <= k < n
    ensures |targets| == n && ByteStep(data, prog, s, signal) == Continue(s.(pc := targets[k]))
  {
    Steps(data, prog, s, signal, SWITCH, [n], targets);
    hide BytesAt, ByteStep;
  }

  /** `x` below the bounds leads to one target, above them to the other; else it becomes an index. */
  lemma IntervalLaw(data: Data, prog: seq<byte>, s: State, signal: int, below: int, above: int, x: int, low: int,
                    high: int, rest: seq<Val>)
    requires EncodedAt(prog, s.pc, BRANCHINTERVAL, [], [below, above])
    requires s.stack == [Imm(low), Imm(x)] + rest && s.accu == Imm(high)
    ensures ByteStep(data, prog, s, signal) ==
            Continue(if x < low then s.(pc := below, accu := Imm(x), stack := rest)
                     else if x > high then s.(pc := above, accu := Imm(x), stack := rest)
                     else s.(pc := s.pc + 9, accu := Imm(x - low), stack := rest))
  {
    Steps(data, prog, s, signal, BRANCHINTERVAL, [], [below, above]);
    Cut([Imm(low), Imm(x)], rest);
    hide EncodedAt, ByteStep;
  }

  // ----- Signals -----

  /** The handler starts with a frame that leads back. */
  ghost function Interrupted(s: State, signal: int): State {
    s.(pc := s.handler, env := Atom(0), extra := 0,
       stack := [Imm(signal), Code(s.pc), s.env, Imm(s.extra)] + s.stack)
  }

  ghost function AfterSignal(s: State, signal: int): State {
    if signal == 0 then s else Interrupted(s, signal)
  }

  lemma CheckSignalsLaw(data: Data, prog: seq<byte>, s: State, signal: int)
    requires EncodedAt(prog, s.pc, CHECK_SIGNALS, [], [])
    ensures ByteStep(data, prog, s, signal) == Continue(AfterSignal(s.(pc := s.pc + 1), signal))
  {
    Steps(data, prog, s, signal, CHECK_SIGNALS, [], []);
    hide EncodedAt, ByteStep;
  }

  lemma StopLaw(data: Data, prog: seq<byte>, s: State, signal: int)
    requires EncodedAt(prog, s.pc, STOP, [], [])
    ensures ByteStep(data, prog, s, signal) == Stop(s.accu, s.(pc := s.pc + 1))
  {
    Steps(data, prog, s, signal, STOP, [], []);
    hide EncodedAt, ByteStep;
  }

  // ----- Calls -----

  ghost predicate IsField(s: State, v: Val, i: int, x: Val) {
    v.Ptr? && v.a in s.heap && 0 <= i < |s.heap[v.a].fields| && s.heap[v.a].fields[i] == x
  }

  /** The code of closure `f` is at `c`. */
  ghost predicate IsClosure(s: State, f: Val, c: int) {
    IsField(s, f, 0, Code(c))
  }

  /** A call of `f`, whose code is at `c`: below the arguments lies a frame with the address, the
      environment and the number of extra arguments of the caller. */
  ghost function Called(s: State, f: Val, c: int, args: seq<Val>, back: int, rest: seq<Val>): State {
    s.(pc := c, accu := f, env := f, extra := |args| - 1,
       stack := args + [Code(back), s.env, Imm(s.extra)] + rest)
  }

  lemma CallLaw(data: Data, prog: seq<byte>, s: State, signal: int, f: Val, c: int, args: seq<Val>, rest: seq<Val>)
    requires 1 <= |args| <= 4 && IsClosure(s, f, c)
    requires EncodedAt(prog, s.pc, APPLY1 + |args| - 1, [], [])
    requires s.accu == f && s.stack == args + rest
    ensures ByteStep(data, prog, s, signal) == Continue(AfterSignal(Called(s, f, c, args, s.pc + 1, rest), signal))
  {
    hide EncodedAt, ByteStep, ShapeOf;
    CallShapes(APPLY1 + |args| - 1);
    Steps(data, prog, s, signal, APPLY1 + |args| - 1, [], []);
    Cut(args, rest);
  }

  /** The accumulator is the first argument, field 1 of the environment the function. */
  lemma CallEnvLaw(data: Data, prog: seq<byte>, s: State, signal: int, f: Val, c: int, args: seq<Val>, rest: seq<Val>)
    requires 1 <= |args| <= 4 && IsClosure(s, f, c)
    requires EncodedAt(prog, s.pc, PUSH_ENV1_APPLY1 + |args| - 1, [], [])
    requires IsField(s, s.env, 1, f) && [s.accu] + s.stack == args + rest
    ensures ByteStep(data, prog, s, signal) == Continue(AfterSignal(Called(s, f, c, args, s.pc + 1, rest), signal))
  {
    hide EncodedAt, ByteStep, ShapeOf;
    CallShapes(PUSH_ENV1_APPLY1 + |args| - 1);
    Steps(data, prog, s, signal, PUSH_ENV1_APPLY1 + |args| - 1, [], []);
    Cut(args, rest);
  }

  lemma CallGlobalLaw(data: Data, prog: seq<byte>, s: State, signal: int, f: Val, c: int, args: seq<Val>,
                      rest: seq<Val>, k: int)
    requires 1 <= |args| <= 4 && IsClosure(s, f, c)
    requires EncodedAt(prog, s.pc, PUSH_GETGLOBAL_APPLY1 + |args| - 1, [k], [])
    requires 0 <= k < |s.globals| && s.globals[k] == f && [s.accu] + s.stack == args + rest
    ensures ByteStep(data, prog, s, signal) == Continue(AfterSignal(Called(s, f, c, args, s.pc + 5, rest), signal))
  {
    hide EncodedAt, ByteStep, ShapeOf;
    CallShapes(PUSH_GETGLOBAL_APPLY1 + |args| - 1);
    Steps(data, prog, s, signal, PUSH_GETGLOBAL_APPLY1 + |args| - 1, [k], []);
    Cut(args, rest);
  }

  /** A call with any number of arguments: the frame is pushed first, then the arguments. */
  lemma PushRetaddrLaw(data: Data, prog: seq<byte>, s: State, signal: int, back: int)
    requires EncodedAt(prog, s.pc, PUSH_RETADDR, [], [back])
    ensures ByteStep(data, prog, s, signal) ==
            Continue(s.(pc := s.pc + 5, stack := [Code(back), s.env, Imm(s.extra)] + s.stack))
  {
    Steps(data, prog, s, signal, PUSH_RETADDR, [], [back]);
    hide EncodedAt, ByteStep;
  }

  lemma ApplyLaw(data: Data, prog: seq<byte>, s: State, signal: int, n: int, f: Val, c: int)
    requires EncodedAt(prog, s.pc, APPLY, [n], []) && s.accu == f && IsClosure(s, f, c)
    ensures ByteStep(data, prog, s, signal) ==
            Continue(AfterSignal(s.(pc := c, env := f, extra := n - 1), signal))
  {
    Steps(data, prog, s, signal, APPLY, [n], []);
    hide EncodedAt, ByteStep;
  }

  /** RETURN of a frame of `n` words. */
  ghost predicate ReturnAt(prog: seq<byte>, pc: int, n: int) {
    || (n == 1 && EncodedAt(prog, pc, RETURN1, [], []))
    || (n == 2 && EncodedAt(prog, pc, RETURN2, [], []))
    || EncodedAt(prog, pc, RETURN, [n], [])
  }

  lemma ReturnSteps(data: Data, prog: seq<byte>, s: State, signal: int, n: int) returns (next: int)
    requires ReturnAt(prog, s.pc, n)
    ensures ByteStep(data, prog, s, signal) == Return(s.(pc := next), n, signal)
  {
    hide EncodedAt, ByteStep, Return;
    if n == 1 && EncodedAt(prog, s.pc, RETURN1, [], []) {
      Steps(data, prog, s, signal, RETURN1, [], []);
      next := s.pc + 1;
    } else if n == 2 && EncodedAt(prog, s.pc, RETURN2, [], []) {
      Steps(data, prog, s, signal, RETURN2, [], []);
      next := s.pc + 1;
    } else {
      Steps(data, prog, s, signal, RETURN, [n], []);
      next := s.pc + 3;
    }
  }

  /** With no extra arguments left, the frame below the locals is left. */
  lemma ReturnLaw(data: Data, prog: seq<byte>, s: State, signal: int, locals: seq<Val>, back: int, env: Val,
                  extra: int, rest: seq<Val>)
    requires ReturnAt(prog, s.pc, |locals|) && s.extra <= 0
    requires s.stack == locals + ([Code(back), env, Imm(extra)] + rest)
    ensures ByteStep(data, prog, s, signal) ==
            Continue(AfterSignal(s.(pc := back, env := env, extra := extra, stack := rest), signal))
  {
    hide ReturnAt, ByteStep;
    Cut(locals, [Code(back), env, Imm(extra)] + rest);
    Cut([Code(back), env, Imm(extra)], rest);
    var next := ReturnSteps(data, prog, s, signal, |locals|);
  }

  /** With extra arguments left, the result is applied to them. */
  lemma ReturnAppliesLaw(data: Data, prog: seq<byte>, s: State, signal: int, locals: seq<Val>, c: int, rest: seq<Val>)
    requires ReturnAt(prog, s.pc, |locals|) && s.extra > 0 && IsClosure(s, s.accu, c) && s.stack == locals + rest
    ensures ByteStep(data, prog, s, signal) ==
            Continue(s.(pc := c, env := s.accu, extra := s.extra - 1, stack := rest))
  {
    hide ReturnAt, ByteStep;
    Cut(locals, rest);
    var next := ReturnSteps(data, prog, s, signal, |locals|);
  }

  /** A function that has been called, whatever it has done meanwhile, returns to its caller: the
      address, the environment, the number of extra arguments and the stack below the arguments are
      as before the call. */
  lemma CallThenReturn(data: Data, prog: seq<byte>, s: State, f: Val, c: int, args: seq<Val>, back: int,
                       rest: seq<Val>, t: State, locals: seq<Val>)
    requires t.stack == locals + Called(s, f, c, args, back, rest).stack[|args|..]
    requires ReturnAt(prog, t.pc, |locals|) && t.extra <= 0
    ensures ByteStep(data, prog, t, 0) ==
            Continue(t.(pc := back, env := s.env, extra := s.extra, stack := rest))
  {
    hide ReturnAt, ByteStep;
    var frame := [Code(back), s.env, Imm(s.extra)];
    assert args + frame + rest == args + (frame + rest);
    Cut(args, frame + rest);
    ReturnLaw(data, prog, t, 0, locals, back, s.env, s.extra, rest);
  }

  /** The state in which a signal has interrupted the program comes back when its handler returns. */
  lemma SignalThenReturn(data: Data, prog: seq<byte>, s: State, signal: int, t: State, local: Val)
    requires signal != 0 && t.stack == [local] + AfterSignal(s, signal).stack[1..] && t.extra <= 0
    requires EncodedAt(prog, t.pc, RETURN1, [], [])
    ensures ByteStep(data, prog, t, 0) ==
            Continue(t.(pc := s.pc, env := s.env, extra := s.extra, stack := s.stack))
  {
    hide EncodedAt, ByteStep;
    var frame := [Code(s.pc), s.env, Imm(s.extra)];
    assert [Imm(signal), Code(s.pc), s.env, Imm(s.extra)] + s.stack == [Imm(signal)] + (frame + s.stack);
    Cut([Imm(signal)], frame + s.stack);
    ReturnLaw(data, prog, t, 0, [local], s.pc, s.env, s.extra, s.stack);
  }

  // ----- Tail calls -----

  /** The arguments move to the end of a frame, whose other words are dropped. */
  ghost function TailCalled(s: State, f: Val, c: int, args: seq<Val>, rest: seq<Val>): State {
    s.(pc := c, accu := f, env := f, extra := s.extra + |args| - 1, stack := args + rest)
  }

  /** APPTERM with `n` arguments and a frame of `slots` words. */
  ghost predicate TailCallAt(prog: seq<byte>, pc: int, n: int, slots: int) {
    (1 <= n <= 4 && EncodedAt(prog, pc, APPTERM1 + n - 1, [slots], [])) || EncodedAt(prog, pc, APPTERM, [n, slots], [])
  }

  lemma CutTwice(a: seq<Val>, b: seq<Val>, c: seq<Val>)
    ensures (a + b + c)[..|a|] == a && (a + b + c)[|a + b|..] == c
  {
  }

  lemma TailCallLaw(data: Data, prog: seq<byte>, s: State, signal: int, f: Val, c: int, args: seq<Val>,
                    dropped: seq<Val>, rest: seq<Val>)
    requires TailCallAt(prog, s.pc, |args|, |args + dropped|)
    requires s.accu == f && IsClosure(s, f, c) && s.stack == args + dropped + rest
    ensures ByteStep(data, prog, s, signal) == Continue(AfterSignal(TailCalled(s, f, c, args, rest), signal))
  {
    hide EncodedAt, ByteStep;
    var n, slots := |args|, |args + dropped|;
    CutTwice(args, dropped, rest);
    if 1 <= n <= 4 && EncodedAt(prog, s.pc, APPTERM1 + n - 1, [slots], []) {
      Steps(data, prog, s, signal, APPTERM1 + n - 1, [slots], []);
    } else {
      Steps(data, prog, s, signal, APPTERM, [n, slots], []);
    }
  }

  lemma TailCallEnvLaw(data: Data, prog: seq<byte>, s: State, signal: int, f: Val, c: int, args: seq<Val>,
                       dropped: seq<Val>, rest: seq<Val>)
    requires 1 <= |args| <= 4 && EncodedAt(prog, s.pc, PUSH_ENV1_APPTERM1 + |args| - 1, [|args + dropped|], [])
    requires IsField(s, s.env, 1, f) && IsClosure(s, f, c) && [s.accu] + s.stack == args + dropped + rest
    ensures ByteStep(data, prog, s, signal) == Continue(AfterSignal(TailCalled(s, f, c, args, rest), signal))
  {
    hide EncodedAt, ByteStep, ShapeOf;
    CallShapes(PUSH_ENV1_APPTERM1 + |args| - 1);
    CutTwice(args, dropped, rest);
    Steps(data, prog, s, signal, PUSH_ENV1_APPTERM1 + |args| - 1, [|args + dropped|], []);
  }

  lemma TailCallGlobalLaw(data: Data, prog: seq<byte>, s: State, signal: int, f: Val, c: int, args: seq<Val>,
                          dropped: seq<Val>, rest: seq<Val>, k: int)
    requires 1 <= |args| <= 4
    requires EncodedAt(prog, s.pc, PUSH_GETGLOBAL_APPTERM1 + |args| - 1, [|args + dropped|, k], [])
    requires 0 <= k < |s.globals| && s.globals[k] == f && IsClosure(s, f, c)
    requires [s.accu] + s.stack == args + dropped + rest
    ensures ByteStep(data, prog, s, signal) == Continue(AfterSignal(TailCalled(s, f, c, args, rest), signal))
  {
    hide EncodedAt, ByteStep, ShapeOf;
    CallShapes(PUSH_GETGLOBAL_APPTERM1 + |args| - 1);
    CutTwice(args, dropped, rest);
    Steps(data, prog, s, signal, PUSH_GETGLOBAL_APPTERM1 + |args| - 1, [|args + dropped|, k], []);
  }

  /** A function that a called function `u` calls in tail position returns to the caller of `u`. */
  lemma TailCallThenReturn(data: Data, prog: seq<byte>, s: State, f: Val, c: int, args: seq<Val>, back: int,
                           rest: seq<Val>, u: State, f': Val, c': int, args': seq<Val>, t: State, locals: seq<Val>)
    requires t.stack == locals + TailCalled(u, f', c', args',
                                            Called(s, f, c, args, back, rest).stack[|args|..]).stack[|args'|..]
    requires ReturnAt(prog, t.pc, |locals|) && t.extra <= 0
    ensures ByteStep(data, prog, t, 0) ==
            Continue(t.(pc := back, env := s.env, extra := s.extra, stack := rest))
  {
    hide ReturnAt, ByteStep;
    Cut(args', Called(s, f, c, args, back, rest).stack[|args|..]);
    CallThenReturn(data, prog, s, f, c, args, back, rest, t, locals);
  }

  // ----- Closures -----

  /** A new block at the next place, in the accumulator. */
  ghost function WithBlock(s: State, tag: int, fields: seq<Val>): State {
    s.(accu := Ptr(s.place), place := s.place + 1, heap := s.heap[s.place := Block(tag, fields)])
  }

  /** The first variables of a closure are in the accumulator and on the stack. */
  ghost predicate Captures(s: State, vars: seq<Val>, rest: seq<Val>) {
    if vars == [] then s.stack == rest else [s.accu] + s.stack == vars + rest
  }

  lemma ClosureLaw(data: Data, prog: seq<byte>, s: State, signal: int, c: int, vars: seq<Val>, rest: seq<Val>)
    requires EncodedAt(prog, s.pc, CLOSURE, [|vars|], [c]) && Captures(s, vars, rest)
    ensures ByteStep(data, prog, s, signal) ==
            Continue(WithBlock(s, 249, [Code(c)] + vars).(pc := s.pc + 6, stack := rest))
  {
    hide EncodedAt, ByteStep;
    Cut(vars, rest);
    Steps(data, prog, s, signal, CLOSURE, [|vars|], [c]);
  }

  /** Field 1 of a recursive closure is the closure itself. */
  lemma ClosrecLaw(data: Data, prog: seq<byte>, s: State, signal: int, c: int, vars: seq<Val>, rest: seq<Val>)
    requires EncodedAt(prog, s.pc, CLOSREC, [|vars|], [c]) && Captures(s, vars, rest)
    ensures ByteStep(data, prog, s, signal) ==
            Continue(WithBlock(s, 249, [Code(c), Ptr(s.place)] + vars).(pc := s.pc + 6, stack := rest))
  {
    hide EncodedAt, ByteStep;
    Cut(vars, rest);
    Steps(data, prog, s, signal, CLOSREC, [|vars|], [c]);
  }

  /** A recursive function calls itself through its environment. */
  lemma CallsItself(data: Data, prog: seq<byte>, s: State, c: int, vars: seq<Val>, t: State, args: seq<Val>,
                    rest: seq<Val>)
    requires var f := WithBlock(s, 249, [Code(c), Ptr(s.place)] + vars);
             t.env == f.accu && t.env.a in t.heap && t.heap[t.env.a] == f.heap[f.accu.a]
    requires 1 <= |args| <= 4 && EncodedAt(prog, t.pc, PUSH_ENV1_APPLY1 + |args| - 1, [], [])
    requires [t.accu] + t.stack == args + rest
    ensures ByteStep(data, prog, t, 0) == Continue(Called(t, t.env, c, args, t.pc + 1, rest))
  {
    hide EncodedAt, ByteStep, Called;
    var fields := [Code(c), Ptr(s.place)] + vars;
    assert fields[0] == Code(c) && fields[1] == Ptr(s.place);
    CallEnvLaw(data, prog, t, 0, t.env, c, args, rest);
  }

  // ----- Partial applications -----

  lemma GrabLaw(data: Data, prog: seq<byte>, s: State, signal: int, required: int)
    requires EncodedAt(prog, s.pc, GRAB, [required], []) && s.extra >= required
    ensures ByteStep(data, prog, s, signal) == Continue(s.(pc := s.pc + 2, extra := s.extra - required))
  {
    hide EncodedAt, ByteStep;
    Steps(data, prog, s, signal, GRAB, [required], []);
  }

  /** With too few arguments the function returns a closure of them that starts one byte before. */
  lemma GrabTooFewLaw(data: Data, prog: seq<byte>, s: State, signal: int, required: int, args: seq<Val>, back: int,
                      env: Val, extra: int, rest: seq<Val>)
    requires EncodedAt(prog, s.pc, GRAB, [required], []) && s.extra < required && s.extra == |args| - 1
    requires s.stack == args + ([Code(back), env, Imm(extra)] + rest)
    ensures ByteStep(data, prog, s, signal) ==
            Continue(WithBlock(s, 249, [Code(s.pc - 1), s.env] + args).(pc := back, env := env, extra := extra,
                                                                        stack := rest))
  {
    hide EncodedAt, ByteStep;
    Cut(args, [Code(back), env, Imm(extra)] + rest);
    Cut([Code(back), env, Imm(extra)], rest);
    Steps(data, prog, s, signal, GRAB, [required], []);
  }

  lemma RestartLaw(data: Data, prog: seq<byte>, s: State, signal: int, code: Val, env: Val, args: seq<Val>)
    requires EncodedAt(prog, s.pc, RESTART, [], [])
    requires s.env.Ptr? && s.env.a in s.heap && s.heap[s.env.a].fields == [code, env] + args
    ensures ByteStep(data, prog, s, signal) ==
            Continue(s.(pc := s.pc + 1, env := env, extra := s.extra + |args|, stack := args + s.stack))
  {
    hide EncodedAt, ByteStep;
    Cut([code, env], args);
    Steps(data, prog, s, signal, RESTART, [], []);
  }

  /** A closure of too few arguments `args` for the function `f`, whose GRAB is at `g`. */
  ghost predicate IsPartial(s: State, v: Val, g: int, f: Val, args: seq<Val>) {
    v.Ptr? && v.a in s.heap && s.heap[v.a].fields == [Code(g - 1), f] + args
  }

  /** What GRAB makes of too few arguments is such a closure. */
  lemma GrabMakesPartial(data: Data, prog: seq<byte>, s: State, signal: int, required: int, args: seq<Val>, back: int,
                         env: Val, extra: int, rest: seq<Val>)
    requires EncodedAt(prog, s.pc, GRAB, [required], []) && s.extra < required && s.extra == |args| - 1
    requires s.stack == args + ([Code(back), env, Imm(extra)] + rest)
    ensures var o := ByteStep(data, prog, s, signal);
            o.Continue? && IsPartial(o.s, o.s.accu, s.pc, s.env, args)
  {
    hide EncodedAt, ByteStep;
    GrabTooFewLaw(data, prog, s, signal, required, args, back, env, extra, rest);
  }

  lemma RunStep(data: Data, prog: seq<byte>, s: State, s': State, signals: seq<int>)
    requires ByteStep(data, prog, s, 0) == Continue(s')
    ensures ByteRun(data, prog, s, [0] + signals) == ByteRun(data, prog, s', signals)
  {
    hide ByteStep;
    assert ([0] + signals)[1..] == signals;
  }

  /** The state in which the function finds all its arguments when it is applied to the rest of
      them through a partial application. */
  ghost function Regrabbing(u: State, g: int, f: Val, args: seq<Val>, more: seq<Val>, rest: seq<Val>): State {
    u.(pc := g, env := f, extra := |args + more| - 1,
       stack := args + more + ([Code(u.pc + 1), u.env, Imm(u.extra)] + rest))
  }

  /** Applying the closure of the first arguments to the others gets there by APPLYn and RESTART. */
  lemma ThroughPartial(data: Data, prog: seq<byte>, g: int, f: Val, args: seq<Val>, u: State, more: seq<Val>,
                       rest: seq<Val>)
    requires EncodedAt(prog, g - 1, RESTART, [], []) && IsPartial(u, u.accu, g, f, args)
    requires 1 <= |more| <= 4 && EncodedAt(prog, u.pc, APPLY1 + |more| - 1, [], []) && u.stack == more + rest
    ensures ByteRun(data, prog, u, [0, 0, 0]) ==
            ByteRun(data, prog, Regrabbing(u, g, f, args, more, rest), [0])
  {
    hide EncodedAt, ByteStep, ByteRun;
    assert ([Code(g - 1), f] + args)[0] == Code(g - 1);
    CallLaw(data, prog, u, 0, u.accu, g - 1, more, rest);
    var c := Called(u, u.accu, g - 1, more, u.pc + 1, rest);
    RestartLaw(data, prog, c, 0, Code(g - 1), f, args);
    var frame := [Code(u.pc + 1), u.env, Imm(u.extra)];
    assert args + (more + frame + rest) == args + more + (frame + rest);
    RunStep(data, prog, u, c, [0, 0]);
    RunStep(data, prog, c, Regrabbing(u, g, f, args, more, rest), [0]);
    assert [0] + [0, 0] == [0, 0, 0] && [0] + [0] == [0, 0];
  }

  /** The state before APPLY at `q`, when the function is applied to all arguments at once. */
  ghost function AllAtOnce(u: State, q: int, f: Val, args: seq<Val>, more: seq<Val>, rest: seq<Val>): State {
    u.(pc := q, accu := f, stack := args + more + ([Code(u.pc + 1), u.env, Imm(u.extra)] + rest))
  }

  /** Applying a partial application to the other arguments comes to the same as applying the function
      to all of them: its body starts with all arguments on the stack, or there is again a closure of
      all of them, when they are still too few. */
  lemma PartialApplication(data: Data, prog: seq<byte>, g: int, required: int, f: Val, args: seq<Val>, u: State,
                           more: seq<Val>, rest: seq<Val>, q: int)
    requires EncodedAt(prog, g - 1, RESTART, [], []) && EncodedAt(prog, g, GRAB, [required], [])
    requires IsPartial(u, u.accu, g, f, args) && IsClosure(u, f, g)
    requires 1 <= |more| <= 4 && EncodedAt(prog, u.pc, APPLY1 + |more| - 1, [], []) && u.stack == more + rest
    requires EncodedAt(prog, q, APPLY, [|args + more|], [])
    ensures var o := ByteRun(data, prog, u, [0, 0, 0]);
            var all := ByteRun(data, prog, AllAtOnce(u, q, f, args, more, rest), [0, 0]);
            if |args + more| <= required then o == all
            else o.Continue? && all == Continue(o.s.(accu := f)) && o.s.pc == g + 2
  {
    hide EncodedAt, ByteStep, ByteRun;
    ThroughPartial(data, prog, g, f, args, u, more, rest);
    var v := AllAtOnce(u, q, f, args, more, rest);
    var r := Regrabbing(u, g, f, args, more, rest);
    ApplyLaw(data, prog, v, 0, |args + more|, f, g);
    RunStep(data, prog, v, r.(accu := f), [0]);
    assert [0] + [0] == [0, 0] && [0] + [] == [0];
    if r.extra >= required {
      GrabLaw(data, prog, r, 0, required);
      GrabLaw(data, prog, r.(accu := f), 0, required);
      RunStep(data, prog, r, r.(pc := g + 2, extra := r.extra - required), []);
      RunStep(data, prog, r.(accu := f), r.(accu := f, pc := g + 2, extra := r.extra - required), []);
      RunNothing(data, prog, r.(pc := g + 2, extra := r.extra - required));
      RunNothing(data, prog, r.(accu := f, pc := g + 2, extra := r.extra - required));
    } else {
      GrabTooFewLaw(data, prog, r, 0, required, args + more, u.pc + 1, u.env, u.extra, rest);
      GrabTooFewLaw(data, prog, r.(accu := f), 0, required, args + more, u.pc + 1, u.env, u.extra, rest);
      var p := WithBlock(r, 249, [Code(g - 1), f] + (args + more)).(pc := u.pc + 1, env := u.env, extra := u.extra,
                                                                  stack := rest);
      RunStep(data, prog, r, p, []);
      RunStep(data, prog, r.(accu := f), p, []);
    }
  }

  lemma RunNothing(data: Data, prog: seq<byte>, s: State)
    ensures ByteRun(data, prog, s, []) == Continue(s)
  {
  }

  // ----- Exceptions -----

  lemma PushTrapLaw(data: Data, prog: seq<byte>, s: State, signal: int, h: int)
    requires EncodedAt(prog, s.pc, PUSHTRAP, [], [h])
    ensures ByteStep(data, prog, s, signal) == Continue(Trapped(s, h).(pc := s.pc + 5))
  {
    hide EncodedAt, ByteStep;
    Steps(data, prog, s, signal, PUSHTRAP, [], [h]);
  }

  /** A trap frame for the handler at `h` on the stack. */
  ghost function Trapped(s: State, h: int): State {
    s.(trap := |s.stack| + 4, stack := [Code(h), Depth(s.trap), s.env, Imm(s.extra)] + s.stack)
  }

  /** Leaving the trap frame restores the stack and the frame before. */
  lemma TrapThenPop(data: Data, prog: seq<byte>, s: State, h: int, t: State, signal: int)
    requires EncodedAt(prog, t.pc, POPTRAP, [], []) && t.stack == Trapped(s, h).stack
    ensures ByteStep(data, prog, t, signal) == Continue(t.(pc := t.pc + 1, trap := s.trap, stack := s.stack))
  {
    hide EncodedAt, ByteStep;
    Cut([Code(h), Depth(s.trap), s.env, Imm(s.extra)], s.stack);
    Steps(data, prog, t, signal, POPTRAP, [], []);
  }

  /** The handler of `s` is reached with everything as it was there, but for the exception. */
  ghost function Handled(s: State, h: int, t: State): State {
    t.(pc := h, env := s.env, extra := s.extra, trap := s.trap, stack := s.stack)
  }

  /** `t` has pushed more on top of the trap frame of `s`, which is the last one. */
  ghost predicate Inside(s: State, h: int, t: State, more: seq<Val>) {
    t.stack == more + Trapped(s, h).stack && t.trap == Trapped(s, h).trap && t.base <= |s.stack|
  }

  /** An exception, however deep, resumes at the handler with the environment, the extra arguments,
      the stack and the last trap frame that there were when it was installed. */
  lemma TrapThenRaise(data: Data, prog: seq<byte>, s: State, h: int, t: State, more: seq<Val>, signal: int)
    requires EncodedAt(prog, t.pc, RAISE, [], []) && Inside(s, h, t, more)
    ensures ByteStep(data, prog, t, signal) == Continue(Handled(s, h, t))
  {
    hide EncodedAt, ByteStep;
    Steps(data, prog, t, signal, RAISE, [], []);
    RaiseInside(s, h, t.(pc := t.pc + 1), more);
  }

  lemma RaiseInside(s: State, h: int, t: State, more: seq<Val>)
    requires Inside(s, h, t, more)
    ensures RaiseExn(t) == Continue(Handled(s, h, t))
  {
    var frame := [Code(h), Depth(s.trap), s.env, Imm(s.extra)];
    Cut(more, frame + s.stack);
    Cut(frame, s.stack);
  }

  /** Without a trap frame of its own the interpreter is left. */
  lemma RaiseEscapes(data: Data, prog: seq<byte>, t: State, signal: int)
    requires EncodedAt(prog, t.pc, RAISE, [], []) && t.trap <= t.base
    ensures ByteStep(data, prog, t, signal) == Escape(t.accu, t.(pc := t.pc + 1))
  {
    hide EncodedAt, ByteStep;
    Steps(data, prog, t, signal, RAISE, [], []);
  }

  // ----- Data -----

  /** The instructions of the laws above; the others only work on data. */
  ghost predicate IsControl(op: int) {
    || SWITCH <= op <= BRANCHINTERVAL || PUSH_ENV1_APPLY1 <= op <= PUSH_ENV1_APPTERM4
    || PUSH_GETGLOBAL_APPLY1 <= op <= PUSH_GETGLOBAL_APPTERM4 || PUSH_RETADDR <= op <= CLOSREC
    || PUSHTRAP <= op <= POPTRAP || op == CHECK_SIGNALS || op == STOP
  }

  /** The program goes on behind the instruction; an exception goes to the last handler. */
  lemma DataLaw(data: Data, prog: seq<byte>, s: State, signal: int, op: int, nums: seq<int>)
    requires EncodedAt(prog, s.pc, op, nums, []) && !IsControl(op)
    ensures var s1 := s.(pc := s.pc + 1 + NumBytes(ShapeOf(op).value));
            match data(op, nums, s1)
            case Done(s') => ByteStep(data, prog, s, signal) == Continue(s')
            case Raise(t) => t.trap <= t.base ==> ByteStep(data, prog, s, signal) == Escape(t.accu, t)
            case Undefined => ByteStep(data, prog, s, signal) == Wrong
    ensures var s1 := s.(pc := s.pc + 1 + NumBytes(ShapeOf(op).value));
            forall u, h, t, more {:trigger Inside(u, h, t, more)} ::
              data(op, nums, s1) == Raise(t) && Inside(u, h, t, more) ==>
                ByteStep(data, prog, s, signal) == Continue(Handled(u, h, t))
  {
    hide EncodedAt, ByteStep, ShapeOf, NumBytes, Inside, Handled, RaiseExn;
    Steps(data, prog, s, signal, op, nums, []);
    RaiseOutside();
    forall u, h, t, more {:trigger Inside(u, h, t, more)} | Inside(u, h, t, more)
      ensures RaiseExn(t) == Continue(Handled(u, h, t))
    {
      RaiseInside(u, h, t, more);
    }
  }

  lemma RaiseOutside()
    ensures forall t: State {:trigger RaiseExn(t)} :: t.trap <= t.base ==> RaiseExn(t) == Escape(t.accu, t)
  {
  }
}
