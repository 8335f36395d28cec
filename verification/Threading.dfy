/** Threaded code simulates bytecode step for step (src/runtime/expand.c,
    src/runtime/interp.c): addresses of code are renamed, and nothing else differs. */
module Threading {
  import opened Options
  import opened Bytecode
  import opened Expansion
  import opened Interpreter

  // ----- The two ways to fetch an instruction -----

  ghost function ByteFetch(prog: seq<byte>, pc: int): Option<Instr> {
    if !Instruction(prog, pc) then None
    else
      var next := pc + ByteSize(prog, pc);
      Some(Instr(prog[pc], Nums(prog, pc), if prog[pc] == GRAB then [next - 3] else Labels(prog, pc), next))
  }

  ghost predicate NumsAt(code: seq<Word>, k: int, n: int) {
    0 <= k && k + n <= |code| && forall j :: k <= j < k + n ==> code[j].Num?
  }

  ghost predicate AddrsAt(code: seq<Word>, k: int, n: int) {
    0 <= k && k + n <= |code| && forall j :: k <= j < k + n ==> code[j].Addr?
  }

  ghost function NumsFrom(code: seq<Word>, k: int, n: nat): seq<int>
    requires NumsAt(code, k, n)
  {
    seq(n, j requires 0 <= j < n => code[k + j].n)
  }

  ghost function AddrsFrom(code: seq<Word>, k: int, n: nat): seq<int>
    requires AddrsAt(code, k, n)
  {
    seq(n, j requires 0 <= j < n => code[k + j].k)
  }

  ghost function RealFetch(code: seq<Word>, k: int): Option<Instr> {
    if !(0 <= k < |code| && code[k].Op? && ShapeOf(code[k].op).Some?) then None
    else
      var shape := ShapeOf(code[k].op).value;
      if !NumsAt(code, k + 1, NumCount(shape)) then None
      else
        var nums := NumsFrom(code, k + 1, NumCount(shape));
        var count := LabelCount(shape, if nums == [] then 0 else nums[0]);
        if !AddrsAt(code, k + 1 + |nums|, count) then None
        else
          var next := k + 1 + |nums| + count;
          Some(Instr(code[k].op, nums,
                     if code[k].op == GRAB then [next - 3] else AddrsFrom(code, k + 1 + |nums|, count), next))
  }

  // ----- Renaming of code addresses -----

  type Renaming = int -> int

  ghost function RnVal(f: Renaming, v: Val): Val {
    if v.Code? then Code(f(v.pc)) else v
  }

  ghost function RnVals(f: Renaming, vs: seq<Val>): (r: seq<Val>)
    ensures |r| == |vs|
  {
    seq(|vs|, i requires 0 <= i < |vs| => RnVal(f, vs[i]))
  }

  ghost function RnBlock(f: Renaming, b: Block): Block {
    Block(b.tag, RnVals(f, b.fields))
  }

  ghost function RnHeap(f: Renaming, heap: map<int, Block>): map<int, Block> {
    map a | a in heap :: RnBlock(f, heap[a])
  }

  ghost function Rn(f: Renaming, s: State): State {
    State(f(s.pc), RnVals(f, s.stack), RnVal(f, s.accu), RnVal(f, s.env), s.extra, s.trap, s.base,
          RnHeap(f, s.heap), s.place, RnVals(f, s.globals), f(s.handler))
  }

  ghost function RnInts(f: Renaming, ns: seq<int>): (r: seq<int>)
    ensures |r| == |ns|
  {
    seq(|ns|, i requires 0 <= i < |ns| => f(ns[i]))
  }

  ghost function RnInstr(f: Renaming, i: Instr): Instr {
    Instr(i.op, i.nums, RnInts(f, i.targets), f(i.next))
  }

  ghost function RnOutcome(f: Renaming, o: Outcome): Outcome {
    match o
    case Continue(s) => Continue(Rn(f, s))
    case Escape(exn, s) => Escape(RnVal(f, exn), Rn(f, s))
    case Stop(v, s) => Stop(RnVal(f, v), Rn(f, s))
    case Wrong => Wrong
  }

  ghost function RnEffect(f: Renaming, e: Effect): Effect {
    match e
    case Done(s) => Done(Rn(f, s))
    case Raise(s) => Raise(Rn(f, s))
    case Undefined => Undefined
  }

  ghost function RnOption(f: Renaming, v: Option<Val>): Option<Val> {
    match v
    case None => None
    case Some(x) => Some(RnVal(f, x))
  }

  /** Instructions on data do not look into code addresses. */
  ghost predicate Parametric(data: Data) {
    forall f: Renaming, op, nums, s {:trigger RnEffect(f, data(op, nums, s))} ::
      data(op, nums, Rn(f, s)) == RnEffect(f, data(op, nums, s))
  }

  lemma RnCat(f: Renaming, a: seq<Val>, b: seq<Val>)
    ensures RnVals(f, a + b) == RnVals(f, a) + RnVals(f, b)
  {
  }

  lemma RnCut(f: Renaming, a: seq<Val>, n: int)
    requires 0 <= n <= |a|
    ensures RnVals(f, a[..n]) == RnVals(f, a)[..n] && RnVals(f, a[n..]) == RnVals(f, a)[n..]
  {
  }

  lemma RnPop(f: Renaming, s: State, n: int)
    requires 0 <= n <= |s.stack|
    ensures Pop(Rn(f, s), n) == Rn(f, Pop(s, n))
  {
    RnCut(f, s.stack, n);
  }

  lemma RnPush(f: Renaming, s: State, vs: seq<Val>)
    ensures Push(Rn(f, s), RnVals(f, vs)) == Rn(f, Push(s, vs))
  {
    RnCat(f, vs, s.stack);
  }

  lemma RnField(f: Renaming, s: State, v: Val, i: int)
    ensures FieldOf(Rn(f, s), RnVal(f, v), i) == RnOption(f, FieldOf(s, v, i))
  {
  }

  lemma RnSignals(f: Renaming, s: State, signal: int)
    ensures Signals(Rn(f, s), signal) == Rn(f, Signals(s, signal))
  {
    var vs := [Imm(signal), Code(s.pc), s.env, Imm(s.extra)];
    assert RnVals(f, vs) == [Imm(signal), Code(f(s.pc)), RnVal(f, s.env), Imm(s.extra)];
    RnPush(f, s, vs);
  }

  lemma RnEnter(f: Renaming, s: State, signal: int)
    ensures Enter(Rn(f, s), signal) == RnOutcome(f, Enter(s, signal))
  {
    hide FieldOf, Signals, RnVals, RnHeap;
    RnField(f, s, s.accu, 0);
    match FieldOf(s, s.accu, 0) {
      case Some(Code(pc)) => RnSignals(f, s.(pc := pc, env := s.accu), signal);
      case _ =>
    }
  }

  lemma RnCall(f: Renaming, s: State, n: int, signal: int)
    ensures Call(Rn(f, s), n, signal) == RnOutcome(f, Call(s, n, signal))
  {
    hide Enter, RnHeap;
    if 0 <= n <= |s.stack| {
      var frame := [Code(s.pc), s.env, Imm(s.extra)];
      assert RnVals(f, frame) == [Code(f(s.pc)), RnVal(f, s.env), Imm(s.extra)];
      RnCut(f, s.stack, n);
      RnCat(f, s.stack[..n], frame);
      RnCat(f, s.stack[..n] + frame, s.stack[n..]);
      RnEnter(f, s.(stack := s.stack[..n] + frame + s.stack[n..], extra := n - 1), signal);
    }
  }

  lemma RnTailCall(f: Renaming, s: State, n: int, slots: int, signal: int)
    ensures TailCall(Rn(f, s), n, slots, signal) == RnOutcome(f, TailCall(s, n, slots, signal))
  {
    hide Enter, RnHeap;
    if 0 <= n <= slots <= |s.stack| {
      RnCut(f, s.stack, n);
      RnCut(f, s.stack, slots);
      RnCat(f, s.stack[..n], s.stack[slots..]);
      RnEnter(f, s.(stack := s.stack[..n] + s.stack[slots..], extra := s.extra + n - 1), signal);
    }
  }

  lemma RnPushFunction(f: Renaming, s: State, v: Option<Val>)
    ensures PushFunction(Rn(f, s), RnOption(f, v)) ==
            if v.None? then None else Some(Rn(f, PushFunction(s, v).value))
  {
    hide RnHeap;
    RnPush(f, s, [s.accu]);
    assert RnVals(f, [s.accu]) == [RnVal(f, s.accu)];
  }

  lemma RnGlobal(f: Renaming, s: State, k: int)
    ensures Global(Rn(f, s), k) == RnOption(f, Global(s, k))
  {
  }

  lemma RnLeaveFrame(f: Renaming, s: State)
    ensures LeaveFrame(Rn(f, s)) == RnOutcome(f, LeaveFrame(s))
  {
    hide RnHeap;
    if |s.stack| >= 3 {
      RnCut(f, s.stack, 3);
    }
  }

  lemma RnReturn(f: Renaming, s: State, n: int, signal: int)
    ensures Return(Rn(f, s), n, signal) == RnOutcome(f, Return(s, n, signal))
  {
    hide RnHeap, RnVals, Enter, LeaveFrame, Signals, Pop;
    if 0 <= n <= |s.stack| {
      RnPop(f, s, n);
      RnEnter(f, Pop(s, n).(extra := s.extra - 1), 0);
      RnLeaveFrame(f, Pop(s, n));
      match LeaveFrame(Pop(s, n)) {
        case Continue(s') => RnSignals(f, s', signal);
        case _ =>
      }
    }
  }

  lemma RnRestart(f: Renaming, s: State)
    ensures Restart(Rn(f, s)) == RnOutcome(f, Restart(s))
  {
    if s.env.Ptr? && s.env.a in s.heap && |s.heap[s.env.a].fields| >= 2 {
      var fields := s.heap[s.env.a].fields;
      assert Rn(f, s).heap[s.env.a].fields == RnVals(f, fields);
      RnCut(f, fields, 2);
      RnPush(f, s, fields[2..]);
    }
  }

  lemma RnAlloc(f: Renaming, s: State, tag: int, fields: seq<Val>)
    ensures Alloc(Rn(f, s), tag, RnVals(f, fields)) == Rn(f, Alloc(s, tag, fields))
  {
  }

  lemma RnGrab(f: Renaming, s: State, required: int, restart: int)
    ensures Grab(Rn(f, s), required, f(restart)) == RnOutcome(f, Grab(s, required, restart))
  {
    hide RnHeap, Alloc, LeaveFrame, Pop;
    if s.extra < required && 0 <= 1 + s.extra <= |s.stack| {
      var n := 1 + s.extra;
      assert RnVals(f, [Code(restart), s.env]) == [Code(f(restart)), RnVal(f, s.env)];
      RnCut(f, s.stack, n);
      RnCat(f, [Code(restart), s.env], s.stack[..n]);
      RnAlloc(f, s, CLOSURE_TAG, [Code(restart), s.env] + s.stack[..n]);
      AllocStack(s, CLOSURE_TAG, [Code(restart), s.env] + s.stack[..n]);
      RnPop(f, Alloc(s, CLOSURE_TAG, [Code(restart), s.env] + s.stack[..n]), n);
      RnLeaveFrame(f, Pop(Alloc(s, CLOSURE_TAG, [Code(restart), s.env] + s.stack[..n]), n));
    }
  }

  lemma AllocStack(s: State, tag: int, fields: seq<Val>)
    ensures Alloc(s, tag, fields).stack == s.stack
  {
  }

  /** The block of a closure that starts with `first`, then the variables on the stack. */
  lemma RnCapture(f: Renaming, s: State, first: seq<Val>, n: int)
    requires 0 <= n <= |s.stack|
    ensures Pop(Alloc(Rn(f, s), CLOSURE_TAG, RnVals(f, first) + RnVals(f, s.stack)[..n]), n) ==
            Rn(f, Pop(Alloc(s, CLOSURE_TAG, first + s.stack[..n]), n))
  {
    hide RnHeap, Alloc, Pop, RnVals;
    RnCut(f, s.stack, n);
    RnCat(f, first, s.stack[..n]);
    RnAlloc(f, s, CLOSURE_TAG, first + s.stack[..n]);
    AllocStack(s, CLOSURE_TAG, first + s.stack[..n]);
    RnPop(f, Alloc(s, CLOSURE_TAG, first + s.stack[..n]), n);
  }

  lemma RnPushAccu(f: Renaming, s: State, nvars: int)
    ensures (if nvars > 0 then Push(Rn(f, s), [RnVal(f, s.accu)]) else Rn(f, s)) ==
            Rn(f, if nvars > 0 then Push(s, [s.accu]) else s)
  {
    hide RnHeap;
    RnPush(f, s, [s.accu]);
    assert RnVals(f, [s.accu]) == [RnVal(f, s.accu)];
  }

  lemma RnClosure(f: Renaming, s: State, nvars: int, start: int)
    ensures Closure(Rn(f, s), nvars, f(start)) == RnOutcome(f, Closure(s, nvars, start))
    ensures Closrec(Rn(f, s), nvars, f(start)) == RnOutcome(f, Closrec(s, nvars, start))
  {
    hide RnHeap, Alloc, Pop, Push;
    RnPushAccu(f, s, nvars);
    var s' := if nvars > 0 then Push(s, [s.accu]) else s;
    if 0 <= nvars <= |s'.stack| {
      assert RnVals(f, [Code(start)]) == [Code(f(start))];
      assert RnVals(f, [Code(start), Ptr(s.place)]) == [Code(f(start)), Ptr(s.place)];
      RnCapture(f, s', [Code(start)], nvars);
      RnCapture(f, s', [Code(start), Ptr(s.place)], nvars);
    }
  }

  lemma RnTraps(f: Renaming, s: State, handler: int)
    ensures PushTrap(Rn(f, s), f(handler)) == RnOutcome(f, PushTrap(s, handler))
    ensures PopTrap(Rn(f, s)) == RnOutcome(f, PopTrap(s))
  {
    hide RnHeap;
    var vs := [Code(handler), Depth(s.trap), s.env, Imm(s.extra)];
    assert RnVals(f, vs) == [Code(f(handler)), Depth(s.trap), RnVal(f, s.env), Imm(s.extra)];
    RnPush(f, s, vs);
    if |s.stack| >= 4 {
      RnPop(f, s, 4);
    }
  }

  lemma RnRaise(f: Renaming, s: State)
    ensures RaiseExn(Rn(f, s)) == RnOutcome(f, RaiseExn(s))
  {
    hide RnHeap;
    if s.base < s.trap && 0 <= s.trap <= |s.stack| {
      RnPop(f, s, |s.stack| - s.trap);
      var s' := Pop(s, |s.stack| - s.trap);
      if |s'.stack| >= 4 {
        RnPop(f, s', 4);
      }
    }
  }

  lemma RnTag(f: Renaming, s: State, v: Val)
    ensures TagOf(Rn(f, s), RnVal(f, v)) == TagOf(s, v)
  {
  }

  lemma RnTest(f: Renaming, op: int, x: Val, y: Val)
    ensures Test(op, RnVal(f, x), RnVal(f, y)) == Test(op, x, y)
  {
  }

  lemma RnInterval(f: Renaming, s: State, below: int, above: int)
    ensures BranchInterval(Rn(f, s), f(below), f(above)) == RnOutcome(f, BranchInterval(s, below, above))
  {
    hide RnHeap;
    if |s.stack| >= 2 {
      RnPop(f, s, 2);
    }
  }

  lemma RnCallStep(f: Renaming, i: Instr, s: State, signal: int)
    requires WellFormed(i) && IsCall(i.op)
    ensures CallStep(RnInstr(f, i), Rn(f, s), signal) == RnOutcome(f, CallStep(i, s, signal))
  {
    hide RnHeap, RnVals, Call, FieldOf, Global, PushFunction, ShapeOf;
    if APPLY1 <= i.op <= APPLY4 {
      RnCall(f, s, i.op - APPLY1 + 1, signal);
    } else if PUSH_ENV1_APPLY1 <= i.op <= PUSH_ENV1_APPLY4 {
      RnField(f, s, s.env, 1);
      CallOn(f, s, FieldOf(s, s.env, 1), i.op - PUSH_ENV1_APPLY1 + 1, signal);
    } else {
      OneNum(i);
      RnGlobal(f, s, i.nums[0]);
      CallOn(f, s, Global(s, i.nums[0]), i.op - PUSH_GETGLOBAL_APPLY1 + 1, signal);
    }
  }

  lemma OneNum(i: Instr)
    requires WellFormed(i) && PUSH_GETGLOBAL_APPLY1 <= i.op <= PUSH_GETGLOBAL_APPLY4
    ensures |i.nums| == 1
  {
  }

  lemma CallOn(f: Renaming, s: State, v: Option<Val>, n: int, signal: int)
    ensures PushFunction(s, v).None? <==> PushFunction(Rn(f, s), RnOption(f, v)).None?
    ensures v.Some? ==> PushFunction(s, v).Some? && PushFunction(Rn(f, s), RnOption(f, v)).Some?
    ensures v.None? ==> PushFunction(s, v).None?
    ensures v.Some? ==> Call(PushFunction(Rn(f, s), RnOption(f, v)).value, n, signal) ==
                        RnOutcome(f, Call(PushFunction(s, v).value, n, signal))
  {
    hide RnHeap, RnVals, Call;
    RnPushFunction(f, s, v);
    if v.Some? {
      RnCall(f, PushFunction(s, v).value, n, signal);
    }
  }

  lemma TailCallOn(f: Renaming, s: State, v: Option<Val>, n: int, slots: int, signal: int)
    ensures PushFunction(s, v).None? <==> PushFunction(Rn(f, s), RnOption(f, v)).None?
    ensures v.Some? ==> PushFunction(s, v).Some? && PushFunction(Rn(f, s), RnOption(f, v)).Some?
    ensures v.None? ==> PushFunction(s, v).None?
    ensures v.Some? ==> TailCall(PushFunction(Rn(f, s), RnOption(f, v)).value, n, slots, signal) ==
                        RnOutcome(f, TailCall(PushFunction(s, v).value, n, slots, signal))
  {
    hide RnHeap, RnVals, TailCall;
    RnPushFunction(f, s, v);
    if v.Some? {
      RnTailCall(f, PushFunction(s, v).value, n, slots, signal);
    }
  }

  lemma SomeNums(i: Instr)
    requires WellFormed(i) && IsTailCall(i.op)
    ensures |i.nums| >= 1 && (PUSH_GETGLOBAL_APPTERM1 <= i.op <= PUSH_GETGLOBAL_APPTERM4 ==> |i.nums| == 2)
  {
  }

  lemma RnTailCallStep(f: Renaming, i: Instr, s: State, signal: int)
    requires WellFormed(i) && IsTailCall(i.op)
    ensures TailCallStep(RnInstr(f, i), Rn(f, s), signal) == RnOutcome(f, TailCallStep(i, s, signal))
  {
    hide RnHeap, RnVals, TailCall, FieldOf, Global, PushFunction, ShapeOf;
    SomeNums(i);
    if APPTERM1 <= i.op <= APPTERM4 {
      RnTailCall(f, s, i.op - APPTERM1 + 1, i.nums[0], signal);
    } else if PUSH_ENV1_APPTERM1 <= i.op <= PUSH_ENV1_APPTERM4 {
      RnField(f, s, s.env, 1);
      TailCallOn(f, s, FieldOf(s, s.env, 1), i.op - PUSH_ENV1_APPTERM1 + 1, i.nums[0], signal);
    } else {
      RnGlobal(f, s, i.nums[1]);
      TailCallOn(f, s, Global(s, i.nums[1]), i.op - PUSH_GETGLOBAL_APPTERM1 + 1, i.nums[0], signal);
    }
  }

  lemma OneTarget(i: Instr)
    requires WellFormed(i) && IsBranch(i.op)
    ensures |i.targets| == 1 && (i.op == BRANCHIFNEQTAG ==> |i.nums| == 1)
  {
  }

  lemma RnBranch(f: Renaming, s: State, c: Option<bool>, target: int)
    ensures Branch(Rn(f, s), c, f(target)) == RnOutcome(f, Branch(s, c, target))
  {
  }

  lemma RnBranchStep(f: Renaming, i: Instr, s: State)
    requires WellFormed(i) && IsBranch(i.op)
    ensures BranchStep(RnInstr(f, i), Rn(f, s)) == RnOutcome(f, BranchStep(i, s))
  {
    hide RnHeap, TagOf, Test, ShapeOf, Branch;
    OneTarget(i);
    var target := i.targets[0];
    RnTag(f, s, s.accu);
    if i.op in {BRANCH, BRANCHIF, BRANCHIFNOT, BRANCHIFNEQTAG} {
      RnBranch(f, s, Some(true), target);
      RnBranch(f, s, TagIs(s, s.accu, 0), target);
      RnBranch(f, s, Not(TagIs(s, s.accu, 0)), target);
      if i.op == BRANCHIFNEQTAG {
        RnBranch(f, s, Not(TagIs(s, s.accu, i.nums[0])), target);
      }
    } else if s.stack != [] {
      RnPop(f, s, 1);
      RnTest(f, i.op, s.stack[0], s.accu);
      RnBranch(f, Pop(s, 1).(accu := s.stack[0]), TagIs(s, s.accu, 0), target);
      RnBranch(f, Pop(s, 1), Test(i.op, s.stack[0], s.accu), target);
    }
  }

  lemma RnFrameStep(f: Renaming, i: Instr, s: State, signal: int)
    requires WellFormed(i)
    ensures FrameStep(RnInstr(f, i), Rn(f, s), signal).Some? <==> FrameStep(i, s, signal).Some?
    ensures FrameStep(i, s, signal).Some? ==>
              FrameStep(RnInstr(f, i), Rn(f, s), signal).value == RnOutcome(f, FrameStep(i, s, signal).value)
  {
    hide RnHeap, Enter, TailCall, Return, Restart, Grab, Closure, Closrec, PushTrap, PopTrap, RaiseExn;
    if i.op == PUSH_RETADDR {
      var vs := [Code(i.targets[0]), s.env, Imm(s.extra)];
      assert RnVals(f, vs) == [Code(f(i.targets[0])), RnVal(f, s.env), Imm(s.extra)];
      RnPush(f, s, vs);
    } else if i.op == APPLY {
      RnEnter(f, s.(extra := i.nums[0] - 1), signal);
    } else if i.op == APPTERM {
      RnTailCall(f, s, i.nums[0], i.nums[1], signal);
    } else if i.op == RETURN1 {
      RnReturn(f, s, 1, signal);
    } else if i.op == RETURN2 {
      RnReturn(f, s, 2, signal);
    } else if i.op == RETURN {
      RnReturn(f, s, i.nums[0], signal);
    } else if i.op == RESTART {
      RnRestart(f, s);
    } else if i.op == GRAB {
      RnGrab(f, s, i.nums[0], i.targets[0]);
    } else if i.op == CLOSURE || i.op == CLOSREC {
      RnClosure(f, s, i.nums[0], i.targets[0]);
    } else if i.op == PUSHTRAP {
      RnTraps(f, s, i.targets[0]);
    } else if i.op == POPTRAP {
      RnTraps(f, s, 0);
    } else if i.op == RAISE {
      RnRaise(f, s);
    }
  }

  lemma RnSwitch(f: Renaming, s: State, targets: seq<int>)
    ensures Switch(Rn(f, s), RnInts(f, targets)) == RnOutcome(f, Switch(s, targets))
  {
  }

  lemma RnDataStep(f: Renaming, data: Data, i: Instr, s: State)
    requires Parametric(data)
    ensures DataStep(data, RnInstr(f, i), Rn(f, s)) == RnOutcome(f, DataStep(data, i, s))
  {
    hide RnHeap, RnVals, RaiseExn;
    assert data(i.op, i.nums, Rn(f, s)) == RnEffect(f, data(i.op, i.nums, s));
    match data(i.op, i.nums, s) {
      case Raise(s') => RnRaise(f, s');
      case _ =>
    }
  }

  lemma TwoTargets(i: Instr)
    requires WellFormed(i) && i.op == BRANCHINTERVAL
    ensures |i.targets| == 2
  {
  }

  /** An instruction does the same on renamed addresses. */
  lemma ExecuteRenamed(f: Renaming, data: Data, i: Instr, s: State, signal: int)
    requires WellFormed(i) && WellFormed(RnInstr(f, i)) && Parametric(data)
    ensures Execute(data, RnInstr(f, i), Rn(f, s), signal) == RnOutcome(f, Execute(data, i, s, signal))
  {
    hide RnHeap, RnVals, CallStep, TailCallStep, BranchStep, FrameStep, Switch, BranchInterval, Signals, DataStep,
         Parametric, ShapeOf;
    var s' := s.(pc := i.next);
    assert Rn(f, s).(pc := f(i.next)) == Rn(f, s');
    if IsCall(i.op) {
      RnCallStep(f, i, s', signal);
    } else if IsTailCall(i.op) {
      RnTailCallStep(f, i, s', signal);
    } else if IsBranch(i.op) {
      RnBranchStep(f, i, s');
    } else if i.op == SWITCH {
      RnSwitch(f, s', i.targets);
    } else if i.op == BRANCHINTERVAL {
      TwoTargets(i);
      RnInterval(f, s', i.targets[0], i.targets[1]);
    } else if i.op == CHECK_SIGNALS {
      RnSignals(f, s', signal);
    } else if i.op != STOP {
      RnFrameStep(f, i, s', signal);
      RnDataStep(f, data, i, s');
    }
  }

  // ----- The simulation -----

  /** A program that can be run: its instructions are whole and known, labels stand for starts of
      instructions, and a GRAB comes right after a RESTART. */
  ghost predicate Runnable(prog: seq<byte>) {
    && Scanned(prog, 0) == Good
    && forall a {:trigger IsStart(prog, 0, a)} :: IsStart(prog, 0, a) && Instruction(prog, a) ==> LinksOk(prog, a)
  }

  ghost predicate Target(prog: seq<byte>, t: int) {
    0 <= t < |prog| && IsStart(prog, 0, t)
  }

  ghost predicate LinksOk(prog: seq<byte>, a: int)
    requires Instruction(prog, a)
  {
    && (forall i :: 0 <= i < |Labels(prog, a)| ==> Target(prog, Labels(prog, a)[i]))
    && (prog[a] == GRAB ==> Target(prog, a - 1) && prog[a - 1] == RESTART)
  }

  ghost function RealOf(prog: seq<byte>): Renaming {
    a => Real(prog, a)
  }

  lemma BeforeGrab(prog: seq<byte>, a: int)
    requires Runnable(prog) && IsStart(prog, 0, a) && Instruction(prog, a) && prog[a] == GRAB
    ensures a >= 1 && Instruction(prog, a - 1) && ByteSize(prog, a - 1) == 1 && WordSize(prog, a - 1) == 1
    ensures Target(prog, a - 1) && Real(prog, a - 1) == Real(prog, a) - 1
    ensures ByteSize(prog, a) == 2 && WordSize(prog, a) == 2
  {
    hide IsStart, WordsTo;
    StartIsInstruction(prog, a - 1);
    NextStart(prog, 0, a - 1);
  }

  lemma ByteFetchOk(prog: seq<byte>, a: int)
    requires Instruction(prog, a)
    ensures ByteFetch(prog, a).Some? && WellFormed(ByteFetch(prog, a).value)
    ensures WellFormed(RnInstr(RealOf(prog), ByteFetch(prog, a).value))
  {
  }

  /** At the real address of an instruction lies its translation. */
  lemma FetchAgrees(prog: seq<byte>, a: int)
    requires Runnable(prog) && IsStart(prog, 0, a) && a < |prog|
    ensures Instruction(prog, a)
    ensures RealFetch(Expanded(prog, 0), Real(prog, a)) == Some(RnInstr(RealOf(prog), ByteFetch(prog, a).value))
  {
    hide IsStart, WordsTo, Expanded, WordsOf, RealFetch;
    StartIsInstruction(prog, a);
    ExpandedAt(prog, 0, a);
    var code, k := Expanded(prog, 0), Real(prog, a);
    WordsLie(prog, a, code, k);
  }

  lemma NumsLie(prog: seq<byte>, a: int, code: seq<Word>, k: int)
    requires Instruction(prog, a) && 0 <= k && k + WordSize(prog, a) <= |code|
    requires code[k..k + WordSize(prog, a)] == WordsOf(prog, a)
    ensures code[k] == Op(prog[a]) && NumsAt(code, k + 1, |Nums(prog, a)|)
    ensures NumsFrom(code, k + 1, |Nums(prog, a)|) == Nums(prog, a)
  {
    hide Mapped, Nums, Labels, ShapeOf, LabelWords, ByteSize;
    var w, n := code[k..k + WordSize(prog, a)], |Nums(prog, a)|;
    assert code[k] == w[0];
    forall j | 0 <= j < n
      ensures code[k + 1 + j] == Num(Nums(prog, a)[j])
    {
      assert code[k + 1 + j] == w[1 + j] == NumWords(Nums(prog, a))[j];
    }
    forall j | k + 1 <= j < k + 1 + n
      ensures code[j].Num?
    {
      assert code[k + 1 + (j - k - 1)] == Num(Nums(prog, a)[j - k - 1]);
    }
  }

  lemma LabelsLie(prog: seq<byte>, a: int, code: seq<Word>, k: int)
    requires Instruction(prog, a) && 0 <= k && k + WordSize(prog, a) <= |code| && LinksOk(prog, a)
    requires code[k..k + WordSize(prog, a)] == WordsOf(prog, a)
    ensures AddrsAt(code, k + 1 + |Nums(prog, a)|, |Labels(prog, a)|)
    ensures AddrsFrom(code, k + 1 + |Nums(prog, a)|, |Labels(prog, a)|) == RnInts(RealOf(prog), Labels(prog, a))
  {
    hide Nums, Labels, ShapeOf, NumWords, IsStart, Real, ByteSize;
    var w, n := code[k..k + WordSize(prog, a)], |Nums(prog, a)|;
    var labels := Labels(prog, a);
    forall j | 0 <= j < |labels|
      ensures code[k + 1 + n + j] == Addr(Real(prog, labels[j]))
    {
      assert code[k + 1 + n + j] == w[1 + n + j] == LabelWords(prog, labels)[j];
    }
    forall j | k + 1 + n <= j < k + 1 + n + |labels|
      ensures code[j].Addr?
    {
      assert code[k + 1 + n + (j - k - 1 - n)] == Addr(Real(prog, labels[j - k - 1 - n]));
    }
  }

  /** The first operand of a table is its length. */
  lemma Count(prog: seq<byte>, a: int)
    requires Instruction(prog, a)
    ensures var nums := Nums(prog, a);
            |Labels(prog, a)| == LabelCount(ShapeOf(prog[a]).value, if nums == [] then 0 else nums[0])
    ensures prog[a] == GRAB ==> |Nums(prog, a)| == 1 && Labels(prog, a) == []
  {
  }

  lemma WordsLie(prog: seq<byte>, a: int, code: seq<Word>, k: int)
    requires Runnable(prog) && IsStart(prog, 0, a) && Instruction(prog, a) && k == Real(prog, a)
    requires k + WordSize(prog, a) <= |code| && code[k..k + WordSize(prog, a)] == WordsOf(prog, a)
    ensures RealFetch(code, k) == Some(RnInstr(RealOf(prog), ByteFetch(prog, a).value))
  {
    hide IsStart, WordsTo, Nums, Labels, ShapeOf, WordsOf, NumsAt, AddrsAt, NumsFrom, AddrsFrom;
    NumsLie(prog, a, code, k);
    LabelsLie(prog, a, code, k);
    Count(prog, a);
    NextStart(prog, 0, a);
    if prog[a] == GRAB {
      BeforeGrab(prog, a);
      assert RnInts(RealOf(prog), [a - 1]) == [Real(prog, a - 1)];
    }
  }

  // ----- Whole runs -----

  ghost function ByteStep(data: Data, prog: seq<byte>, s: State, signal: int): Outcome {
    if Instruction(prog, s.pc) then
      ByteFetchOk(prog, s.pc);
      Execute(data, ByteFetch(prog, s.pc).value, s, signal)
    else Wrong
  }

  ghost function RealStep(data: Data, code: seq<Word>, s: State, signal: int): Outcome {
    match RealFetch(code, s.pc)
    case None => Wrong
    case Some(i) =>
      RealFetchOk(code, s.pc);
      Execute(data, i, s, signal)
  }

  lemma RealFetchOk(code: seq<Word>, k: int)
    requires RealFetch(code, k).Some?
    ensures WellFormed(RealFetch(code, k).value)
  {
  }

  /** As many steps as there are elements of `signals`, or fewer if the run ends. */
  ghost function ByteRun(data: Data, prog: seq<byte>, s: State, signals: seq<int>): Outcome
    decreases |signals|
  {
    if signals == [] then Continue(s)
    else
      match ByteStep(data, prog, s, signals[0])
      case Continue(s') => ByteRun(data, prog, s', signals[1..])
      case o => o
  }

  ghost function RealRun(data: Data, code: seq<Word>, s: State, signals: seq<int>): Outcome
    decreases |signals|
  {
    if signals == [] then Continue(s)
    else
      match RealStep(data, code, s, signals[0])
      case Continue(s') => RealRun(data, code, s', signals[1..])
      case o => o
  }

  /** An address where the program counter may be. */
  ghost predicate CanBeAt(prog: seq<byte>, a: int) {
    0 <= a <= |prog| && IsStart(prog, 0, a)
  }

  /** All code addresses in a state are good. */
  ghost predicate StateOk(prog: seq<byte>, s: State) {
    && CanBeAt(prog, s.pc) && CanBeAt(prog, s.handler) && ValOk(prog, s.accu) && ValOk(prog, s.env)
    && ValsOk(prog, s.stack) && ValsOk(prog, s.globals)
    && forall a :: a in s.heap ==> ValsOk(prog, s.heap[a].fields)
  }

  ghost predicate ValOk(prog: seq<byte>, v: Val) {
    v.Code? ==> CanBeAt(prog, v.pc)
  }

  ghost predicate ValsOk(prog: seq<byte>, vs: seq<Val>) {
    forall i :: 0 <= i < |vs| ==> ValOk(prog, vs[i])
  }

  /** Leaves exactly the good addresses as they are. */
  ghost function OnlyGood(prog: seq<byte>): Renaming {
    a => if CanBeAt(prog, a) then a else 0
  }

  lemma ValKept(prog: seq<byte>, v: Val)
    ensures ValOk(prog, v) <==> RnVal(OnlyGood(prog), v) == v
  {
    hide IsStart;
    AtFirst(prog);
  }

  lemma ValsKept(prog: seq<byte>, vs: seq<Val>)
    ensures ValsOk(prog, vs) <==> RnVals(OnlyGood(prog), vs) == vs
  {
    hide ValOk, RnVal;
    forall i | 0 <= i < |vs|
      ensures ValOk(prog, vs[i]) <==> RnVal(OnlyGood(prog), vs[i]) == vs[i]
    {
      ValKept(prog, vs[i]);
    }
    if RnVals(OnlyGood(prog), vs) == vs {
      assert forall i :: 0 <= i < |vs| ==> RnVals(OnlyGood(prog), vs)[i] == vs[i];
    }
  }

  lemma HeapKept(prog: seq<byte>, heap: map<int, Block>)
    ensures (forall a :: a in heap ==> ValsOk(prog, heap[a].fields)) <==> RnHeap(OnlyGood(prog), heap) == heap
  {
    hide ValsOk, RnVals;
    forall a | a in heap
      ensures ValsOk(prog, heap[a].fields) <==> RnVals(OnlyGood(prog), heap[a].fields) == heap[a].fields
    {
      ValsKept(prog, heap[a].fields);
    }
    var h := RnHeap(OnlyGood(prog), heap);
    if h == heap {
      assert forall a :: a in heap ==> h[a] == heap[a];
    } else if forall a :: a in heap ==> ValsOk(prog, heap[a].fields) {
      assert forall a :: a in heap ==> h[a] == heap[a];
    }
  }

  lemma StateKept(prog: seq<byte>, s: State)
    ensures StateOk(prog, s) <==> Rn(OnlyGood(prog), s) == s
  {
    hide ValsOk, RnVals, RnHeap, ValOk, RnVal;
    ValKept(prog, s.accu);
    ValKept(prog, s.env);
    ValKept(prog, Code(s.pc));
    ValKept(prog, Code(s.handler));
    ValsKept(prog, s.stack);
    ValsKept(prog, s.globals);
    HeapKept(prog, s.heap);
    CodeKept(prog, s.pc);
    CodeKept(prog, s.handler);
  }

  lemma CodeKept(prog: seq<byte>, a: int)
    ensures CanBeAt(prog, a) <==> OnlyGood(prog)(a) == a
  {
    hide IsStart;
    AtFirst(prog);
  }

  /** The instructions of a program only lead to good addresses. */
  lemma InstrKept(prog: seq<byte>, a: int)
    requires Runnable(prog) && IsStart(prog, 0, a) && Instruction(prog, a)
    ensures RnInstr(OnlyGood(prog), ByteFetch(prog, a).value) == ByteFetch(prog, a).value
  {
    hide IsStart, Nums, Labels, ShapeOf, OnlyGood;
    var i := ByteFetch(prog, a).value;
    NextStart(prog, 0, a);
    StartInside(prog, 0, i.next);
    CodeKept(prog, i.next);
    if prog[a] == GRAB {
      BeforeGrab(prog, a);
    }
    forall k | 0 <= k < |i.targets|
      ensures OnlyGood(prog)(i.targets[k]) == i.targets[k]
    {
      CodeKept(prog, i.targets[k]);
    }
  }

  /** One step of the byte machine is one step of the threaded machine, from a good state to a
      good state. */
  lemma StepSimulated(data: Data, prog: seq<byte>, s: State, signal: int)
    requires Runnable(prog) && Parametric(data) && StateOk(prog, s)
    ensures RealStep(data, Expanded(prog, 0), Rn(RealOf(prog), s), signal) ==
            RnOutcome(RealOf(prog), ByteStep(data, prog, s, signal))
    ensures var o := ByteStep(data, prog, s, signal); o.Continue? ==> StateOk(prog, o.s)
  {
    hide Runnable, Parametric, Execute, Expanded, RealFetch, ByteFetch, WellFormed, OnlyGood, Instruction;
    if s.pc < |prog| {
      FetchAgrees(prog, s.pc);
      ByteFetchOk(prog, s.pc);
      var i := ByteFetch(prog, s.pc).value;
      ExecuteRenamed(RealOf(prog), data, i, s, signal);
      InstrKept(prog, s.pc);
      StateKept(prog, s);
      ExecuteRenamed(OnlyGood(prog), data, i, s, signal);
      var o := Execute(data, i, s, signal);
      if o.Continue? {
        StateKept(prog, o.s);
      }
    } else {
      AtEnd(prog);
    }
  }

  lemma AtEnd(prog: seq<byte>)
    requires Runnable(prog)
    ensures !Instruction(prog, |prog|) && RealFetch(Expanded(prog, 0), Real(prog, |prog|)).None?
  {
    hide IsStart, Expanded, WordsTo;
    ExpandedLength(prog, 0);
  }

  /** Every run of the bytecode is a run of the threaded code, up to the names of addresses. */
  lemma {:induction false} Simulation(data: Data, prog: seq<byte>, s: State, signals: seq<int>)
    requires Runnable(prog) && Parametric(data) && StateOk(prog, s)
    ensures RealRun(data, Expanded(prog, 0), Rn(RealOf(prog), s), signals) ==
            RnOutcome(RealOf(prog), ByteRun(data, prog, s, signals))
    ensures var o := ByteRun(data, prog, s, signals); o.Continue? ==> StateOk(prog, o.s)
    decreases |signals|
  {
    hide Runnable, Parametric, StateOk, RealStep, ByteStep, Expanded, Rn, RealOf;
    if signals != [] {
      StepSimulated(data, prog, s, signals[0]);
      match ByteStep(data, prog, s, signals[0]) {
        case Continue(s') => Simulation(data, prog, s', signals[1..]);
        case _ =>
      }
    }
  }

  /** Different addresses have different names. */
  lemma NamesDiffer(prog: seq<byte>, a: int, b: int)
    requires Runnable(prog) && CanBeAt(prog, a) && CanBeAt(prog, b) && a < b
    ensures Real(prog, a) < Real(prog, b)
  {
    hide IsStart, WordsTo, WordSize, ByteSize;
    StartIsInstruction(prog, a);
    NextStart(prog, 0, a);
    WordsMonotone(prog, 0, a + ByteSize(prog, a), b);
  }

  /** Such programs can be expanded. */
  lemma Expandable(prog: seq<byte>)
    requires Runnable(prog)
    ensures Scanned(prog, 0) == Good && AllLabelsInside(prog)
  {
    hide IsStart, Scanned;
    forall a {:trigger Instruction(prog, a)} | IsStart(prog, 0, a) && Instruction(prog, a)
      ensures LabelsInside(prog, a)
    {
      assert LinksOk(prog, a);
    }
  }
}
