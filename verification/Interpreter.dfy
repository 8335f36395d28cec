/** The control instructions of the interpreter (src/runtime/interp.c), as they are for bytecode
    and for threaded code alike: the two machines differ only in how they fetch an instruction. */
module Interpreter {
  import opened Options
  import opened Bytecode

  const CLOSURE_TAG := 249

  /** A word on the stack or in a block: an integer, a pointer to a block, an atom, the address
      of code, or a link to a trap frame, which is the depth of the stack there. */
  datatype Val = Imm(n: int) | Ptr(a: int) | Atom(tag: int) | Code(pc: int) | Depth(d: int)

  datatype Block = Block(tag: int, fields: seq<Val>)

  /** The registers, the stack (its top first), the blocks and the global variables. `place` is
      where the next block goes, `trap` the depth of the last trap frame, `base` the depth at
      which the interpreter was called, and `handler` the address of the signal handler. */
  datatype State = State(pc: int, stack: seq<Val>, accu: Val, env: Val, extra: int, trap: int, base: int,
                         heap: map<int, Block>, place: int, globals: seq<Val>, handler: int)

  /** An instruction with its operands. `next` is the address behind it; the second target of a
      GRAB is three slots before that. */
  datatype Instr = Instr(op: int, nums: seq<int>, targets: seq<int>, next: int)

  datatype Outcome = Continue(s: State) | Escape(exn: Val, s: State) | Stop(v: Val, s: State) | Wrong

  /** What an instruction that only works on data does: it goes on, or raises an exception. */
  datatype Effect = Done(s: State) | Raise(s: State) | Undefined

  type Data = (int, seq<int>, State) -> Effect

  ghost function FieldOf(s: State, v: Val, i: int): Option<Val> {
    if v.Ptr? && v.a in s.heap && 0 <= i < |s.heap[v.a].fields| then Some(s.heap[v.a].fields[i]) else None
  }

  ghost function TagOf(s: State, v: Val): Option<int> {
    match v
    case Atom(tag) => Some(tag)
    case Ptr(a) => if a in s.heap then Some(s.heap[a].tag) else None
    case _ => None
  }

  ghost function Pop(s: State, n: int): State
    requires 0 <= n <= |s.stack|
  {
    s.(stack := s.stack[n..])
  }

  ghost function Push(s: State, vs: seq<Val>): State {
    s.(stack := vs + s.stack)
  }

  /** A pending signal pushes a return frame and passes control to the handler. */
  ghost function Signals(s: State, signal: int): State {
    if signal == 0 then s
    else Push(s, [Imm(signal), Code(s.pc), s.env, Imm(s.extra)]).(env := Atom(0), pc := s.handler, extra := 0)
  }

  /** Control passes to the closure in the accumulator. */
  ghost function Enter(s: State, signal: int): Outcome {
    match FieldOf(s, s.accu, 0)
    case Some(Code(pc)) => Continue(Signals(s.(pc := pc, env := s.accu), signal))
    case _ => Wrong
  }

  /** A call with `n` arguments on the stack: a return frame goes below them. */
  ghost function Call(s: State, n: int, signal: int): Outcome {
    if 0 <= n <= |s.stack| then
      Enter(s.(stack := s.stack[..n] + [Code(s.pc), s.env, Imm(s.extra)] + s.stack[n..], extra := n - 1), signal)
    else Wrong
  }

  /** A call in tail position: the `n` arguments move to the end of a frame of `slots` words. */
  ghost function TailCall(s: State, n: int, slots: int, signal: int): Outcome {
    if 0 <= n <= slots <= |s.stack| then
      Enter(s.(stack := s.stack[..n] + s.stack[slots..], extra := s.extra + n - 1), signal)
    else Wrong
  }

  ghost function Load(s: State, v: Option<Val>): Option<State> {
    if v.Some? then Some(s.(accu := v.value)) else None
  }

  ghost function Global(s: State, k: int): Option<Val> {
    if 0 <= k < |s.globals| then Some(s.globals[k]) else None
  }

  /** The frame on top is left. */
  ghost function LeaveFrame(s: State): Outcome {
    if |s.stack| >= 3 && s.stack[0].Code? && s.stack[2].Imm? then
      Continue(s.(pc := s.stack[0].pc, env := s.stack[1], extra := s.stack[2].n, stack := s.stack[3..]))
    else Wrong
  }

  ghost function Return(s: State, n: int, signal: int): Outcome {
    if !(0 <= n <= |s.stack|) then Wrong
    else if s.extra > 0 then Enter(Pop(s, n).(extra := s.extra - 1), 0)
    else
      match LeaveFrame(Pop(s, n))
      case Continue(s') => Continue(Signals(s', signal))
      case _ => Wrong
  }

  /** The arguments of a partial application come back on the stack. */
  ghost function Restart(s: State): Outcome {
    if s.env.Ptr? && s.env.a in s.heap && |s.heap[s.env.a].fields| >= 2 then
      var fields := s.heap[s.env.a].fields;
      Continue(Push(s, fields[2..]).(env := fields[1], extra := s.extra + |fields| - 2))
    else Wrong
  }

  ghost function Alloc(s: State, tag: int, fields: seq<Val>): State {
    s.(heap := s.heap[s.place := Block(tag, fields)], place := s.place + 1, accu := Ptr(s.place))
  }

  /** With too few arguments they go to a closure that starts at `restart`. */
  ghost function Grab(s: State, required: int, restart: int): Outcome {
    if s.extra >= required then Continue(s.(extra := s.extra - required))
    else if 0 <= 1 + s.extra <= |s.stack| then
      LeaveFrame(Pop(Alloc(s, CLOSURE_TAG, [Code(restart), s.env] + s.stack[..1 + s.extra]), 1 + s.extra))
    else Wrong
  }

  ghost function Closure(s: State, nvars: int, start: int): Outcome {
    var s' := if nvars > 0 then Push(s, [s.accu]) else s;
    if 0 <= nvars <= |s'.stack| then
      Continue(Pop(Alloc(s', CLOSURE_TAG, [Code(start)] + s'.stack[..nvars]), nvars))
    else Wrong
  }

  /** Field 1 of a recursive closure is the closure itself. */
  ghost function Closrec(s: State, nvars: int, start: int): Outcome {
    var s' := if nvars > 0 then Push(s, [s.accu]) else s;
    if 0 <= nvars <= |s'.stack| then
      Continue(Pop(Alloc(s', CLOSURE_TAG, [Code(start), Ptr(s.place)] + s'.stack[..nvars]), nvars))
    else Wrong
  }

  ghost function PushTrap(s: State, handler: int): Outcome {
    var s' := Push(s, [Code(handler), Depth(s.trap), s.env, Imm(s.extra)]);
    Continue(s'.(trap := |s'.stack|))
  }

  ghost function PopTrap(s: State): Outcome {
    if |s.stack| >= 4 && s.stack[1].Depth? then Continue(Pop(s, 4).(trap := s.stack[1].d)) else Wrong
  }

  /** Control passes to the last trap frame, or out of the interpreter. */
  ghost function RaiseExn(s: State): Outcome {
    if s.trap <= s.base then Escape(s.accu, s)
    else if 0 <= s.trap <= |s.stack| then
      var s' := Pop(s, |s.stack| - s.trap);
      if |s'.stack| >= 4 && s'.stack[0].Code? && s'.stack[1].Depth? && s'.stack[3].Imm? then
        Continue(Pop(s', 4).(pc := s'.stack[0].pc, trap := s'.stack[1].d, env := s'.stack[2], extra := s'.stack[3].n))
      else Wrong
    else Wrong
  }

  /** Equality is on integers, pointers and atoms, order on integers. */
  ghost function Test(op: int, x: Val, y: Val): Option<bool> {
    if op == BRANCHIFEQ || op == BRANCHIFNEQ then
      if x.Code? || y.Code? then None else Some((x == y) == (op == BRANCHIFEQ))
    else if x.Imm? && y.Imm? then
      Some(if op == BRANCHIFLT then x.n < y.n else if op == BRANCHIFGT then x.n > y.n
           else if op == BRANCHIFLE then x.n <= y.n else x.n >= y.n)
    else None
  }

  ghost function Branch(s: State, c: Option<bool>, target: int): Outcome {
    match c
    case None => Wrong
    case Some(b) => Continue(if b then s.(pc := target) else s)
  }

  ghost function TagIs(s: State, v: Val, tag: int): Option<bool> {
    match TagOf(s, v)
    case None => None
    case Some(t) => Some(t == tag)
  }

  ghost function Not(c: Option<bool>): Option<bool> {
    match c
    case None => None
    case Some(b) => Some(!b)
  }

  /** Below the interval to one target, above it to the other, else the index in it. */
  ghost function BranchInterval(s: State, below: int, above: int): Outcome {
    if |s.stack| >= 2 && s.accu.Imm? && s.stack[0].Imm? && s.stack[1].Imm? then
      var s' := Pop(s, 2).(accu := s.stack[1]);
      if s.stack[1].n < s.stack[0].n then Continue(s'.(pc := below))
      else if s.stack[1].n > s.accu.n then Continue(s'.(pc := above))
      else Continue(s'.(accu := Imm(s.stack[1].n - s.stack[0].n)))
    else Wrong
  }

  /** Operands are as many as the shape of the instruction says. */
  ghost predicate WellFormed(i: Instr) {
    && ShapeOf(i.op).Some?
    && |i.nums| == NumCount(ShapeOf(i.op).value)
    && |i.targets| == (if i.op == GRAB then 1
                       else LabelCount(ShapeOf(i.op).value, if i.nums == [] then 0 else i.nums[0]))
  }

  ghost predicate IsCall(op: int) {
    APPLY1 <= op <= APPLY4 || PUSH_ENV1_APPLY1 <= op <= PUSH_ENV1_APPLY4
    || PUSH_GETGLOBAL_APPLY1 <= op <= PUSH_GETGLOBAL_APPLY4
  }

  ghost predicate IsTailCall(op: int) {
    APPTERM1 <= op <= APPTERM4 || PUSH_ENV1_APPTERM1 <= op <= PUSH_ENV1_APPTERM4
    || PUSH_GETGLOBAL_APPTERM1 <= op <= PUSH_GETGLOBAL_APPTERM4
  }

  ghost predicate IsBranch(op: int) {
    op == BRANCH || op == BRANCHIF || op == BRANCHIFNOT || op == POPBRANCHIFNOT || op == BRANCHIFNEQTAG
    || BRANCHIFEQ <= op <= BRANCHIFGE
  }

  /** The accumulator is pushed and gets the function to call. */
  ghost function PushFunction(s: State, f: Option<Val>): Option<State> {
    Load(Push(s, [s.accu]), f)
  }

  ghost function CallStep(i: Instr, s: State, signal: int): Outcome
    requires WellFormed(i) && IsCall(i.op)
  {
    if APPLY1 <= i.op <= APPLY4 then Call(s, i.op - APPLY1 + 1, signal)
    else if PUSH_ENV1_APPLY1 <= i.op <= PUSH_ENV1_APPLY4 then
      match PushFunction(s, FieldOf(s, s.env, 1))
      case None => Wrong
      case Some(s') => Call(s', i.op - PUSH_ENV1_APPLY1 + 1, signal)
    else
      match PushFunction(s, Global(s, i.nums[0]))
      case None => Wrong
      case Some(s') => Call(s', i.op - PUSH_GETGLOBAL_APPLY1 + 1, signal)
  }

  ghost function TailCallStep(i: Instr, s: State, signal: int): Outcome
    requires WellFormed(i) && IsTailCall(i.op)
  {
    if APPTERM1 <= i.op <= APPTERM4 then TailCall(s, i.op - APPTERM1 + 1, i.nums[0], signal)
    else if PUSH_ENV1_APPTERM1 <= i.op <= PUSH_ENV1_APPTERM4 then
      match PushFunction(s, FieldOf(s, s.env, 1))
      case None => Wrong
      case Some(s') => TailCall(s', i.op - PUSH_ENV1_APPTERM1 + 1, i.nums[0], signal)
    else
      match PushFunction(s, Global(s, i.nums[1]))
      case None => Wrong
      case Some(s') => TailCall(s', i.op - PUSH_GETGLOBAL_APPTERM1 + 1, i.nums[0], signal)
  }

  ghost function BranchStep(i: Instr, s: State): Outcome
    requires WellFormed(i) && IsBranch(i.op)
  {
    if i.op == BRANCH then Branch(s, Some(true), i.targets[0])
    else if i.op == BRANCHIF then Branch(s, Not(TagIs(s, s.accu, 0)), i.targets[0])
    else if i.op == BRANCHIFNOT then Branch(s, TagIs(s, s.accu, 0), i.targets[0])
    else if i.op == BRANCHIFNEQTAG then Branch(s, Not(TagIs(s, s.accu, i.nums[0])), i.targets[0])
    else if s.stack == [] then Wrong
    else if i.op == POPBRANCHIFNOT then
      Branch(Pop(s, 1).(accu := s.stack[0]), TagIs(s, s.accu, 0), i.targets[0])
    else Branch(Pop(s, 1), Test(i.op, s.stack[0], s.accu), i.targets[0])
  }

  /** Closures, returns and traps. */
  ghost function FrameStep(i: Instr, s: State, signal: int): Option<Outcome>
    requires WellFormed(i)
  {
    if i.op == PUSH_RETADDR then
      Some(Continue(Push(s, [Code(i.targets[0]), s.env, Imm(s.extra)])))
    else if i.op == APPLY then Some(Enter(s.(extra := i.nums[0] - 1), signal))
    else if i.op == APPTERM then Some(TailCall(s, i.nums[0], i.nums[1], signal))
    else if i.op == RETURN1 then Some(Return(s, 1, signal))
    else if i.op == RETURN2 then Some(Return(s, 2, signal))
    else if i.op == RETURN then Some(Return(s, i.nums[0], signal))
    else if i.op == RESTART then Some(Restart(s))
    else if i.op == GRAB then Some(Grab(s, i.nums[0], i.targets[0]))
    else if i.op == CLOSURE then Some(Closure(s, i.nums[0], i.targets[0]))
    else if i.op == CLOSREC then Some(Closrec(s, i.nums[0], i.targets[0]))
    else if i.op == PUSHTRAP then Some(PushTrap(s, i.targets[0]))
    else if i.op == POPTRAP then Some(PopTrap(s))
    else if i.op == RAISE then Some(RaiseExn(s))
    else None
  }

  ghost function Switch(s: State, targets: seq<int>): Outcome {
    if s.accu.Imm? && 0 <= s.accu.n < |targets| then Continue(s.(pc := targets[s.accu.n])) else Wrong
  }

  ghost function DataStep(data: Data, i: Instr, s: State): Outcome {
    match data(i.op, i.nums, s)
    case Done(s') => Continue(s')
    case Raise(s') => RaiseExn(s')
    case Undefined => Wrong
  }

  /** One instruction; `signal` is the number of a pending signal or 0. */
  ghost function Execute(data: Data, i: Instr, s0: State, signal: int): Outcome
    requires WellFormed(i)
  {
    var s := s0.(pc := i.next);
    if IsCall(i.op) then CallStep(i, s, signal)
    else if IsTailCall(i.op) then TailCallStep(i, s, signal)
    else if IsBranch(i.op) then BranchStep(i, s)
    else if i.op == SWITCH then Switch(s, i.targets)
    else if i.op == BRANCHINTERVAL then BranchInterval(s, i.targets[0], i.targets[1])
    else if i.op == CHECK_SIGNALS then Continue(Signals(s, signal))
    else if i.op == STOP then Stop(s.accu, s)
    else if FrameStep(i, s, signal).Some? then FrameStep(i, s, signal).value
    else DataStep(data, i, s)
  }
}
