/** The stack machine that runs a chunk. */
module VmMachine {
  import opened Basics
  import opened ScriptSyntax
  import opened Runtime
  import opened VmCode

  /** A run in progress, or how it ended; the last `n` values on the stack are the ones returned. */
  datatype Vm =
    | Running(pc: nat, stack: seq<Value>, locals: seq<Value>, w: World)
    | Finished(stack: seq<Value>, n: nat, w: World)
    | Crashed(w: World)

  function Room(stack: seq<Value>): nat {
    if |stack| < MAX_STACK then MAX_STACK - |stack| else 0
  }

  /** The last but `i` cell of the operand stack. */
  function Top(stack: seq<Value>, i: nat): Value
    requires i < |stack|
  {
    stack[|stack| - 1 - i]
  }

  function Popped(stack: seq<Value>, n: nat): seq<Value>
    requires n <= |stack|
  {
    stack[..|stack| - n]
  }

  function Pushed(pc: nat, stack: seq<Value>, locals: seq<Value>, w: World, v: Value): Vm {
    if Room(stack) == 0 then Crashed(w) else Running(pc + 1, stack + [v], locals, w)
  }

  function Target(pc: nat, j: Jump): Option<nat> {
    match j
    case Fwd(off) => Some(pc + off)
    case Bwd(off) => if off <= pc then Some(pc - off) else None
  }

  /** Jumps and pops the operands that `stack` lacks. */
  function Jumped(pc: nat, j: Jump, stack: seq<Value>, locals: seq<Value>, w: World): Vm {
    match Target(pc, j)
    case Some(q) => Running(q, stack, locals, w)
    case None => Crashed(w)
  }

  /** A constant that is a name. */
  function NameAt(k: seq<Value>, i: nat): Option<Name> {
    if i < |k| && k[i].Str? then Some(k[i].z) else None
  }

  /** Replaces the `n` cells on top by one value. */
  function Replaced(pc: nat, stack: seq<Value>, n: nat, locals: seq<Value>, r: Outcome<Value>): Vm
    requires n <= |stack|
  {
    match r
    case Panics(w) => Crashed(w)
    case Gives(v, w) => Pushed(pc, Popped(stack, n), locals, w, v)
  }

  function Called(pc: nat, below: seq<Value>, keep: nat, locals: seq<Value>, r: Outcome<seq<Value>>): Vm {
    match r
    case Panics(w) => Crashed(w)
    case Gives(vs, w) =>
      if keep <= |vs| then Running(pc + 1, below + vs[..keep], locals, w)
      else if keep > Room(below) then Crashed(w)
      else Running(pc + 1, below + vs + seq(keep - |vs|, i => Nil), locals, w)
  }

  function Step(rt: Runtime, c: Chunk, s: Vm): Vm {
    if !s.Running? then s
    else if s.pc >= |c.inst| then Finished(s.stack, 0, s.w)
    else StepAt(rt, c, s.pc, s.stack, s.locals, s.w, c.inst[s.pc])
  }

  function StepAt(rt: Runtime, c: Chunk, pc: nat, stack: seq<Value>, locals: seq<Value>, w: World, inst: Inst): Vm {
    match inst
    case IPanic => Crashed(w)
    case IStoreLocal(i) =>
      if stack == [] || i >= |locals| then Crashed(w)
      else Running(pc + 1, Popped(stack, 1), locals[i := Top(stack, 0)], w)
    case IStoreGlobal(i) => (
      match NameAt(c.kval, i)
      case None => Crashed(w)
      case Some(x) =>
        if stack == [] then Crashed(w)
        else Running(pc + 1, Popped(stack, 1), locals, SetGlobal(w, x, Top(stack, 0))))
    case IRet(n) => if n <= |stack| then Finished(stack, n, w) else Crashed(w)
    case IJne(j) =>
      if stack == [] then Crashed(w)
      else if Truth(Top(stack, 0)) then Running(pc + 1, Popped(stack, 1), locals, w)
      else Jumped(pc, j, Popped(stack, 1), locals, w)
    case IJnt(j) =>
      if stack == [] then Crashed(w)
      else if Truth(Top(stack, 0)) then Running(pc + 1, Popped(stack, 1), locals, w)
      else Jumped(pc, j, stack, locals, w)
    case IJnn(j) =>
      if stack == [] then Crashed(w)
      else if !Truth(Top(stack, 0)) then Running(pc + 1, Popped(stack, 1), locals, w)
      else Jumped(pc, j, stack, locals, w)
    case IJmp(j) => Jumped(pc, j, stack, locals, w)
    case IForeach(j) =>
      if stack == [] then Crashed(w)
      else if Top(stack, 0) == Nil then Jumped(pc, j, Popped(stack, 1), locals, w)
      else Running(pc + 1, stack, locals, w)
    case IPushConst(i) => if i < |c.kval| then Pushed(pc, stack, locals, w, c.kval[i]) else Crashed(w)
    case IPushLocal(i) => if i < |locals| then Pushed(pc, stack, locals, w, locals[i]) else Crashed(w)
    case IPushGlobal(i) => (
      match NameAt(c.kval, i)
      case None => Crashed(w)
      case Some(x) => Pushed(pc, stack, locals, w, Global(w, x)))
    case IPushBool(b) => Pushed(pc, stack, locals, w, Bool(b))
    case IPushNil => Pushed(pc, stack, locals, w, Nil)
    case IOperate(op) =>
      if |stack| < 2 then Crashed(w)
      else Replaced(pc, stack, 2, locals, Operate(rt, w, op, Top(stack, 1), Top(stack, 0)))
    case IApply(op) =>
      if stack == [] then Crashed(w) else Replaced(pc, stack, 1, locals, Apply(rt, w, op, Top(stack, 0)))
    case IGetStack =>
      if |stack| < 2 then Crashed(w)
      else Replaced(pc, stack, 2, locals, rt.get(w, Top(stack, 1), Top(stack, 0)))
    case IGetConst(i) =>
      if stack == [] || i >= |c.kval| then Crashed(w)
      else Replaced(pc, stack, 1, locals, rt.get(w, Top(stack, 0), c.kval[i]))
    case ISetStack =>
      if |stack| < 3 then Crashed(w)
      else Changed(pc, Popped(stack, 3), locals, rt.put(w, Top(stack, 2), Top(stack, 1), Top(stack, 0)))
    case ISetConst(i) =>
      if |stack| < 2 || i >= |c.kval| then Crashed(w)
      else Changed(pc, Popped(stack, 2), locals, rt.put(w, Top(stack, 1), c.kval[i], Top(stack, 0)))
    case ICall(keep, argc) =>
      if |stack| <= argc then Crashed(w)
      else
        var below := Popped(stack, argc + 1);
        Called(pc, below, keep, locals, rt.call(w, Room(below), Top(stack, argc), stack[|stack| - argc..]))
    case ISelfCall(keep, argc, i) => (
      if |stack| <= argc || i >= |c.kval| then Crashed(w)
      else
        var below := Popped(stack, argc + 1);
        match rt.get(w, Top(stack, argc), c.kval[i])
        case Panics(w1) => Crashed(w1)
        case Gives(f, w1) =>
          Called(pc, below, keep, locals, rt.call(w1, Room(below), f, stack[|stack| - argc - 1..])))
    case INewArray(n) =>
      if |stack| < n then Crashed(w)
      else Replaced(pc, stack, n, locals, rt.newArray(w, stack[|stack| - n..]))
  }

  function Changed(pc: nat, stack: seq<Value>, locals: seq<Value>, r: Outcome<()>): Vm {
    match r
    case Panics(w) => Crashed(w)
    case Gives(_, w) => Running(pc + 1, stack, locals, w)
  }

  /** `n` steps. */
  function Steps(rt: Runtime, c: Chunk, s: Vm, n: nat): Vm
    decreases n
  {
    if n == 0 then s else Steps(rt, c, Step(rt, c, s), n - 1)
  }

  lemma {:induction false} StepsThen(rt: Runtime, c: Chunk, s: Vm, n: nat, m: nat)
    ensures Steps(rt, c, s, n + m) == Steps(rt, c, Steps(rt, c, s, n), m)
    decreases n
  {
    if n > 0 {
      StepsThen(rt, c, Step(rt, c, s), n - 1, m);
    }
  }

  /** Nothing moves after the end. */
  lemma {:induction false} StepsEnd(rt: Runtime, c: Chunk, s: Vm, n: nat)
    requires !s.Running?
    ensures Steps(rt, c, s, n) == s
    decreases n
  {
    if n > 0 { StepsEnd(rt, c, s, n - 1); }
  }

  /** The instructions of `code` stand at `at`. */
  ghost predicate At(c: Chunk, at: nat, code: Code) {
    at + |code| <= |c.inst| && c.inst[at..at + |code|] == code
  }

  lemma {:induction false} AtParts(c: Chunk, at: nat, x: Code, y: Code)
    requires At(c, at, x + y)
    ensures At(c, at, x) && At(c, at + |x|, y)
  {
    Parts(x, y);
    assert c.inst[at..at + |x|] == c.inst[at..at + |x + y|][..|x|];
    assert c.inst[at + |x|..at + |x + y|] == c.inst[at..at + |x + y|][|x|..];
  }

  lemma {:induction false} AtOne(c: Chunk, at: nat, i: Inst)
    requires At(c, at, [i])
    ensures at < |c.inst| && c.inst[at] == i
  {
    assert c.inst[at..at + 1][0] == i;
  }
}
