/** The code of an expression computes its value. */
module VmExprs {
  import opened Basics
  import opened ScriptSyntax
  import opened Runtime
  import opened ScriptMeaning
  import opened VmCode
  import opened VmMachine

  /** The operand fields of the instructions are wide enough for a chunk this size. */
  ghost predicate Fits(c: Chunk) {
    |c.inst| < 0x1_0000 && |c.kval| <= 0x1_0000 && |c.locals| <= 0x1_0000 && Distinct(c.locals)
  }

  /** The counts of arguments and elements fit their fields, and so do the constants that name methods. */
  ghost predicate ExprFits(e: Expr, k: seq<Value>, locals: seq<Name>)
    decreases e
  {
    match e
    case Lit(_) => true
    case Sym(_) => true
    case Unary(_, a) => ExprFits(a, k, locals)
    case Binary(_, l, r) => ExprFits(l, k, locals) && ExprFits(r, ExprK(l, k, locals), locals)
    case Field(obj, _) => ExprFits(obj, k, locals)
    case Index(obj, key) => ExprFits(obj, k, locals) && ExprFits(key, ExprK(obj, k, locals), locals)
    case Call(f, args) =>
      ExprFits(f, k, locals) && ExprsFit(args, ExprK(f, k, locals), locals) && Count(args) < 0x100
    case Method(self, _, args) =>
      ExprFits(self, k, locals) && ExprsFit(args, ExprK(self, k, locals), locals) && Count(args) < 0x100 &&
      |ExprsK(args, ExprK(self, k, locals), locals)| < 0x1000
    case Array(es) => ExprsFit(es, k, locals) && Count(es) < 0x1_0000
  }

  ghost predicate ExprsFit(es: Exprs, k: seq<Value>, locals: seq<Name>)
    decreases es
  {
    match es
    case Empty => true
    case More(e, tail) => ExprFits(e, k, locals) && ExprsFit(tail, ExprK(e, k, locals), locals)
  }

  /** The cells of the locals of a chunk. */
  function Cells(loc: Locals, locals: seq<Name>): seq<Value> {
    seq(|locals|, i requires 0 <= i < |locals| => Local(loc, locals[i]))
  }

  /** A place in the text of a function that is being run: the names declared before it, and what they hold. */
  datatype Frame = Frame(rt: Runtime, c: Chunk, locals: seq<Name>, loc: Locals)

  ghost predicate FrameOk(f: Frame) {
    Fits(f.c) && f.locals <= f.c.locals
  }

  /** The machine at `pc`. */
  function Stands(f: Frame, pc: nat, stack: seq<Value>, w: World): Vm {
    Running(pc, stack, Cells(f.loc, f.c.locals), w)
  }

  /** The machine after `n` steps from there. */
  function After(f: Frame, pc: nat, stack: seq<Value>, w: World, n: nat): Vm {
    Steps(f.rt, f.c, Stands(f, pc, stack, w), n)
  }

  /** The machine after an expression. */
  function Valued(f: Frame, pc: nat, stack: seq<Value>, r: Outcome<Value>): Vm {
    match r
    case Gives(v, w) => Stands(f, pc, stack + [v], w)
    case Panics(w) => Crashed(w)
  }

  function AllValued(f: Frame, pc: nat, stack: seq<Value>, r: Outcome<seq<Value>>): Vm {
    match r
    case Gives(vs, w) => Stands(f, pc, stack + vs, w)
    case Panics(w) => Crashed(w)
  }

  function ValueOf(f: Frame, w: World, stack: seq<Value>, e: Expr): (r: Outcome<Value>)
    ensures r.Gives? ==> |stack| < MAX_STACK
  {
    Eval(f.rt, f.locals, f.loc, w, Room(stack), e)
  }

  function ValuesOf(f: Frame, w: World, stack: seq<Value>, es: Exprs): (r: Outcome<seq<Value>>)
    ensures r.Gives? ==> |r.v| == Count(es) <= Room(stack)
  {
    EvalAll(f.rt, f.locals, f.loc, w, Room(stack), es)
  }

  /** The code of an expression stands at `pc`, and the constants of the chunk extend those it was written with. */
  ghost predicate Placed(f: Frame, pc: nat, e: Expr, k: seq<Value>) {
    At(f.c, pc, ExprCode(e, k, f.locals)) && ExprK(e, k, f.locals) <= f.c.kval && ExprFits(e, k, f.locals)
  }

  ghost predicate AllPlaced(f: Frame, pc: nat, es: Exprs, k: seq<Value>) {
    At(f.c, pc, ExprsCode(es, k, f.locals)) && ExprsK(es, k, f.locals) <= f.c.kval && ExprsFit(es, k, f.locals)
  }

  // ------------------------------------------------------------------
  // Tables only grow
  // ------------------------------------------------------------------

  lemma {:induction false} ExprKGrows(e: Expr, k: seq<Value>, locals: seq<Name>)
    ensures k <= ExprK(e, k, locals)
    decreases e
  {
    match e {
      case Lit(_) =>
      case Sym(_) =>
      case Unary(_, a) => ExprKGrows(a, k, locals);
      case Binary(_, l, r) =>
        ExprKGrows(l, k, locals);
        ExprKGrows(r, ExprK(l, k, locals), locals);
      case Field(obj, _) => ExprKGrows(obj, k, locals);
      case Index(obj, key) =>
        ExprKGrows(obj, k, locals);
        ExprKGrows(key, ExprK(obj, k, locals), locals);
      case Call(f, args) =>
        ExprKGrows(f, k, locals);
        ExprsKGrow(args, ExprK(f, k, locals), locals);
      case Method(self, _, args) =>
        ExprKGrows(self, k, locals);
        ExprsKGrow(args, ExprK(self, k, locals), locals);
      case Array(es) => ExprsKGrow(es, k, locals);
    }
  }

  lemma {:induction false} ExprsKGrow(es: Exprs, k: seq<Value>, locals: seq<Name>)
    ensures k <= ExprsK(es, k, locals)
    decreases es
  {
    match es {
      case Empty =>
      case More(e, tail) =>
        ExprKGrows(e, k, locals);
        ExprsKGrow(tail, ExprK(e, k, locals), locals);
    }
  }

  // ------------------------------------------------------------------
  // Runs
  // ------------------------------------------------------------------

  lemma {:induction false} OneStep(rt: Runtime, c: Chunk, s: Vm, n: nat)
    ensures Steps(rt, c, s, n + 1) == Step(rt, c, Steps(rt, c, s, n))
  {
    StepsThen(rt, c, s, n, 1);
    assert Steps(rt, c, Step(rt, c, Steps(rt, c, s, n)), 0) == Step(rt, c, Steps(rt, c, s, n));
  }

  lemma {:induction false} Pushes(f: Frame, pc: nat, stack: seq<Value>, w: World, v: Value)
    requires pc < |f.c.inst| && |stack| <= MAX_STACK
    requires StepAt(f.rt, f.c, pc, stack, Cells(f.loc, f.c.locals), w, f.c.inst[pc]) ==
             Pushed(pc, stack, Cells(f.loc, f.c.locals), w, v)
    ensures After(f, pc, stack, w, 1) == Valued(f, pc + 1, stack, Push(Room(stack), v, w))
  {
    hide StepAt;
    OneStep(f.rt, f.c, Stands(f, pc, stack, w), 0);
  }

  lemma {:induction false} LitRuns(f: Frame, e: Expr, k: seq<Value>, w: World, pc: nat, stack: seq<Value>)
    requires e.Lit?
    requires FrameOk(f) && Placed(f, pc, e, k) && |stack| <= MAX_STACK
    ensures After(f, pc, stack, w, 1) == Valued(f, pc + |ExprCode(e, k, f.locals)|, stack, ValueOf(f, w, stack, e))
  {
    hide At, After, Valued, Distinct, Room, Cells, Pushed;
    var i := ExprCode(e, k, f.locals)[0];
    AtOne(f.c, pc, i);
    Pushes(f, pc, stack, w, LiteralValue(e.literal));
  }

  lemma {:induction false} SymRuns(f: Frame, e: Expr, k: seq<Value>, w: World, pc: nat, stack: seq<Value>)
    requires e.Sym?
    requires FrameOk(f) && Placed(f, pc, e, k) && |stack| <= MAX_STACK
    ensures After(f, pc, stack, w, 1) == Valued(f, pc + |ExprCode(e, k, f.locals)|, stack, ValueOf(f, w, stack, e))
  {
    hide At, After, Valued, Distinct, Room, Pushed;
    AtOne(f.c, pc, SymCode(e.name, k, f.locals));
    if e.name in f.locals {
      assert f.c.locals[Slot(f.locals, e.name)] == e.name;
    }
    Pushes(f, pc, stack, w, Lookup(f.locals, f.loc, w, e.name));
  }

  /** An instruction that follows code which may crash. */
  lemma {:induction false} NextStep(f: Frame, pc: nat, stack: seq<Value>, w: World, n: nat)
    ensures After(f, pc, stack, w, n + 1) == Step(f.rt, f.c, After(f, pc, stack, w, n))
  {
    OneStep(f.rt, f.c, Stands(f, pc, stack, w), n);
  }

  /** Two runs, one after the other. */
  lemma {:induction false} NextRun(f: Frame, pc: nat, stack: seq<Value>, w: World, n: nat, f1: Frame, pc1: nat,
      stack1: seq<Value>, w1: World, m: nat)
    requires f1.rt == f.rt && f1.c == f.c
    requires After(f, pc, stack, w, n) == Stands(f1, pc1, stack1, w1)
    ensures After(f, pc, stack, w, n + m) == After(f1, pc1, stack1, w1, m)
  {
    StepsThen(f.rt, f.c, Stands(f, pc, stack, w), n, m);
  }

  lemma {:induction false} FitsMeans(c: Chunk)
    requires Fits(c)
    ensures |c.inst| < 0x1_0000 && |c.kval| <= 0x1_0000 && |c.locals| <= 0x1_0000
  {
  }

  /** What a unary operator or a field name is applied to. */
  function Operand(e: Expr): Expr
    requires e.Unary? || e.Field?
  {
    if e.Unary? then e.arg else e.obj
  }

  function PostInst(e: Expr, k: nat): Inst
    requires e.Unary? || e.Field?
  {
    if e.Unary? then IApply(e.unary) else IGetConst(k)
  }

  function PostResult(f: Frame, w: World, e: Expr, v: Value): Outcome<Value>
    requires e.Unary? || e.Field?
  {
    if e.Unary? then Apply(f.rt, w, e.unary, v) else f.rt.get(w, v, Str(e.field))
  }

  lemma {:induction false} PostPlaced(f: Frame, e: Expr, k: seq<Value>, pc: nat)
    requires e.Unary? || e.Field?
    requires Placed(f, pc, e, k) && Fits(f.c)
    ensures var q := pc + |ExprCode(Operand(e), k, f.locals)|;
      var i := |ExprK(Operand(e), k, f.locals)|;
      Placed(f, pc, Operand(e), k) && q + 1 == pc + |ExprCode(e, k, f.locals)| &&
      q < |f.c.inst| && f.c.inst[q] == PostInst(e, i) && (e.Field? ==> i < |f.c.kval| && f.c.kval[i] == Str(e.field))
  {
    hide At;
    FitsMeans(f.c);
    var x, i := ExprCode(Operand(e), k, f.locals), PostInst(e, |ExprK(Operand(e), k, f.locals)|);
    AtParts(f.c, pc, x, [i]);
    AtOne(f.c, pc + |x|, i);
  }

  lemma {:induction false} PostStep(f: Frame, e: Expr, k: nat, pc: nat, stack: seq<Value>, w: World, v: Value)
    requires e.Unary? || e.Field?
    requires |stack| < MAX_STACK && pc < |f.c.inst| && f.c.inst[pc] == PostInst(e, k)
    requires e.Field? ==> k < |f.c.kval| && f.c.kval[k] == Str(e.field)
    ensures Step(f.rt, f.c, Stands(f, pc, stack + [v], w)) == Valued(f, pc + 1, stack, PostResult(f, w, e, v))
  {
    hide Apply;
    assert Popped(stack + [v], 1) == stack;
  }

  lemma {:induction false} PostValue(f: Frame, e: Expr, w: World, stack: seq<Value>)
    requires e.Unary? || e.Field?
    ensures ValueOf(f, w, stack, e) ==
      var r := ValueOf(f, w, stack, Operand(e));
      if r.Gives? then PostResult(f, r.w, e, r.v) else r
  {
  }

  lemma {:induction false} PostRuns(f: Frame, e: Expr, k: seq<Value>, w: World, pc: nat, stack: seq<Value>)
      returns (n: nat)
    requires e.Unary? || e.Field?
    requires FrameOk(f) && Placed(f, pc, e, k) && |stack| <= MAX_STACK
    ensures After(f, pc, stack, w, n) == Valued(f, pc + |ExprCode(e, k, f.locals)|, stack, ValueOf(f, w, stack, e))
    decreases e, 0
  {
    hide After, Fits, Placed, ExprCode, ExprK, ValueOf, PostResult, Step;
    PostValue(f, e, w, stack);
    var r := ValueOf(f, w, stack, Operand(e));
    PostPlaced(f, e, k, pc);
    n := ExprRuns(f, Operand(e), k, w, pc, stack);
    NextStep(f, pc, stack, w, n);
    if r.Gives? {
      PostStep(f, e, |ExprK(Operand(e), k, f.locals)|, pc + |ExprCode(Operand(e), k, f.locals)|, stack, r.w, r.v);
      n := n + 1;
    }
  }

  function LeftOf(e: Expr): Expr
    requires e.Binary? || e.Index?
  {
    if e.Binary? then e.left else e.obj
  }

  function RightOf(e: Expr): Expr
    requires e.Binary? || e.Index?
  {
    if e.Binary? then e.right else e.key
  }

  /** The values of two operands, the first on the stack when the second is computed. */
  function TwoValued(f: Frame, pc: nat, stack: seq<Value>, w: World, a: Expr, b: Expr): Vm {
    match ValueOf(f, w, stack, a)
    case Panics(w1) => Crashed(w1)
    case Gives(v, w1) =>
      match ValueOf(f, w1, stack + [v], b)
      case Panics(w2) => Crashed(w2)
      case Gives(u, w2) => Stands(f, pc, stack + [v, u], w2)
  }

  ghost predicate TwoPlaced(f: Frame, pc: nat, a: Expr, b: Expr, k: seq<Value>) {
    Placed(f, pc, a, k) && Placed(f, pc + |ExprCode(a, k, f.locals)|, b, ExprK(a, k, f.locals))
  }

  function TwoSize(f: Frame, a: Expr, b: Expr, k: seq<Value>): nat {
    |ExprCode(a, k, f.locals)| + |ExprCode(b, ExprK(a, k, f.locals), f.locals)|
  }

  lemma {:induction false} RoomLess(stack: seq<Value>, v: Value)
    ensures |stack| <= MAX_STACK && Room(stack) > 0 ==>
      |stack + [v]| <= MAX_STACK && Room(stack + [v]) == Room(stack) - 1
  {
  }

  lemma {:induction false} BothRun(f: Frame, e: Expr, k: seq<Value>, w: World, pc: nat, stack: seq<Value>)
      returns (n: nat)
    requires e.Binary? || e.Index?
    requires FrameOk(f) && |stack| <= MAX_STACK && TwoPlaced(f, pc, LeftOf(e), RightOf(e), k)
    ensures After(f, pc, stack, w, n) ==
            TwoValued(f, pc + TwoSize(f, LeftOf(e), RightOf(e), k), stack, w, LeftOf(e), RightOf(e))
    decreases e, 0
  {
    hide At, After, Placed, FrameOk, ExprCode, ExprK, Eval;
    var a, b := LeftOf(e), RightOf(e);
    n := ExprRuns(f, a, k, w, pc, stack);
    var r := ValueOf(f, w, stack, a);
    if r.Gives? {
      RoomLess(stack, r.v);
      var q := pc + |ExprCode(a, k, f.locals)|;
      var m := ExprRuns(f, b, ExprK(a, k, f.locals), r.w, q, stack + [r.v]);
      NextRun(f, pc, stack, w, n, f, q, stack + [r.v], r.w, m);
      n := n + m;
      var r2 := ValueOf(f, r.w, stack + [r.v], b);
      if r2.Gives? {
        assert stack + [r.v] + [r2.v] == stack + [r.v, r2.v];
      }
    }
  }

  ghost predicate IsStrict(e: Expr) {
    (e.Binary? && e.binary != And && e.binary != Or) || e.Index?
  }

  function StrictInst(e: Expr): Inst {
    if e.Binary? then IOperate(e.binary) else IGetStack
  }

  function StrictResult(f: Frame, w: World, e: Expr, v: Value, u: Value): Outcome<Value> {
    if e.Binary? then Operate(f.rt, w, e.binary, v, u) else f.rt.get(w, v, u)
  }

  lemma {:induction false} StrictShape(e: Expr, k: seq<Value>, locals: seq<Name>)
    requires IsStrict(e)
    ensures var k1 := ExprK(LeftOf(e), k, locals);
      ExprCode(e, k, locals) == ExprCode(LeftOf(e), k, locals) + ExprCode(RightOf(e), k1, locals) + [StrictInst(e)] &&
      ExprK(e, k, locals) == ExprK(RightOf(e), k1, locals) &&
      (ExprFits(e, k, locals) ==> ExprFits(LeftOf(e), k, locals) && ExprFits(RightOf(e), k1, locals))
  {
  }

  lemma {:induction false} StrictPlaced(f: Frame, e: Expr, k: seq<Value>, pc: nat)
    requires IsStrict(e) && Placed(f, pc, e, k)
    ensures TwoPlaced(f, pc, LeftOf(e), RightOf(e), k)
    ensures var n := TwoSize(f, LeftOf(e), RightOf(e), k);
      |ExprCode(e, k, f.locals)| == n + 1 && pc + n < |f.c.inst| && f.c.inst[pc + n] == StrictInst(e)
  {
    hide At, ExprCode, ExprK, ExprFits;
    StrictShape(e, k, f.locals);
    var a, b, k1 := LeftOf(e), RightOf(e), ExprK(LeftOf(e), k, f.locals);
    var x, y := ExprCode(a, k, f.locals), ExprCode(b, k1, f.locals);
    AtParts(f.c, pc, x + y, [StrictInst(e)]);
    AtParts(f.c, pc, x, y);
    AtOne(f.c, pc + |x + y|, StrictInst(e));
    ExprKGrows(b, k1, f.locals);
  }

  lemma {:induction false} StrictValue(f: Frame, e: Expr, w: World, stack: seq<Value>)
    requires IsStrict(e) && |stack| <= MAX_STACK
    ensures ValueOf(f, w, stack, e) ==
      match ValueOf(f, w, stack, LeftOf(e))
      case Panics(w1) => Panics(w1)
      case Gives(v, w1) =>
        match ValueOf(f, w1, stack + [v], RightOf(e))
        case Panics(w2) => Panics(w2)
        case Gives(u, w2) => StrictResult(f, w2, e, v, u)
  {
    var r := ValueOf(f, w, stack, LeftOf(e));
    if r.Gives? { RoomLess(stack, r.v); }
  }

  /** The operators that compute both operands first. */
  lemma {:induction false} StrictRuns(f: Frame, e: Expr, k: seq<Value>, w: World, pc: nat, stack: seq<Value>)
      returns (n: nat)
    requires IsStrict(e)
    requires FrameOk(f) && Placed(f, pc, e, k) && |stack| <= MAX_STACK
    ensures After(f, pc, stack, w, n) == Valued(f, pc + |ExprCode(e, k, f.locals)|, stack, ValueOf(f, w, stack, e))
    decreases e, 1
  {
    hide After, FrameOk, Placed, TwoPlaced, TwoSize, ExprCode, ExprK, ValueOf, Operate, Step;
    StrictPlaced(f, e, k, pc);
    StrictValue(f, e, w, stack);
    n := BothRun(f, e, k, w, pc, stack);
    NextStep(f, pc, stack, w, n);
    var r := ValueOf(f, w, stack, LeftOf(e));
    if r.Gives? {
      RoomLess(stack, r.v);
      var r2 := ValueOf(f, r.w, stack + [r.v], RightOf(e));
      if r2.Gives? {
        StrictStep(f, e, pc + TwoSize(f, LeftOf(e), RightOf(e), k), stack, r2.w, r.v, r2.v);
        n := n + 1;
      }
    }
  }

  lemma {:induction false} StrictStep(f: Frame, e: Expr, pc: nat, stack: seq<Value>, w: World, v: Value, u: Value)
    requires IsStrict(e) && |stack| < MAX_STACK
    requires pc < |f.c.inst| && f.c.inst[pc] == StrictInst(e)
    ensures Step(f.rt, f.c, Stands(f, pc, stack + [v, u], w)) == Valued(f, pc + 1, stack, StrictResult(f, w, e, v, u))
  {
    hide Operate;
    assert Popped(stack + [v, u], 2) == stack;
  }

  /** The jump over the right operand of `and` and `or`. */
  function LogicInst(op: BinaryOp, size: nat): Inst {
    if op == And then IJnt(Ahead(size + 1)) else IJnn(Ahead(size + 1))
  }

  lemma {:induction false} LogicShape(e: Expr, k: seq<Value>, locals: seq<Name>)
    requires e.Binary? && (e.binary == And || e.binary == Or)
    ensures var k1 := ExprK(e.left, k, locals);
      var y := ExprCode(e.right, k1, locals);
      ExprCode(e, k, locals) == ExprCode(e.left, k, locals) + [LogicInst(e.binary, |y|)] + y &&
      ExprK(e, k, locals) == ExprK(e.right, k1, locals) &&
      (ExprFits(e, k, locals) ==> ExprFits(e.left, k, locals) && ExprFits(e.right, k1, locals))
  {
  }

  lemma {:induction false} LogicPlaced(f: Frame, e: Expr, k: seq<Value>, pc: nat)
    requires e.Binary? && (e.binary == And || e.binary == Or) && Placed(f, pc, e, k) && Fits(f.c)
    ensures TwoSize(f, e.left, e.right, k) + 1 == |ExprCode(e, k, f.locals)|
    ensures var q := pc + |ExprCode(e.left, k, f.locals)|;
      var size := |ExprCode(e.right, ExprK(e.left, k, f.locals), f.locals)|;
      Placed(f, pc, e.left, k) && Placed(f, q + 1, e.right, ExprK(e.left, k, f.locals)) && size + 1 < 0x1_0000 &&
      q < |f.c.inst| && f.c.inst[q] == LogicInst(e.binary, size)
  {
    hide At, ExprCode, ExprK, ExprFits;
    FitsMeans(f.c);
    LogicShape(e, k, f.locals);
    var k1 := ExprK(e.left, k, f.locals);
    var x, y := ExprCode(e.left, k, f.locals), ExprCode(e.right, k1, f.locals);
    var i := LogicInst(e.binary, |y|);
    AtParts(f.c, pc, x + [i], y);
    AtParts(f.c, pc, x, [i]);
    AtOne(f.c, pc + |x|, i);
    AtBelow(f.c, pc, x + [i] + y);
    ExprKGrows(e.right, k1, f.locals);
  }

  lemma {:induction false} LogicStep(f: Frame, op: BinaryOp, size: nat, pc: nat, stack: seq<Value>, w: World, v: Value)
    requires op == And || op == Or
    requires size + 1 < 0x1_0000 && pc < |f.c.inst| && f.c.inst[pc] == LogicInst(op, size)
    ensures Step(f.rt, f.c, Stands(f, pc, stack + [v], w)) ==
      if Truth(v) == (op == And) then Stands(f, pc + 1, stack, w) else Stands(f, pc + 1 + size, stack + [v], w)
  {
    assert Popped(stack + [v], 1) == stack;
  }

  lemma {:induction false} LogicValue(f: Frame, e: Expr, w: World, stack: seq<Value>)
    requires e.Binary? && (e.binary == And || e.binary == Or)
    ensures ValueOf(f, w, stack, e) ==
      var r := ValueOf(f, w, stack, e.left);
      if r.Gives? && Truth(r.v) == (e.binary == And) then ValueOf(f, r.w, stack, e.right) else r
  {
  }

  /** `and` and `or`: the right operand is computed only if the left does not decide, and then replaces it. */
  lemma {:induction false} LogicRuns(f: Frame, e: Expr, k: seq<Value>, w: World, pc: nat, stack: seq<Value>)
      returns (n: nat)
    requires e.Binary? && (e.binary == And || e.binary == Or)
    requires FrameOk(f) && Placed(f, pc, e, k) && |stack| <= MAX_STACK
    ensures After(f, pc, stack, w, n) == Valued(f, pc + |ExprCode(e, k, f.locals)|, stack, ValueOf(f, w, stack, e))
    decreases e, 1
  {
    hide After, Fits, Placed, ExprCode, ExprK, ValueOf, Step;
    LogicValue(f, e, w, stack);
    var r := ValueOf(f, w, stack, e.left);
    LogicPlaced(f, e, k, pc);
    var k1 := ExprK(e.left, k, f.locals);
    var q, size := pc + |ExprCode(e.left, k, f.locals)|, |ExprCode(e.right, k1, f.locals)|;
    n := ExprRuns(f, e.left, k, w, pc, stack);
    NextStep(f, pc, stack, w, n);
    if r.Gives? {
      LogicStep(f, e.binary, size, q, stack, r.w, r.v);
      n := n + 1;
      if Truth(r.v) == (e.binary == And) {
        var m := ExprRuns(f, e.right, k1, r.w, q + 1, stack);
        NextRun(f, pc, stack, w, n, f, q + 1, stack, r.w, m);
        n := n + m;
      }
    }
  }

  lemma {:induction false} AtBelow(c: Chunk, pc: nat, code: Code)
    requires At(c, pc, code)
    ensures pc + |code| <= |c.inst|
  {
  }

  lemma {:induction false} AllParts(f: Frame, es: Exprs, k: seq<Value>, pc: nat)
    requires es.More? && AllPlaced(f, pc, es, k)
    ensures var k1 := ExprK(es.head, k, f.locals);
      var q := pc + |ExprCode(es.head, k, f.locals)|;
      Placed(f, pc, es.head, k) && AllPlaced(f, q, es.tail, k1) &&
      q + |ExprsCode(es.tail, k1, f.locals)| == pc + |ExprsCode(es, k, f.locals)|
  {
    hide At;
    var k1 := ExprK(es.head, k, f.locals);
    AtParts(f.c, pc, ExprCode(es.head, k, f.locals), ExprsCode(es.tail, k1, f.locals));
    ExprsKGrow(es.tail, k1, f.locals);
  }

  lemma {:induction false} AllValue(f: Frame, es: Exprs, w: World, stack: seq<Value>)
    requires es.More? && |stack| <= MAX_STACK
    ensures ValuesOf(f, w, stack, es) ==
      match ValueOf(f, w, stack, es.head)
      case Panics(w1) => Panics(w1)
      case Gives(v, w1) =>
        match ValuesOf(f, w1, stack + [v], es.tail)
        case Panics(w2) => Panics(w2)
        case Gives(vs, w2) => Gives([v] + vs, w2)
  {
    var r := ValueOf(f, w, stack, es.head);
    if r.Gives? { RoomLess(stack, r.v); }
  }

  lemma {:induction false} AllRun(f: Frame, es: Exprs, k: seq<Value>, w: World, pc: nat, stack: seq<Value>)
      returns (n: nat)
    requires FrameOk(f) && AllPlaced(f, pc, es, k) && |stack| <= MAX_STACK
    ensures After(f, pc, stack, w, n) ==
            AllValued(f, pc + |ExprsCode(es, k, f.locals)|, stack, ValuesOf(f, w, stack, es))
    decreases es
  {
    match es {
      case Empty =>
        assert stack + [] == stack;
        n := 0;
      case More(e, tail) =>
        hide After, FrameOk, Placed, AllPlaced, ExprCode, ExprsCode, ExprK, ValueOf, ValuesOf, Room;
        AllParts(f, es, k, pc);
        AllValue(f, es, w, stack);
        n := ExprRuns(f, e, k, w, pc, stack);
        var r := ValueOf(f, w, stack, e);
        if r.Gives? {
          RoomLess(stack, r.v);
          var k1, q := ExprK(e, k, f.locals), pc + |ExprCode(e, k, f.locals)|;
          var m := AllRun(f, tail, k1, r.w, q, stack + [r.v]);
          NextRun(f, pc, stack, w, n, f, q, stack + [r.v], r.w, m);
          n := n + m;
          var r2 := ValuesOf(f, r.w, stack + [r.v], tail);
          if r2.Gives? {
            assert stack + [r.v] + r2.v == stack + ([r.v] + r2.v);
          }
        }
    }
  }

  lemma {:induction false} ArrayPlaced(f: Frame, e: Expr, k: seq<Value>, pc: nat)
    requires e.Array? && Placed(f, pc, e, k)
    ensures AllPlaced(f, pc, e.elems, k)
    ensures var q := pc + |ExprsCode(e.elems, k, f.locals)|;
      q < |f.c.inst| && f.c.inst[q] == INewArray(Count(e.elems)) && q + 1 == pc + |ExprCode(e, k, f.locals)|
  {
    hide At;
    var x := ExprsCode(e.elems, k, f.locals);
    AtParts(f.c, pc, x, [INewArray(Count(e.elems))]);
    AtOne(f.c, pc + |x|, INewArray(Count(e.elems)));
  }

  lemma {:induction false} ArrayStep(f: Frame, n: nat, pc: nat, stack: seq<Value>, vs: seq<Value>, w: World)
    requires |vs| == n && |stack| + n <= MAX_STACK
    requires pc < |f.c.inst| && f.c.inst[pc] == INewArray(n)
    ensures Step(f.rt, f.c, Stands(f, pc, stack + vs, w)) == Valued(f, pc + 1, stack, Alloc(f.rt, Room(stack), vs, w))
  {
    Parts(stack, vs);
    assert Popped(stack + vs, n) == stack;
  }

  lemma {:induction false} ArrayValue(f: Frame, e: Expr, w: World, stack: seq<Value>)
    requires e.Array?
    ensures ValueOf(f, w, stack, e) ==
      var r := ValuesOf(f, w, stack, e.elems);
      if r.Gives? then Alloc(f.rt, Room(stack), r.v, r.w) else Panics(r.w)
  {
  }

  lemma {:induction false} ArrayRuns(f: Frame, e: Expr, k: seq<Value>, w: World, pc: nat, stack: seq<Value>)
      returns (n: nat)
    requires e.Array?
    requires FrameOk(f) && Placed(f, pc, e, k) && |stack| <= MAX_STACK
    ensures After(f, pc, stack, w, n) == Valued(f, pc + |ExprCode(e, k, f.locals)|, stack, ValueOf(f, w, stack, e))
    decreases e, 1
  {
    hide After, FrameOk, Placed, AllPlaced, ExprCode, ExprsCode, ValueOf, ValuesOf, Step, Alloc;
    ArrayValue(f, e, w, stack);
    var r := ValuesOf(f, w, stack, e.elems);
    ArrayPlaced(f, e, k, pc);
    n := AllRun(f, e.elems, k, w, pc, stack);
    NextStep(f, pc, stack, w, n);
    if r.Gives? {
      ArrayStep(f, Count(e.elems), pc + |ExprsCode(e.elems, k, f.locals)|, stack, r.v, r.w);
      n := n + 1;
    }
  }

  // ------------------------------------------------------------------
  // Calls
  // ------------------------------------------------------------------

  /** The values a call leaves, cut or filled to `keep`. */
  function Kept(f: Frame, pc: nat, stack: seq<Value>, keep: nat, r: Outcome<seq<Value>>): Vm
    requires keep <= 1
  {
    match r
    case Panics(w) => Crashed(w)
    case Gives(vs, w) => Stands(f, pc, if keep == 0 then stack else stack + [First(vs)], w)
  }

  function CallInst(e: Expr, keep: nat, k: nat): Inst
    requires e.Call? || e.Method?
  {
    if e.Call? then ICall(keep, Count(e.args)) else ISelfCall(keep, Count(e.args), k)
  }

  /** What is called, or whose method is called. */
  function Callee(e: Expr): Expr
    requires e.Call? || e.Method?
  {
    if e.Call? then e.func else e.self
  }

  function CallResult(f: Frame, w: World, room: nat, e: Expr, v: Value, vs: seq<Value>): Outcome<seq<Value>>
    requires e.Call? || e.Method?
  {
    if e.Call? then f.rt.call(w, room, v, vs)
    else
      match f.rt.get(w, v, Str(e.method_))
      case Panics(w1) => Panics(w1)
      case Gives(m, w1) => f.rt.call(w1, room, m, [v] + vs)
  }

  function CallOf(f: Frame, w: World, stack: seq<Value>, e: Expr): (r: Outcome<seq<Value>>)
    requires e.Call? || e.Method?
    ensures r.Gives? ==> |stack| < MAX_STACK
  {
    EvalCall(f.rt, f.locals, f.loc, w, Room(stack), e)
  }

  ghost predicate CallPlaced(f: Frame, pc: nat, e: Expr, k: seq<Value>, keep: nat)
    requires e.Call? || e.Method?
  {
    At(f.c, pc, CallCode(e, k, f.locals, keep)) && ExprK(e, k, f.locals) <= f.c.kval && ExprFits(e, k, f.locals)
  }

  lemma {:induction false} CallParts(f: Frame, e: Expr, k: seq<Value>, pc: nat, keep: nat)
    requires e.Call? || e.Method?
    requires CallPlaced(f, pc, e, k, keep)
    ensures var k1 := ExprK(Callee(e), k, f.locals);
      var q := pc + |ExprCode(Callee(e), k, f.locals)|;
      var q1 := q + |ExprsCode(e.args, k1, f.locals)|;
      var i := |ExprsK(e.args, k1, f.locals)|;
      Placed(f, pc, Callee(e), k) && AllPlaced(f, q, e.args, k1) &&
      q1 < |f.c.inst| && f.c.inst[q1] == CallInst(e, keep, i) && q1 + 1 == pc + |CallCode(e, k, f.locals, keep)| &&
      (e.Method? ==> i < |f.c.kval| && f.c.kval[i] == Str(e.method_))
  {
    hide At;
    var k1 := ExprK(Callee(e), k, f.locals);
    var x, y := ExprCode(Callee(e), k, f.locals), ExprsCode(e.args, k1, f.locals);
    var i := CallInst(e, keep, |ExprsK(e.args, k1, f.locals)|);
    assert CallCode(e, k, f.locals, keep) == x + y + [i];
    AtParts(f.c, pc, x + y, [i]);
    AtParts(f.c, pc, x, y);
    AtOne(f.c, pc + |x + y|, i);
    ExprsKGrow(e.args, k1, f.locals);
  }

  lemma {:induction false} CallStep(f: Frame, e: Expr, keep: nat, k: nat, pc: nat, stack: seq<Value>, v: Value,
      vs: seq<Value>, w: World)
    requires e.Call? || e.Method?
    requires |vs| == Count(e.args) && |stack| + 1 + |vs| <= MAX_STACK && keep <= 1
    requires pc < |f.c.inst| && f.c.inst[pc] == CallInst(e, keep, k)
    requires e.Method? ==> k < |f.c.kval| && f.c.kval[k] == Str(e.method_)
    ensures Step(f.rt, f.c, Stands(f, pc, stack + [v] + vs, w)) ==
            Kept(f, pc + 1, stack, keep, CallResult(f, w, Room(stack), e, v, vs))
  {
    hide CallResult, Called, Kept;
    var all, n := stack + [v] + vs, Count(e.args);
    Parts(stack + [v], vs);
    assert all == stack + ([v] + vs);
    Parts(stack, [v] + vs);
    assert Popped(all, n + 1) == stack && Top(all, n) == v;
    assert all[|all| - n..] == vs && all[|all| - n - 1..] == [v] + vs;
    Keeps(f, pc, stack, keep, CallResult(f, w, Room(stack), e, v, vs));
    CallStepAt(f, e, keep, k, pc, stack, v, vs, w, all);
  }

  lemma {:induction false} CallStepAt(f: Frame, e: Expr, keep: nat, k: nat, pc: nat, stack: seq<Value>, v: Value,
      vs: seq<Value>, w: World, all: seq<Value>)
    requires e.Call? || e.Method?
    requires pc < |f.c.inst| && f.c.inst[pc] == CallInst(e, keep, k)
    requires e.Method? ==> k < |f.c.kval| && f.c.kval[k] == Str(e.method_)
    requires |all| > Count(e.args) && Popped(all, Count(e.args) + 1) == stack && Top(all, Count(e.args)) == v
    requires all[|all| - Count(e.args)..] == vs && all[|all| - Count(e.args) - 1..] == [v] + vs
    ensures Step(f.rt, f.c, Stands(f, pc, all, w)) ==
            Called(pc, stack, keep, Cells(f.loc, f.c.locals), CallResult(f, w, Room(stack), e, v, vs))
  {
    hide Popped, Top, Room, Cells;
  }

  lemma {:induction false} Keeps(f: Frame, pc: nat, stack: seq<Value>, keep: nat, r: Outcome<seq<Value>>)
    requires keep <= 1 && |stack| < MAX_STACK
    ensures Called(pc, stack, keep, Cells(f.loc, f.c.locals), r) == Kept(f, pc + 1, stack, keep, r)
  {
    if r.Gives? {
      if keep == 0 {
        assert stack + r.v[..0] == stack;
      } else if r.v == [] {
        assert stack + r.v + seq(1, i => Nil) == stack + [Nil];
      } else {
        assert r.v[..1] == [r.v[0]];
      }
    }
  }

  lemma {:induction false} CallValue(f: Frame, e: Expr, w: World, stack: seq<Value>)
    requires e.Call? || e.Method?
    requires |stack| <= MAX_STACK
    ensures CallOf(f, w, stack, e) ==
      match ValueOf(f, w, stack, Callee(e))
      case Panics(w1) => Panics(w1)
      case Gives(v, w1) =>
        match ValuesOf(f, w1, stack + [v], e.args)
        case Panics(w2) => Panics(w2)
        case Gives(vs, w2) => CallResult(f, w2, Room(stack), e, v, vs)
  {
    var r := ValueOf(f, w, stack, Callee(e));
    if r.Gives? { RoomLess(stack, r.v); }
  }

  lemma {:induction false} CallRuns(f: Frame, e: Expr, k: seq<Value>, w: World, pc: nat, stack: seq<Value>, keep: nat)
    returns (n: nat)
    requires e.Call? || e.Method?
    requires FrameOk(f) && CallPlaced(f, pc, e, k, keep) && |stack| <= MAX_STACK && keep <= 1
    ensures After(f, pc, stack, w, n) ==
            Kept(f, pc + |CallCode(e, k, f.locals, keep)|, stack, keep, CallOf(f, w, stack, e))
    decreases e, 1
  {
    hide After, FrameOk, CallPlaced, Placed, AllPlaced, ExprCode, ExprsCode, CallCode, ExprK, ExprsK, CallOf, ValueOf,
      ValuesOf, CallResult, Step;
    CallParts(f, e, k, pc, keep);
    CallValue(f, e, w, stack);
    var k1 := ExprK(Callee(e), k, f.locals);
    var q := pc + |ExprCode(Callee(e), k, f.locals)|;
    n := ExprRuns(f, Callee(e), k, w, pc, stack);
    var r := ValueOf(f, w, stack, Callee(e));
    if r.Gives? {
      RoomLess(stack, r.v);
      var m := AllRun(f, e.args, k1, r.w, q, stack + [r.v]);
      NextRun(f, pc, stack, w, n, f, q, stack + [r.v], r.w, m);
      n := n + m;
      NextStep(f, pc, stack, w, n);
      var r2 := ValuesOf(f, r.w, stack + [r.v], e.args);
      if r2.Gives? {
        CallStep(f, e, keep, |ExprsK(e.args, k1, f.locals)|, q + |ExprsCode(e.args, k1, f.locals)|, stack, r.v, r2.v,
          r2.w);
        n := n + 1;
      }
    }
  }

  lemma {:induction false} CallIsPlaced(f: Frame, e: Expr, k: seq<Value>, pc: nat)
    requires e.Call? || e.Method?
    ensures Placed(f, pc, e, k) ==> CallPlaced(f, pc, e, k, 1)
    ensures ExprCode(e, k, f.locals) == CallCode(e, k, f.locals, 1)
  {
    hide At, CallCode, ExprK, ExprFits;
  }

  lemma {:induction false} CallGives(f: Frame, e: Expr, w: World, stack: seq<Value>)
    requires e.Call? || e.Method?
    ensures ValueOf(f, w, stack, e) == One(CallOf(f, w, stack, e))
  {
    hide EvalCall;
  }

  /** A call whose value is used. */
  lemma {:induction false} CallExprRuns(f: Frame, e: Expr, k: seq<Value>, w: World, pc: nat, stack: seq<Value>)
    returns (n: nat)
    requires e.Call? || e.Method?
    requires FrameOk(f) && Placed(f, pc, e, k) && |stack| <= MAX_STACK
    ensures After(f, pc, stack, w, n) == Valued(f, pc + |ExprCode(e, k, f.locals)|, stack, ValueOf(f, w, stack, e))
    decreases e, 2
  {
    hide After, FrameOk, CallPlaced, Placed, ExprCode, CallCode, CallOf, ValueOf;
    CallIsPlaced(f, e, k, pc);
    CallGives(f, e, w, stack);
    n := CallRuns(f, e, k, w, pc, stack, 1);
  }

  /** The code of an expression leaves its value on the stack, and panics when the expression does. */
  lemma {:induction false} ExprRuns(f: Frame, e: Expr, k: seq<Value>, w: World, pc: nat, stack: seq<Value>)
      returns (n: nat)
    requires FrameOk(f) && Placed(f, pc, e, k) && |stack| <= MAX_STACK
    ensures After(f, pc, stack, w, n) == Valued(f, pc + |ExprCode(e, k, f.locals)|, stack, ValueOf(f, w, stack, e))
    decreases e, 3
  {
    hide Placed, FrameOk, After, Valued, ValueOf;
    match e {
      case Lit(_) => LitRuns(f, e, k, w, pc, stack); n := 1;
      case Sym(_) => SymRuns(f, e, k, w, pc, stack); n := 1;
      case Unary(_, _) => n := PostRuns(f, e, k, w, pc, stack);
      case Field(_, _) => n := PostRuns(f, e, k, w, pc, stack);
      case Binary(op, _, _) =>
        if op == And || op == Or {
          n := LogicRuns(f, e, k, w, pc, stack);
        } else {
          n := StrictRuns(f, e, k, w, pc, stack);
        }
      case Index(_, _) => n := StrictRuns(f, e, k, w, pc, stack);
      case Call(_, _) => n := CallExprRuns(f, e, k, w, pc, stack);
      case Method(_, _, _) => n := CallExprRuns(f, e, k, w, pc, stack);
      case Array(_) => n := ArrayRuns(f, e, k, w, pc, stack);
    }
  }
}
