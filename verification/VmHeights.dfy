/** The height of the operand stack before each instruction, and where jumps land. */
module VmHeights {
  import opened Basics
  import opened ScriptSyntax
  import opened Runtime
  import opened VmCode
  import opened VmExprs
  import opened VmStmts
  import opened VmSize

  // ------------------------------------------------------------------
  // One instruction
  // ------------------------------------------------------------------

  /** The operands that an instruction needs. */
  function Needs(i: Inst): nat {
    match i
    case IStoreLocal(_) | IStoreGlobal(_) => 1
    case IRet(n) => n
    case IJne(_) | IJnt(_) | IJnn(_) | IForeach(_) => 1
    case IOperate(_) | IGetStack | ISetConst(_) => 2
    case IApply(_) | IGetConst(_) => 1
    case ISetStack => 3
    case ICall(_, argc) => argc + 1
    case ISelfCall(_, argc, _) => argc + 1
    case INewArray(n) => n
    case IPanic | IJmp(_) | IPushConst(_) | IPushLocal(_) | IPushGlobal(_) | IPushBool(_) | IPushNil => 0
  }

  /** Control may go on with the next instruction. */
  predicate Falls(i: Inst) {
    !i.IPanic? && !i.IRet? && !i.IJmp?
  }

  /** The operands there instead of those needed when control goes on. */
  function Leaves(i: Inst): nat {
    match i
    case IForeach(_) => 1
    case IOperate(_) | IGetStack | IApply(_) | IGetConst(_) | INewArray(_) => 1
    case ICall(keep, _) => keep
    case ISelfCall(keep, _, _) => keep
    case IPushConst(_) | IPushLocal(_) | IPushGlobal(_) | IPushBool(_) | IPushNil => 1
    case IStoreLocal(_) | IStoreGlobal(_) | IRet(_) | IJne(_) | IJnt(_) | IJnn(_) | ISetConst(_) | ISetStack | IPanic
      | IJmp(_) => 0
  }

  function JumpOf(i: Inst): Option<Jump> {
    match i
    case IJne(j) => Some(j)
    case IJnt(j) => Some(j)
    case IJnn(j) => Some(j)
    case IJmp(j) => Some(j)
    case IForeach(j) => Some(j)
    case _ => None
  }

  /** The operands there instead of those needed behind a jump. */
  function Carries(i: Inst): nat {
    if i.IJnt? || i.IJnn? then 1 else 0
  }

  // ------------------------------------------------------------------
  // Heights that agree over all edges
  // ------------------------------------------------------------------

  /** The height at `t`: inside the code as `hs` says, and nothing at the places outside that `outs` names. */
  ghost predicate Level(at: nat, hs: seq<nat>, outs: set<nat>, t: nat, h: nat) {
    (at <= t < at + |hs| && hs[t - at] == h) || (t in outs && h == 0)
  }

  ghost predicate EdgesAgree(i: Inst, pc: nat, h: nat, at: nat, hs: seq<nat>, outs: set<nat>) {
    Needs(i) <= h && (Falls(i) ==> Level(at, hs, outs, pc + 1, h - Needs(i) + Leaves(i))) &&
    (JumpOf(i).Some? ==>
      var t := VmMachine.Target(pc, JumpOf(i).value);
      t.Some? && Level(at, hs, outs, t.value, h - Needs(i) + Carries(i)))
  }

  /** Code at `at` with a height before each instruction and one behind the last, which agree over all edges. */
  ghost predicate Flows(code: Code, at: nat, hs: seq<nat>, outs: set<nat>) {
    |hs| == |code| + 1 && forall i | 0 <= i < |code| :: EdgesAgree(code[i], at + i, hs[i], at, hs, outs)
  }

  /** It is entered at `h` and left at `h1`. */
  ghost predicate Leads(code: Code, at: nat, hs: seq<nat>, outs: set<nat>, h: nat, h1: nat) {
    Flows(code, at, hs, outs) && hs[0] == h && hs[|code|] == h1
  }

  function Joined(x: seq<nat>, y: seq<nat>): seq<nat>
    requires |x| > 0
  {
    x[..|x| - 1] + y
  }

  lemma {:induction false} FlowsJoin(a: Code, b: Code, at: nat, x: seq<nat>, y: seq<nat>, outs: set<nat>, h: nat,
      h1: nat, h2: nat)
    requires Leads(a, at, x, outs, h, h1) && Leads(b, at + |a|, y, outs, h1, h2)
    ensures Leads(a + b, at, Joined(x, y), outs, h, h2)
  {
    hide EdgesAgree;
    var code, hs := a + b, Joined(x, y);
    forall i | 0 <= i < |code| ensures EdgesAgree(code[i], at + i, hs[i], at, hs, outs) {
      if i < |a| {
        assert EdgesAgree(a[i], at + i, x[i], at, x, outs);
        EdgesWiden(a[i], at + i, x[i], at, x, outs, at, hs, outs);
      } else {
        assert EdgesAgree(b[i - |a|], at + |a| + (i - |a|), y[i - |a|], at + |a|, y, outs);
        EdgesWiden(b[i - |a|], at + i, y[i - |a|], at + |a|, y, outs, at, hs, outs);
      }
    }
  }

  /** Heights that are found among more heights, or where nothing is left outside. */
  lemma {:induction false} EdgesWiden(i: Inst, pc: nat, h: nat, at: nat, x: seq<nat>, outs: set<nat>, at1: nat,
      y: seq<nat>, outs1: set<nat>)
    requires EdgesAgree(i, pc, h, at, x, outs) && at1 <= at && at + |x| <= at1 + |y|
    requires forall k | 0 <= k < |x| :: y[at - at1 + k] == x[k]
    requires forall t | t in outs :: t in outs1 || (at1 <= t < at1 + |y| && y[t - at1] == 0)
    ensures EdgesAgree(i, pc, h, at1, y, outs1)
  {
    forall t: nat, g: nat | Level(at, x, outs, t, g) ensures Level(at1, y, outs1, t, g) {
      if at <= t < at + |x| && x[t - at] == g {
        assert y[at - at1 + (t - at)] == x[t - at];
      }
    }
  }

  /** Places outside that more code has inside. */
  lemma {:induction false} FlowsOuts(code: Code, at: nat, hs: seq<nat>, outs: set<nat>, outs1: set<nat>, h: nat,
      h1: nat)
    requires Leads(code, at, hs, outs, h, h1)
    requires forall t | t in outs :: t in outs1 || (at <= t < at + |hs| && hs[t - at] == 0)
    ensures Leads(code, at, hs, outs1, h, h1)
  {
    hide EdgesAgree;
    forall i | 0 <= i < |code| ensures EdgesAgree(code[i], at + i, hs[i], at, hs, outs1) {
      EdgesWiden(code[i], at + i, hs[i], at, hs, outs, at, hs, outs1);
    }
  }

  /** An instruction that only goes on. */
  lemma {:induction false} FlowsOne(i: Inst, at: nat, outs: set<nat>, h: nat)
    requires Falls(i) && JumpOf(i).None? && Needs(i) <= h
    ensures Leads([i], at, [h, h - Needs(i) + Leaves(i)], outs, h, h - Needs(i) + Leaves(i))
  {
  }

  lemma {:induction false} FlowsNone(at: nat, outs: set<nat>, h: nat)
    ensures Leads([], at, [h], outs, h, h)
  {
  }

  /** An instruction before code whose heights are known. */
  lemma {:induction false} FlowsCons(i: Inst, b: Code, at: nat, y: seq<nat>, outs: set<nat>, h: nat, h1: nat, h2: nat)
    requires Leads(b, at + 1, y, outs, h1, h2) && EdgesAgree(i, at, h, at, [h] + y, outs)
    ensures Leads([i] + b, at, [h] + y, outs, h, h2)
  {
    hide EdgesAgree;
    var code, hs := [i] + b, [h] + y;
    forall k | 0 <= k < |code| ensures EdgesAgree(code[k], at + k, hs[k], at, hs, outs) {
      if k > 0 {
        assert EdgesAgree(b[k - 1], at + 1 + (k - 1), y[k - 1], at + 1, y, outs);
        EdgesWiden(b[k - 1], at + k, y[k - 1], at + 1, y, outs, at, hs, outs);
      }
    }
  }

  /** Code, then an instruction that only goes on. */
  lemma {:induction false} FlowsThen(a: Code, i: Inst, at: nat, x: seq<nat>, outs: set<nat>, h: nat, h1: nat)
      returns (hs: seq<nat>)
    requires Leads(a, at, x, outs, h, h1) && Falls(i) && JumpOf(i).None? && Needs(i) <= h1
    ensures Leads(a + [i], at, hs, outs, h, h1 - Needs(i) + Leaves(i))
  {
    FlowsOne(i, at + |a|, outs, h1);
    var y := [h1, h1 - Needs(i) + Leaves(i)];
    hide Leads, Falls, JumpOf, Needs, Leaves;
    FlowsJoin(a, [i], at, x, y, outs, h, h1, y[1]);
    hs := Joined(x, y);
  }

  // ------------------------------------------------------------------
  // Expressions
  // ------------------------------------------------------------------

  /** The right operand of `and` and `or` is jumped over with the left one on the stack. */
  lemma {:induction false} LogicFlows(i: Inst, r: Code, at: nat, y: seq<nat>, h: nat)
    requires i == IJnt(Ahead(|r| + 1)) || i == IJnn(Ahead(|r| + 1))
    requires |r| + 1 < 0x1_0000 && Leads(r, at + 1, y, {}, h, h + 1)
    ensures Leads([i] + r, at, [h + 1] + y, {}, h + 1, h + 1)
  {
    var hs := [h + 1] + y;
    assert hs[|r| + 1] == y[|r|];
    assert EdgesAgree(i, at, h + 1, at, hs, {});
    FlowsCons(i, r, at, y, {}, h + 1, h, h + 1);
  }

  lemma {:induction false} BinaryFlows(op: BinaryOp, l: Code, r: Code, at: nat, x: seq<nat>, h: nat, y: seq<nat>)
      returns (hs: seq<nat>)
    requires |r| + 1 < 0x1_0000 && Leads(l, at, x, {}, h, h + 1)
    requires if op == And || op == Or then Leads(r, at + |l| + 1, y, {}, h, h + 1)
             else Leads(r, at + |l|, y, {}, h + 1, h + 2)
    ensures Leads(BinaryCode(op, l, r), at, hs, {}, h, h + 1)
  {
    hide Leads;
    if op == And || op == Or {
      var i := if op == And then IJnt(Ahead(|r| + 1)) else IJnn(Ahead(|r| + 1));
      LogicFlows(i, r, at + |l|, y, h);
      hs := LeadsSeq(l, [i] + r, at, x, [h + 1] + y, {}, h, h + 1, h + 1);
      Assoc(l, [i], r);
    } else {
      var z := LeadsSeq(l, r, at, x, y, {}, h, h + 1, h + 2);
      hs := FlowsThen(l + r, IOperate(op), at, z, {}, h, h + 2);
    }
  }

  /** Code after code. */
  lemma {:induction false} LeadsSeq(a: Code, b: Code, at: nat, x: seq<nat>, y: seq<nat>, outs: set<nat>, h: nat,
      h1: nat, h2: nat) returns (hs: seq<nat>)
    requires Leads(a, at, x, outs, h, h1) && Leads(b, at + |a|, y, outs, h1, h2)
    ensures Leads(a + b, at, hs, outs, h, h2)
  {
    hide EdgesAgree;
    FlowsJoin(a, b, at, x, y, outs, h, h1, h2);
    hs := Joined(x, y);
  }

  /** The code of an expression adds one operand, and no jump leaves it. */
  lemma {:induction false} ExprFlows(e: Expr, k: seq<Value>, locals: seq<Name>, at: nat, h: nat) returns (hs: seq<nat>)
    requires ExprFits(e, k, locals) && |ExprCode(e, k, locals)| < 0x1_0000
    ensures Leads(ExprCode(e, k, locals), at, hs, {}, h, h + 1)
    decreases e, 1
  {
    hide Leads, ExprK, ExprsK, ExprsCode, CallCode, BinaryCode;
    match e {
      case Lit(c) => hs := [h, h + 1]; FlowsOne(LitCode(c, k)[0], at, {}, h);
      case Sym(x) => hs := [h, h + 1]; FlowsOne(SymCode(x, k, locals), at, {}, h);
      case Unary(op, a) =>
        var x := ExprFlows(a, k, locals, at, h);
        hs := FlowsThen(ExprCode(a, k, locals), IApply(op), at, x, {}, h, h + 1);
      case Binary(op, l, r) => hs := BinaryExprFlows(op, l, r, k, locals, at, h);
      case Field(obj, f) =>
        var x := ExprFlows(obj, k, locals, at, h);
        hs := FlowsThen(ExprCode(obj, k, locals), IGetConst(U16(|ExprK(obj, k, locals)|)), at, x, {}, h, h + 1);
      case Index(obj, key) => hs := IndexFlows(obj, key, k, locals, at, h);
      case Call(_, _) => hs := CallFlows(e, k, locals, 1, at, h);
      case Method(_, _, _) => hs := CallFlows(e, k, locals, 1, at, h);
      case Array(es) =>
        var x := ExprsFlow(es, k, locals, at, h);
        hs := FlowsThen(ExprsCode(es, k, locals), INewArray(U16(Count(es))), at, x, {}, h, h + Count(es));
    }
  }

  lemma {:induction false} BinaryExprFlows(op: BinaryOp, l: Expr, r: Expr, k: seq<Value>, locals: seq<Name>, at: nat,
      h: nat) returns (hs: seq<nat>)
    requires ExprFits(Binary(op, l, r), k, locals) && |ExprCode(Binary(op, l, r), k, locals)| < 0x1_0000
    ensures Leads(ExprCode(Binary(op, l, r), k, locals), at, hs, {}, h, h + 1)
    decreases Binary(op, l, r), 0
  {
    hide Leads;
    var k1 := ExprK(l, k, locals);
    var a, b := ExprCode(l, k, locals), ExprCode(r, k1, locals);
    BinarySize(op, a, b);
    hide ExprK, BinaryCode;
    var logic := op == And || op == Or;
    var x := ExprFlows(l, k, locals, at, h);
    var y := ExprFlows(r, k1, locals, at + |a| + (if logic then 1 else 0), if logic then h else h + 1);
    hs := BinaryFlows(op, a, b, at, x, h, y);
  }

  lemma {:induction false} IndexFlows(obj: Expr, key: Expr, k: seq<Value>, locals: seq<Name>, at: nat, h: nat)
      returns (hs: seq<nat>)
    requires ExprFits(Index(obj, key), k, locals) && |ExprCode(Index(obj, key), k, locals)| < 0x1_0000
    ensures Leads(ExprCode(Index(obj, key), k, locals), at, hs, {}, h, h + 1)
    decreases Index(obj, key), 0
  {
    hide Leads;
    var k1, a := ExprK(obj, k, locals), ExprCode(obj, k, locals);
    var b := ExprCode(key, k1, locals);
    hide ExprK;
    var x := ExprFlows(obj, k, locals, at, h);
    var y := ExprFlows(key, k1, locals, at + |a|, h + 1);
    var z := LeadsSeq(a, b, at, x, y, {}, h, h + 1, h + 2);
    hs := FlowsThen(a + b, IGetStack, at, z, {}, h, h + 2);
  }

  lemma {:induction false} BinarySize(op: BinaryOp, l: Code, r: Code)
    ensures |BinaryCode(op, l, r)| == |l| + |r| + 1
  {
  }

  /** A call takes the function and the arguments, and leaves what it keeps. */
  lemma {:induction false} CallFlows(e: Expr, k: seq<Value>, locals: seq<Name>, keep: nat, at: nat, h: nat)
      returns (hs: seq<nat>)
    requires (e.Call? || e.Method?) && ExprFits(e, k, locals) && |CallCode(e, k, locals, keep)| < 0x1_0000
    ensures Leads(CallCode(e, k, locals, keep), at, hs, {}, h, h + keep)
    decreases e, 0
  {
    hide Leads, ExprK, ExprsK, ExprsCode, ExprCode;
    var f := if e.Call? then e.func else e.self;
    var k1, a, n := ExprK(f, k, locals), ExprCode(f, k, locals), Count(e.args);
    var x := ExprFlows(f, k, locals, at, h);
    var y := ExprsFlow(e.args, k1, locals, at + |a|, h + 1);
    var b := ExprsCode(e.args, k1, locals);
    var z := LeadsSeq(a, b, at, x, y, {}, h, h + 1, h + 1 + n);
    var i := if e.Call? then ICall(keep, U8(n)) else ISelfCall(keep, U8(n), U12(|ExprsK(e.args, k1, locals)|));
    hs := FlowsThen(a + b, i, at, z, {}, h, h + 1 + n);
  }

  lemma {:induction false} ExprsFlow(es: Exprs, k: seq<Value>, locals: seq<Name>, at: nat, h: nat)
      returns (hs: seq<nat>)
    requires ExprsFit(es, k, locals) && |ExprsCode(es, k, locals)| < 0x1_0000
    ensures Leads(ExprsCode(es, k, locals), at, hs, {}, h, h + Count(es))
    decreases es
  {
    hide Leads, ExprCode, ExprK;
    match es {
      case Empty => hs := [h]; FlowsNone(at, {}, h);
      case More(e, tail) =>
        var k1, a := ExprK(e, k, locals), ExprCode(e, k, locals);
        var x := ExprFlows(e, k, locals, at, h);
        var y := ExprsFlow(tail, k1, locals, at + |a|, h + 1);
        hs := LeadsSeq(a, ExprsCode(tail, k1, locals), at, x, y, {}, h, h + 1, h + 1 + Count(tail));
    }
  }

  // ------------------------------------------------------------------
  // Statements: the stack of the function is empty between them
  // ------------------------------------------------------------------

  /** Where `break` and `continue` lead. */
  function Outs(loop: Loop): set<nat> {
    if loop.Loop? && loop.exit.Some? then {loop.retry, loop.exit.value} else {}
  }

  /** The loop around code from `at` to `end` is known, and near enough. */
  predicate Inside(loop: Loop, at: nat, end: nat) {
    end < 0x1_0000 && (loop.Loop? ==> loop.exit.Some? && loop.retry <= at && end <= loop.exit.value < 0x1_0000)
  }

  ghost predicate Even(code: Code, at: nat, hs: seq<nat>, loop: Loop) {
    Leads(code, at, hs, Outs(loop), 0, 0)
  }

  lemma {:induction false} EvenSeq(a: Code, b: Code, at: nat, x: seq<nat>, y: seq<nat>, loop: Loop)
      returns (hs: seq<nat>)
    requires Even(a, at, x, loop) && Even(b, at + |a|, y, loop)
    ensures Even(a + b, at, hs, loop)
  {
    hide Leads;
    hs := LeadsSeq(a, b, at, x, y, Outs(loop), 0, 0, 0);
  }

  /** An expression inside a statement. */
  lemma {:induction false} OperandFlows(e: Expr, k: seq<Value>, locals: seq<Name>, at: nat, h: nat, outs: set<nat>)
      returns (hs: seq<nat>)
    requires ExprFits(e, k, locals) && |ExprCode(e, k, locals)| < 0x1_0000
    ensures Leads(ExprCode(e, k, locals), at, hs, outs, h, h + 1)
  {
    hs := ExprFlows(e, k, locals, at, h);
    hide EdgesAgree;
    FlowsOuts(ExprCode(e, k, locals), at, hs, {}, outs, h, h + 1);
  }

  lemma {:induction false} AssignFlows(t: Target, e: Expr, k: seq<Value>, locals: seq<Name>, at: nat, outs: set<nat>)
      returns (hs: seq<nat>)
    requires AssignFits(t, e, k, locals) && |AssignCode(t, e, k, locals)| < 0x1_0000
    ensures Leads(AssignCode(t, e, k, locals), at, hs, outs, 0, 0)
  {
    hide Leads, ExprCode, ExprK, ExprFits;
    match t {
      case ToSym(x) =>
        var y := OperandFlows(e, k, locals, at, 0, outs);
        hs := FlowsThen(ExprCode(e, k, locals), StoreCode(x, ExprK(e, k, locals), locals), at, y, outs, 0, 1);
      case ToField(obj, f) =>
        var k1, a := ExprK(obj, k, locals), ExprCode(obj, k, locals);
        var b := ExprCode(e, k1, locals);
        var x := OperandFlows(obj, k, locals, at, 0, outs);
        var y := OperandFlows(e, k1, locals, at + |a|, 1, outs);
        var z := LeadsSeq(a, b, at, x, y, outs, 0, 1, 2);
        hs := FlowsThen(a + b, ISetConst(U16(|ExprK(e, k1, locals)|)), at, z, outs, 0, 2);
      case ToIndex(obj, key) => hs := SetIndexFlows(obj, key, e, k, locals, at, outs);
    }
  }

  lemma {:induction false} SetIndexFlows(obj: Expr, key: Expr, e: Expr, k: seq<Value>, locals: seq<Name>, at: nat,
      outs: set<nat>) returns (hs: seq<nat>)
    requires AssignFits(ToIndex(obj, key), e, k, locals) && |AssignCode(ToIndex(obj, key), e, k, locals)| < 0x1_0000
    ensures Leads(AssignCode(ToIndex(obj, key), e, k, locals), at, hs, outs, 0, 0)
  {
    hide Leads, ExprCode, ExprK, ExprFits;
    var k1, a := ExprK(obj, k, locals), ExprCode(obj, k, locals);
    var k2, b := ExprK(key, k1, locals), ExprCode(key, k1, locals);
    var c := ExprCode(e, k2, locals);
    var x := OperandFlows(obj, k, locals, at, 0, outs);
    var y := OperandFlows(key, k1, locals, at + |a|, 1, outs);
    var z := OperandFlows(e, k2, locals, at + |a + b|, 2, outs);
    var u := LeadsSeq(a, b, at, x, y, outs, 0, 1, 2);
    var v := LeadsSeq(a + b, c, at, u, z, outs, 0, 2, 3);
    hs := FlowsThen(a + b + c, ISetStack, at, v, outs, 0, 3);
  }

  lemma {:induction false} DeclsFlow(ds: Decls, k: seq<Value>, locals: seq<Name>, at: nat, outs: set<nat>)
      returns (hs: seq<nat>)
    requires DeclsFit(ds, k, locals) && |DeclsCode(ds, k, locals)| < 0x1_0000
    ensures Leads(DeclsCode(ds, k, locals), at, hs, outs, 0, 0)
    decreases ds
  {
    hide Leads, ExprCode, ExprK, ExprFits;
    match ds {
      case NoDecl => hs := [0]; FlowsNone(at, outs, 0);
      case Decl(x, None, rest) => hs := DeclsFlow(rest, k, locals + [x], at, outs);
      case Decl(x, Some(e), rest) =>
        var l := locals + [x];
        var a, k1 := ExprCode(e, k, l), ExprK(e, k, l);
        var y := OperandFlows(e, k, l, at, 0, outs);
        var z := FlowsThen(a, IStoreLocal(U16(|locals|)), at, y, outs, 0, 1);
        var u := DeclsFlow(rest, k1, l, at + |a| + 1, outs);
        hs := LeadsSeq(a + [IStoreLocal(U16(|locals|))], DeclsCode(rest, k1, l), at, z, u, outs, 0, 0, 0);
    }
  }

  /** A jump to a place outside, or a placeholder. */
  lemma {:induction false} JumpFlows(i: Inst, at: nat, loop: Loop)
    requires i.IPanic? ||
      (i.IJmp? && var t := VmMachine.Target(at, i.to_); t.Some? && t.value in Outs(loop))
    ensures Even([i], at, [0, 0], loop)
  {
  }

  /** A condition that nothing follows, or whose jump was left out. */
  lemma {:induction false} LastGuardFlows(i: Inst, b: Code, at: nat, y: seq<nat>, loop: Loop)
    requires (i.IPanic? || i == IJne(Ahead(|b| + 1))) && |b| + 1 < 0x1_0000 && Even(b, at + 1, y, loop)
    ensures Leads([i] + b, at, [1] + y, Outs(loop), 1, 0)
  {
    var hs := [1] + y;
    assert hs[|b| + 1] == y[|b|];
    assert EdgesAgree(i, at, 1, at, hs, Outs(loop));
    FlowsCons(i, b, at, y, Outs(loop), 1, 0, 0);
  }

  /** A condition whose block ends in a jump over what follows. */
  lemma {:induction false} GuardFlowsOn(b: Code, r: Code, at: nat, y: seq<nat>, z: seq<nat>, loop: Loop)
      returns (hs: seq<nat>)
    requires |b| + |r| + 2 < 0x1_0000 && Even(b, at + 1, y, loop) && Even(r, at + |b| + 2, z, loop)
    ensures Leads([IJne(Ahead(|b| + 2))] + (b + ([IJmp(Ahead(|r| + 1))] + r)), at, hs, Outs(loop), 1, 0)
  {
    var i, j := IJne(Ahead(|b| + 2)), IJmp(Ahead(|r| + 1));
    var p := at + |b| + 1;
    assert ([0] + z)[|r| + 1] == z[|r|];
    assert EdgesAgree(j, p, 0, p, [0] + z, Outs(loop));
    FlowsCons(j, r, p, z, Outs(loop), 0, 0, 0);
    FlowsJoin(b, [j] + r, at + 1, y, [0] + z, Outs(loop), 0, 0, 0);
    var u := Joined(y, [0] + z);
    hs := [1] + u;
    assert u[|b| + 1] == ([0] + z)[1] == z[0] == 0;
    assert hs[|b| + 2] == 0;
    assert EdgesAgree(i, at, 1, at, hs, Outs(loop));
    FlowsCons(i, b + ([j] + r), at, u, Outs(loop), 1, 0, 0);
  }

  lemma {:induction false} GuardedFlows(c: Code, b: Code, r: Option<Code>, first: bool, at: nat, x: seq<nat>,
      y: seq<nat>, z: seq<nat>, loop: Loop) returns (hs: seq<nat>)
    requires |Guarded(c, b, r, first)| < 0x1_0000
    requires Leads(c, at, x, Outs(loop), 0, 1) && Even(b, at + |c| + 1, y, loop)
    requires r.Some? ==> Even(r.value, at + |c| + |b| + 2, z, loop)
    ensures Even(Guarded(c, b, r, first), at, hs, loop)
  {
    hide Leads;
    match r {
      case None =>
        var i := if first then IJne(Ahead(|b| + 1)) else IPanic;
        LastGuardFlows(i, b, at + |c|, y, loop);
        hs := LeadsSeq(c, [i] + b, at, x, [1] + y, Outs(loop), 0, 1, 0);
        Assoc(c, [i], b);
      case Some(r) =>
        var i, j := IJne(Ahead(|b| + 2)), IJmp(Ahead(|r| + 1));
        var u := GuardFlowsOn(b, r, at + |c|, y, z, loop);
        hs := LeadsSeq(c, [i] + (b + ([j] + r)), at, x, u, Outs(loop), 0, 1, 0);
        assert c + [i] + b + [j] + r == c + ([i] + (b + ([j] + r)));
    }
  }

  /** An endless loop. */
  lemma {:induction false} ForeverFlows(b: Code, at: nat, y: seq<nat>, loop: Loop) returns (hs: seq<nat>)
    requires |b| + 1 < 0x1_0000 && Even(b, at, y, Shut(at, at + |b| + 1))
    ensures Even(ForeverCode(b), at, hs, loop)
  {
    var outs := Outs(Shut(at, at + |b| + 1));
    JumpFlows(IJmp(Back(|b|)), at + |b|, Shut(at, at + |b| + 1));
    FlowsJoin(b, [IJmp(Back(|b|))], at, y, [0, 0], outs, 0, 0, 0);
    hs := Joined(y, [0, 0]);
    hide EdgesAgree;
    FlowsOuts(ForeverCode(b), at, hs, outs, Outs(loop), 0, 0);
  }

  /** What a round of a loop begins with. */
  function Turn(it: nat, n: nat, store: Inst): Code {
    [IPushLocal(U16(it)), ICall(1, 0), IForeach(Ahead(n + 3)), store]
  }

  lemma {:induction false} TurnFlows(it: nat, n: nat, store: Inst, at: nat)
    requires n + 3 < 0x1_0000 && (store.IStoreLocal? || store.IStoreGlobal?)
    ensures Even(Turn(it, n, store), at, [0, 1, 1, 1, 0], Shut(at, at + n + 5))
  {
  }

  /** The rounds of a loop, which begin and end with an empty stack. */
  lemma {:induction false} RoundsFlow(it: nat, store: Inst, b: Code, at: nat, y: seq<nat>, loop: Loop)
      returns (hs: seq<nat>)
    requires |b| + 5 < 0x1_0000 && (store.IStoreLocal? || store.IStoreGlobal?)
    requires Even(b, at + 4, y, Shut(at, at + |b| + 5))
    ensures Even(Turn(it, |b|, store) + b + [IJmp(Back(|b| + 4))], at, hs, loop)
  {
    var own, turn, back := Shut(at, at + |b| + 5), Turn(it, |b|, store), [IJmp(Back(|b| + 4))];
    TurnFlows(it, |b|, store, at);
    JumpFlows(back[0], at + 4 + |b|, own);
    hide EdgesAgree, Flows;
    var u := EvenSeq(turn, b, at, [0, 1, 1, 1, 0], y, own);
    hs := EvenSeq(turn + b, back, at, u, [0, 0], own);
    EndsLevel(turn + b + back, at, hs, Outs(own), 0, 0);
    FlowsOuts(turn + b + back, at, hs, Outs(own), Outs(loop), 0, 0);
  }

  lemma {:induction false} EndsLevel(code: Code, at: nat, hs: seq<nat>, outs: set<nat>, h: nat, h1: nat)
    requires Leads(code, at, hs, outs, h, h1)
    ensures |hs| == |code| + 1 && hs[0] == h && hs[|code|] == h1
  {
  }

  lemma {:induction false} ForInFlows(e: Code, it: nat, store: Inst, b: Code, at: nat, x: seq<nat>, y: seq<nat>,
      loop: Loop) returns (hs: seq<nat>)
    requires |ForInCode(e, it, store, b)| < 0x1_0000 && (store.IStoreLocal? || store.IStoreGlobal?)
    requires Leads(e, at, x, Outs(loop), 0, 1) && Even(b, at + |e| + 5, y, Shut(at + |e| + 1, at + |e| + |b| + 6))
    ensures Even(ForInCode(e, it, store, b), at, hs, loop)
  {
    hide Leads;
    var first, rounds := e + [IStoreLocal(U16(it))], Turn(it, |b|, store) + b + [IJmp(Back(|b| + 4))];
    var u := FlowsThen(e, IStoreLocal(U16(it)), at, x, Outs(loop), 0, 1);
    var v := RoundsFlow(it, store, b, at + |e| + 1, y, loop);
    hs := EvenSeq(first, rounds, at, u, v, loop);
    assert first + rounds == ForInCode(e, it, store, b);
  }

  // ------------------------------------------------------------------
  // All statements
  // ------------------------------------------------------------------

  lemma {:induction false} StmtFlows(s: Stmt, k: seq<Value>, sc: Scope, at: nat, loop: Loop) returns (hs: seq<nat>)
    requires StmtFits(s, k, sc) && Inside(loop, at, at + |StmtCode(s, k, sc, at, loop)|)
    ensures Even(StmtCode(s, k, sc, at, loop), at, hs, loop)
    decreases s, 1
  {
    hide Even, Leads, ExprCode, ExprK, CallCode, AssignCode, DeclsCode, GuardCode, LoopCode;
    match s {
      case Nop => hs := [0]; NopFlows(at, loop);
      case Assign(t, e) =>
        hs := AssignFlows(t, e, k, sc.locals, at, Outs(loop));
        EvenIs(AssignCode(t, e, k, sc.locals), at, hs, loop);
      case DoCall(f, args) => hs := DoFlows(Call(f, args), k, sc.locals, at, loop);
      case DoMethod(self, m, args) => hs := DoFlows(Method(self, m, args), k, sc.locals, at, loop);
      case Var(ds) =>
        hs := DeclsFlow(ds, k, sc.locals, at, Outs(loop));
        EvenIs(DeclsCode(ds, k, sc.locals), at, hs, loop);
      case Break => hs := [0, 0]; JumpFlows(BreakCode(at, loop), at, loop);
      case Continue => hs := [0, 0]; JumpFlows(ContinueCode(at, loop), at, loop);
      case Return(e) => hs := ReturnFlows(e, k, sc.locals, at, loop);
      case If(g) => hs := GuardFlows(g, k, sc, at, loop, true);
      case Forever(body) =>
        var y := LoopFlows(body, k, sc, at, at);
        hs := ForeverFlows(LoopCode(body, k, sc, at, at), at, y, loop);
      case ForIn(_, _, _, _) => hs := ForFlows(s, k, sc, at, loop);
    }
  }

  lemma {:induction false} NopFlows(at: nat, loop: Loop)
    ensures Even([], at, [0], loop)
  {
  }

  lemma {:induction false} EvenIs(code: Code, at: nat, hs: seq<nat>, loop: Loop)
    requires Leads(code, at, hs, Outs(loop), 0, 0)
    ensures Even(code, at, hs, loop)
  {
  }

  lemma {:induction false} DoFlows(e: Expr, k: seq<Value>, locals: seq<Name>, at: nat, loop: Loop)
      returns (hs: seq<nat>)
    requires (e.Call? || e.Method?) && ExprFits(e, k, locals) && |CallCode(e, k, locals, 0)| < 0x1_0000
    ensures Even(CallCode(e, k, locals, 0), at, hs, loop)
  {
    hide ExprFits, CallCode;
    hs := CallFlows(e, k, locals, 0, at, 0);
    hide EdgesAgree;
    FlowsOuts(CallCode(e, k, locals, 0), at, hs, {}, Outs(loop), 0, 0);
  }

  lemma {:induction false} ReturnFlows(e: Expr, k: seq<Value>, locals: seq<Name>, at: nat, loop: Loop)
      returns (hs: seq<nat>)
    requires ExprFits(e, k, locals) && |ExprCode(e, k, locals)| < 0x1_0000
    ensures Even(ExprCode(e, k, locals) + [IRet(1)], at, hs, loop)
  {
    var a := ExprCode(e, k, locals);
    var x := OperandFlows(e, k, locals, at, 0, Outs(loop));
    assert Leads([IRet(1)], at + |a|, [1, 0], Outs(loop), 1, 0);
    hide ExprCode;
    hs := LeadsSeq(a, [IRet(1)], at, x, [1, 0], Outs(loop), 0, 1, 0);
  }

  lemma {:induction false} BlockFlows(b: Block, k: seq<Value>, sc: Scope, at: nat, loop: Loop) returns (hs: seq<nat>)
    requires BlockFits(b, k, sc) && Inside(loop, at, at + |BlockCode(b, k, sc, at, loop)|)
    ensures Even(BlockCode(b, k, sc, at, loop), at, hs, loop)
    decreases b, 1
  {
    hide Even, StmtCode, StmtK, StmtScope, StmtFits;
    match b {
      case Done => hs := [0]; NopFlows(at, loop);
      case Then(s, tail) =>
        var a := StmtCode(s, k, sc, at, loop);
        var x := StmtFlows(s, k, sc, at, loop);
        var y := BlockFlows(tail, StmtK(s, k, sc), StmtScope(s, sc), at + |a|, loop);
        hs := EvenSeq(a, BlockCode(tail, StmtK(s, k, sc), StmtScope(s, sc), at + |a|, loop), at, x, y, loop);
    }
  }

  lemma {:induction false} LoopFlows(body: Block, k: seq<Value>, sc: Scope, at: nat, retry: nat) returns (hs: seq<nat>)
    requires BlockFits(body, k, sc) && retry <= at && at + |LoopCode(body, k, sc, at, retry)| + 1 < 0x1_0000
    ensures Even(LoopCode(body, k, sc, at, retry), at, hs, Shut(retry, at + |LoopCode(body, k, sc, at, retry)| + 1))
    decreases body, 2
  {
    hide Even, BlockCode, BlockFits;
    var size := |BlockCode(body, k, sc, at, Loop(retry, None))|;
    var own := Shut(retry, at + size + 1);
    BlockAnyPlace(body, k, sc, at, Loop(retry, None), at, own);
    hs := BlockFlows(body, k, sc, at, own);
  }

  lemma {:induction false} ForFlows(s: Stmt, k: seq<Value>, sc: Scope, at: nat, loop: Loop) returns (hs: seq<nat>)
    requires s.ForIn? && StmtFits(s, k, sc) && Inside(loop, at, at + |StmtCode(s, k, sc, at, loop)|)
    ensures Even(StmtCode(s, k, sc, at, loop), at, hs, loop)
    decreases s, 0
  {
    hide Even, Leads, LoopCode, ExprCode, ExprK, ExprFits, BlockFits, SymK;
    var sc1 := DeclareIf(s.declare, sc, s.name);
    var sc2 := BodyScope(sc1);
    var e, k1 := ExprCode(s.iter, k, sc1.locals), ExprK(s.iter, k, sc1.locals);
    var store := StoreCode(s.name, k1, sc2.locals);
    var p := at + |e| + 5;
    var b := LoopCode(s.body, SymK(s.name, k1, sc2.locals), sc2, p, at + |e| + 1);
    var y := LoopFlows(s.body, SymK(s.name, k1, sc2.locals), sc2, p, at + |e| + 1);
    var x := OperandFlows(s.iter, k, sc1.locals, at, 0, Outs(loop));
    hs := ForInFlows(e, |sc1.locals|, store, b, at, x, y, loop);
  }

  lemma {:induction false} ChainFlows(c: Chain, k: seq<Value>, sc: Scope, at: nat, loop: Loop) returns (hs: seq<nat>)
    requires ChainFits(c, k, sc) && Inside(loop, at, at + |ChainCode(c, k, sc, at, loop)|)
    ensures Even(ChainCode(c, k, sc, at, loop), at, hs, loop)
    decreases c, 1
  {
    hide Even;
    match c {
      case Fi => hs := [0]; NopFlows(at, loop);
      case Else(b) => hs := BlockFlows(b, k, sc, at, loop);
      case Elif(g) => hs := GuardFlows(g, k, sc, at, loop, false);
    }
  }

  lemma {:induction false} GuardFlows(g: Guard, k: seq<Value>, sc: Scope, at: nat, loop: Loop, first: bool)
      returns (hs: seq<nat>)
    requires GuardFits(g, k, sc) && Inside(loop, at, at + |GuardCode(g, k, sc, at, loop, first)|)
    ensures Even(GuardCode(g, k, sc, at, loop, first), at, hs, loop)
    decreases g, 1
  {
    hide Even, Leads, ExprCode, ExprK, ExprFits, BlockCode, BlockK, BlockScope, BlockFits, ChainCode, ChainFits;
    var c, k1 := ExprCode(g.cond, k, sc.locals), ExprK(g.cond, k, sc.locals);
    var b := BlockCode(g.block, k1, sc, at + |c| + 1, loop);
    var k2, sc2, q := BlockK(g.block, k1, sc), BlockScope(g.block, sc), at + |c| + |b| + 2;
    var r := ChainCode(g.rest, k2, sc2, q, loop);
    var x := OperandFlows(g.cond, k, sc.locals, at, 0, Outs(loop));
    var y := BlockFlows(g.block, k1, sc, at + |c| + 1, loop);
    var z := [0];
    if !g.rest.Fi? { z := ChainFlows(g.rest, k2, sc2, q, loop); }
    hs := GuardedFlows(c, b, if g.rest.Fi? then None else Some(r), first, at, x, y, z, loop);
  }
}
