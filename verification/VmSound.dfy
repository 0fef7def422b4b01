/** Emitted code is well formed: no placeholder is left but that of an open `elif`, jumps land inside the code,
    and the operand stack has one height at each instruction, over all runs. */
module VmSound {
  import opened Basics
  import opened ScriptSyntax
  import opened Runtime
  import opened ScriptMeaning
  import opened VmCode
  import opened VmMachine
  import opened VmStmts
  import opened VmSize
  import opened VmLists
  import opened VmHeights
  import opened VmCorrect

  // ------------------------------------------------------------------
  // Placeholders
  // ------------------------------------------------------------------

  lemma {:induction false} ExprNoPanic(e: Expr, k: seq<Value>, locals: seq<Name>)
    ensures IPanic !in ExprCode(e, k, locals)
    decreases e, 1
  {
    hide ExprK, ExprsK, ExprsCode, CallCode;
    match e {
      case Lit(_) | Sym(_) =>
      case Unary(_, a) => ExprNoPanic(a, k, locals);
      case Binary(_, l, r) =>
        ExprNoPanic(l, k, locals);
        ExprNoPanic(r, ExprK(l, k, locals), locals);
      case Field(obj, _) => ExprNoPanic(obj, k, locals);
      case Index(obj, key) =>
        ExprNoPanic(obj, k, locals);
        ExprNoPanic(key, ExprK(obj, k, locals), locals);
      case Call(_, _) => CallNoPanic(e, k, locals, 1);
      case Method(_, _, _) => CallNoPanic(e, k, locals, 1);
      case Array(es) => ExprsNoPanic(es, k, locals);
    }
  }

  lemma {:induction false} CallNoPanic(e: Expr, k: seq<Value>, locals: seq<Name>, keep: nat)
    requires e.Call? || e.Method?
    ensures IPanic !in CallCode(e, k, locals, keep)
    decreases e, 0
  {
    hide ExprK, ExprsK, ExprsCode, ExprCode;
    var f := if e.Call? then e.func else e.self;
    ExprNoPanic(f, k, locals);
    ExprsNoPanic(e.args, ExprK(f, k, locals), locals);
  }

  lemma {:induction false} ExprsNoPanic(es: Exprs, k: seq<Value>, locals: seq<Name>)
    ensures IPanic !in ExprsCode(es, k, locals)
    decreases es
  {
    hide ExprK, ExprCode;
    if es.More? {
      ExprNoPanic(es.head, k, locals);
      ExprsNoPanic(es.tail, ExprK(es.head, k, locals), locals);
    }
  }

  lemma {:induction false} AssignNoPanic(t: Target, e: Expr, k: seq<Value>, locals: seq<Name>)
    ensures IPanic !in AssignCode(t, e, k, locals)
  {
    hide ExprK, ExprCode;
    match t {
      case ToSym(_) => ExprNoPanic(e, k, locals);
      case ToField(obj, _) =>
        ExprNoPanic(obj, k, locals);
        ExprNoPanic(e, ExprK(obj, k, locals), locals);
      case ToIndex(obj, key) =>
        var k1 := ExprK(obj, k, locals);
        ExprNoPanic(obj, k, locals);
        ExprNoPanic(key, k1, locals);
        ExprNoPanic(e, ExprK(key, k1, locals), locals);
    }
  }

  lemma {:induction false} DeclsNoPanic(ds: Decls, k: seq<Value>, locals: seq<Name>)
    ensures IPanic !in DeclsCode(ds, k, locals)
    decreases ds
  {
    hide ExprK, ExprCode;
    match ds {
      case NoDecl =>
      case Decl(x, None, rest) => DeclsNoPanic(rest, k, locals + [x]);
      case Decl(x, Some(e), rest) =>
        ExprNoPanic(e, k, locals + [x]);
        DeclsNoPanic(rest, ExprK(e, k, locals + [x]), locals + [x]);
    }
  }

  /** A placeholder is left in the code of a statement exactly if a chain in it is open. */
  lemma {:induction false} StmtPanics(s: Stmt, k: seq<Value>, sc: Scope, at: nat, loop: Loop)
    requires StmtEnclosed(s, loop.Loop?) && Inside(loop, at, at + |StmtCode(s, k, sc, at, loop)|)
    ensures IPanic in StmtCode(s, k, sc, at, loop) <==> !StmtClosed(s)
    decreases s, 1
  {
    hide ExprCode, ExprK, CallCode, AssignCode, DeclsCode, GuardCode, LoopCode;
    match s {
      case Nop | Break | Continue =>
      case Assign(t, e) => AssignNoPanic(t, e, k, sc.locals);
      case DoCall(f, args) => CallNoPanic(Call(f, args), k, sc.locals, 0);
      case DoMethod(self, m, args) => CallNoPanic(Method(self, m, args), k, sc.locals, 0);
      case Var(ds) => DeclsNoPanic(ds, k, sc.locals);
      case Return(e) => ExprNoPanic(e, k, sc.locals);
      case If(g) => GuardPanics(g, k, sc, at, loop, true);
      case Forever(body) => LoopPanics(body, k, sc, at, at);
      case ForIn(_, _, _, _) => ForPanics(s, k, sc, at, loop);
    }
  }

  lemma {:induction false} BlockPanics(b: Block, k: seq<Value>, sc: Scope, at: nat, loop: Loop)
    requires BlockEnclosed(b, loop.Loop?) && Inside(loop, at, at + |BlockCode(b, k, sc, at, loop)|)
    ensures IPanic in BlockCode(b, k, sc, at, loop) <==> !BlockClosed(b)
    decreases b, 1
  {
    hide StmtCode, StmtK, StmtScope, BlockCode, StmtClosed, StmtEnclosed;
    if b.Done? {
      DoneShape(k, sc, at, loop);
    } else {
      ThenCode(b.head, b.tail, k, sc, at, loop);
      StmtPanics(b.head, k, sc, at, loop);
      BlockPanics(b.tail, StmtK(b.head, k, sc), StmtScope(b.head, sc), at + |StmtCode(b.head, k, sc, at, loop)|, loop);
    }
  }

  lemma {:induction false} LoopPanics(body: Block, k: seq<Value>, sc: Scope, at: nat, retry: nat)
    requires BlockEnclosed(body, true) && retry <= at && at + |LoopCode(body, k, sc, at, retry)| + 1 < 0x1_0000
    ensures IPanic in LoopCode(body, k, sc, at, retry) <==> !BlockClosed(body)
    decreases body, 2
  {
    hide BlockCode;
    var size := |BlockCode(body, k, sc, at, Loop(retry, None))|;
    var own := Shut(retry, at + size + 1);
    BlockAnyPlace(body, k, sc, at, Loop(retry, None), at, own);
    BlockPanics(body, k, sc, at, own);
  }

  lemma {:induction false} ForPanics(s: Stmt, k: seq<Value>, sc: Scope, at: nat, loop: Loop)
    requires s.ForIn? && StmtEnclosed(s, loop.Loop?) && Inside(loop, at, at + |StmtCode(s, k, sc, at, loop)|)
    ensures IPanic in StmtCode(s, k, sc, at, loop) <==> !StmtClosed(s)
    decreases s, 0
  {
    hide LoopCode, ExprCode, ExprK, SymK;
    var sc1 := DeclareIf(s.declare, sc, s.name);
    var sc2 := BodyScope(sc1);
    var e, k1 := ExprCode(s.iter, k, sc1.locals), ExprK(s.iter, k, sc1.locals);
    ExprNoPanic(s.iter, k, sc1.locals);
    LoopPanics(s.body, SymK(s.name, k1, sc2.locals), sc2, at + |e| + 5, at + |e| + 1);
  }

  lemma {:induction false} ChainPanics(c: Chain, k: seq<Value>, sc: Scope, at: nat, loop: Loop)
    requires ChainEnclosed(c, loop.Loop?) && Inside(loop, at, at + |ChainCode(c, k, sc, at, loop)|)
    ensures IPanic in ChainCode(c, k, sc, at, loop) <==> !ChainClosed(c)
    decreases c, 1
  {
    match c {
      case Fi =>
      case Else(b) => BlockPanics(b, k, sc, at, loop);
      case Elif(g) => GuardPanics(g, k, sc, at, loop, false);
    }
  }

  lemma {:induction false} GuardPanics(g: Guard, k: seq<Value>, sc: Scope, at: nat, loop: Loop, first: bool)
    requires GuardEnclosed(g, loop.Loop?) && Inside(loop, at, at + |GuardCode(g, k, sc, at, loop, first)|)
    ensures IPanic in GuardCode(g, k, sc, at, loop, first) <==> !GuardClosed(g, first)
    decreases g, 1
  {
    hide ExprCode, ExprK, BlockCode, BlockK, BlockScope, ChainCode;
    var c, k1 := ExprCode(g.cond, k, sc.locals), ExprK(g.cond, k, sc.locals);
    var b := BlockCode(g.block, k1, sc, at + |c| + 1, loop);
    ExprNoPanic(g.cond, k, sc.locals);
    BlockPanics(g.block, k1, sc, at + |c| + 1, loop);
    if !g.rest.Fi? {
      ChainPanics(g.rest, BlockK(g.block, k1, sc), BlockScope(g.block, sc), at + |c| + |b| + 2, loop);
    }
  }

  // ------------------------------------------------------------------
  // Chunks
  // ------------------------------------------------------------------

  /** The code of a body: a height for each instruction that agrees over all edges, no jump out of the code, and
      no placeholder unless a chain is open. */
  lemma {:induction false} ChunkSound(tokens: seq<Token>, params: seq<Name>, fors: nat, b: Block, c: Chunk)
    returns (hs: seq<nat>)
    requires Emits(tokens, params, fors, b, c)
    ensures Flows(c.inst, 0, hs, {}) && hs[0] == 0 && (IPanic in c.inst <==> !BlockClosed(b))
  {
    hide Emits, BlockFits, BlockCode, BlockK, BlockScope, BlockRoomy;
    EmitsBody(tokens, params, fors, b, c);
    var sc := Scope(params, fors);
    var code := BlockCode(b, [], sc, 0, NoLoop);
    hs := BlockFlows(b, [], sc, 0, NoLoop);
    BlockPanics(b, [], sc, 0, NoLoop);
    if Ended(code) != code {
      assert Leads([IRet(0)], |code|, [0, 0], {}, 0, 0);
      hs := LeadsSeq(code, [IRet(0)], 0, hs, [0, 0], {}, 0, 0, 0);
    }
  }

  /** The state of a run over the operands `base` of the callers, which stay where they are. */
  ghost predicate Balanced(c: Chunk, hs: seq<nat>, base: seq<Value>, s: Vm) {
    match s
    case Running(pc, stack, _, _) => pc <= |c.inst| < |hs| && base <= stack && |stack| == |base| + hs[pc]
    case Finished(stack, n, _) => base <= stack && |base| + n <= |stack|
    case Crashed(_) => true
  }

  /** What an instruction does to the operand stack. */
  ghost predicate Shapes(pc: nat, stack: seq<Value>, i: Inst, r: Vm)
    requires Needs(i) <= |stack|
  {
    match r
    case Running(q, s, _, _) =>
      Popped(stack, Needs(i)) <= s &&
      ((Falls(i) && q == pc + 1 && |s| == |stack| - Needs(i) + Leaves(i)) ||
       (JumpOf(i).Some? && VmMachine.Target(pc, JumpOf(i).value) == Some(q) && |s| == |stack| - Needs(i) + Carries(i)))
    case Finished(s, n, _) => s == stack && n == Needs(i)
    case Crashed(_) => true
  }

  lemma {:induction false} StepShape(rt: Runtime, c: Chunk, pc: nat, stack: seq<Value>, locals: seq<Value>, w: World,
      i: Inst)
    requires Needs(i) <= |stack|
    ensures Shapes(pc, stack, i, StepAt(rt, c, pc, stack, locals, w, i))
  {
    hide Operate, Apply, Truth, Replaced, VmMachine.Called, Changed;
    match i {
      case ICall(keep, argc) =>
        var below := Popped(stack, argc + 1);
        CalledShape(pc, stack, i, keep, locals, rt.call(w, Room(below), Top(stack, argc), stack[|stack| - argc..]));
      case ISelfCall(keep, argc, j) => SelfShape(rt, c, pc, stack, locals, w, i);
      case IOperate(op) =>
        ReplacedShape(pc, stack, i, locals, Operate(rt, w, op, Top(stack, 1), Top(stack, 0)));
      case IApply(op) => ReplacedShape(pc, stack, i, locals, Apply(rt, w, op, Top(stack, 0)));
      case IGetStack => ReplacedShape(pc, stack, i, locals, rt.get(w, Top(stack, 1), Top(stack, 0)));
      case IGetConst(j) => if j < |c.kval| { ReplacedShape(pc, stack, i, locals, rt.get(w, Top(stack, 0), c.kval[j])); }
      case INewArray(n) => ReplacedShape(pc, stack, i, locals, rt.newArray(w, stack[|stack| - n..]));
      case ISetStack =>
        ChangedShape(pc, stack, i, locals, rt.put(w, Top(stack, 2), Top(stack, 1), Top(stack, 0)));
      case ISetConst(j) =>
        if j < |c.kval| { ChangedShape(pc, stack, i, locals, rt.put(w, Top(stack, 1), c.kval[j], Top(stack, 0))); }
      case IPanic | IStoreLocal(_) | IStoreGlobal(_) | IRet(_) =>
      case IJne(_) | IJnt(_) | IJnn(_) | IJmp(_) | IForeach(_) =>
      case IPushConst(_) | IPushLocal(_) | IPushGlobal(_) | IPushBool(_) | IPushNil =>
    }
  }

  lemma {:induction false} ReplacedShape(pc: nat, stack: seq<Value>, i: Inst, locals: seq<Value>, r: Outcome<Value>)
    requires Needs(i) <= |stack| && Falls(i) && Leaves(i) == 1
    ensures Shapes(pc, stack, i, Replaced(pc, stack, Needs(i), locals, r))
  {
  }

  lemma {:induction false} ChangedShape(pc: nat, stack: seq<Value>, i: Inst, locals: seq<Value>, r: Outcome<()>)
    requires Needs(i) <= |stack| && Falls(i) && Leaves(i) == 0
    ensures Shapes(pc, stack, i, Changed(pc, Popped(stack, Needs(i)), locals, r))
  {
  }

  lemma {:induction false} CalledShape(pc: nat, stack: seq<Value>, i: Inst, keep: nat, locals: seq<Value>,
      r: Outcome<seq<Value>>)
    requires Needs(i) <= |stack| && Falls(i) && Leaves(i) == keep
    ensures Shapes(pc, stack, i, VmMachine.Called(pc, Popped(stack, Needs(i)), keep, locals, r))
  {
  }

  lemma {:induction false} SelfShape(rt: Runtime, c: Chunk, pc: nat, stack: seq<Value>, locals: seq<Value>, w: World,
      i: Inst)
    requires i.ISelfCall? && Needs(i) <= |stack|
    ensures Shapes(pc, stack, i, StepAt(rt, c, pc, stack, locals, w, i))
  {
    hide VmMachine.Called;
    if i.i < |c.kval| {
      var below := Popped(stack, i.argc + 1);
      match rt.get(w, Top(stack, i.argc), c.kval[i.i]) {
        case Panics(_) =>
        case Gives(f, w1) =>
          CalledShape(pc, stack, i, i.keep, locals, rt.call(w1, Room(below), f, stack[|stack| - i.argc - 1..]));
      }
    }
  }

  /** No step takes operands that are not there, or touches those of the callers. */
  lemma {:induction false} StepBalanced(rt: Runtime, c: Chunk, hs: seq<nat>, base: seq<Value>, s: Vm)
    requires Flows(c.inst, 0, hs, {}) && Balanced(c, hs, base, s)
    ensures Balanced(c, hs, base, Step(rt, c, s))
    ensures s.Running? && s.pc < |c.inst| ==> Needs(c.inst[s.pc]) <= |s.stack| - |base|
  {
    hide StepAt, Needs, Falls, Leaves, JumpOf, Carries;
    if s.Running? && s.pc < |c.inst| {
      assert EdgesAgree(c.inst[s.pc], 0 + s.pc, hs[s.pc], 0, hs, {});
      StepShape(rt, c, s.pc, s.stack, s.locals, s.w, c.inst[s.pc]);
      assert base <= Popped(s.stack, Needs(c.inst[s.pc]));
    }
  }

  /** Over all runs of a compiled body: the operand stack is as high as the place in the code says, and holds
      the operands of the callers below. */
  lemma {:induction false} RunBalanced(rt: Runtime, c: Chunk, hs: seq<nat>, base: seq<Value>, s: Vm, n: nat)
    requires Flows(c.inst, 0, hs, {}) && Balanced(c, hs, base, s)
    ensures Balanced(c, hs, base, Steps(rt, c, s, n))
    decreases n
  {
    hide Step, Flows, Balanced;
    if n > 0 {
      StepBalanced(rt, c, hs, base, s);
      RunBalanced(rt, c, hs, base, Step(rt, c, s), n - 1);
    }
  }

  /** The same for what the compiler emits for a program within the limits, from its first instruction on. */
  lemma {:induction false} CompiledBalanced(rt: Runtime, tokens: seq<Token>, params: seq<Name>, fors: nat, b: Block,
      c: Chunk, st: State, stack: seq<Value>) returns (hs: seq<nat>)
    requires Emits(tokens, params, fors, b, c)
    ensures forall n: nat :: Balanced(c, hs, stack, Steps(rt, c, Entry(c, st, stack), n))
  {
    hide Emits, Steps, EdgesAgree;
    hs := ChunkSound(tokens, params, fors, b, c);
    forall n: nat ensures Balanced(c, hs, stack, Steps(rt, c, Entry(c, st, stack), n)) {
      RunBalanced(rt, c, hs, stack, Entry(c, st, stack), n);
    }
  }
}
