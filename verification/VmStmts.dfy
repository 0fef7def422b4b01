/** The code of statements does what the statements mean. */
module VmStmts {
  import opened Basics
  import opened ScriptSyntax
  import opened Runtime
  import opened ScriptMeaning
  import opened VmCode
  import opened VmMachine
  import opened VmExprs

  // ------------------------------------------------------------------
  // Operand fields are wide enough
  // ------------------------------------------------------------------

  ghost predicate AssignFits(t: Target, e: Expr, k: seq<Value>, locals: seq<Name>) {
    match t
    case ToSym(_) => ExprFits(e, k, locals)
    case ToField(obj, _) => ExprFits(obj, k, locals) && ExprFits(e, ExprK(obj, k, locals), locals)
    case ToIndex(obj, key) =>
      ExprFits(obj, k, locals) && ExprFits(key, ExprK(obj, k, locals), locals) &&
      ExprFits(e, ExprK(key, ExprK(obj, k, locals), locals), locals)
  }

  ghost predicate DeclsFit(ds: Decls, k: seq<Value>, locals: seq<Name>)
    decreases ds
  {
    match ds
    case NoDecl => true
    case Decl(x, None, rest) => DeclsFit(rest, k, locals + [x])
    case Decl(x, Some(e), rest) =>
      ExprFits(e, k, locals + [x]) && DeclsFit(rest, ExprK(e, k, locals + [x]), locals + [x])
  }

  ghost predicate StmtFits(s: Stmt, k: seq<Value>, sc: Scope)
    decreases s
  {
    match s
    case Nop | Break | Continue => true
    case Assign(t, e) => AssignFits(t, e, k, sc.locals)
    case DoCall(f, args) => ExprFits(Call(f, args), k, sc.locals)
    case DoMethod(self, m, args) => ExprFits(Method(self, m, args), k, sc.locals)
    case Var(ds) => DeclsFit(ds, k, sc.locals)
    case Return(e) => ExprFits(e, k, sc.locals)
    case If(g) => GuardFits(g, k, sc)
    case Forever(body) => BlockFits(body, k, sc)
    case ForIn(declare, x, e, body) =>
      var sc1 := DeclareIf(declare, sc, x);
      ExprFits(e, k, sc1.locals) && BlockFits(body, SymK(x, ExprK(e, k, sc1.locals), BodyScope(sc1).locals),
        BodyScope(sc1))
  }

  ghost predicate BlockFits(b: Block, k: seq<Value>, sc: Scope)
    decreases b
  {
    match b
    case Done => true
    case Then(s, tail) => StmtFits(s, k, sc) && BlockFits(tail, StmtK(s, k, sc), StmtScope(s, sc))
  }

  ghost predicate ChainFits(c: Chain, k: seq<Value>, sc: Scope)
    decreases c
  {
    match c
    case Fi => true
    case Else(b) => BlockFits(b, k, sc)
    case Elif(g) => GuardFits(g, k, sc)
  }

  ghost predicate GuardFits(g: Guard, k: seq<Value>, sc: Scope)
    decreases g
  {
    var k1 := ExprK(g.cond, k, sc.locals);
    ExprFits(g.cond, k, sc.locals) && BlockFits(g.block, k1, sc) &&
    ChainFits(g.rest, BlockK(g.block, k1, sc), BlockScope(g.block, sc))
  }

  // ------------------------------------------------------------------
  // Where code stands, and how runs end
  // ------------------------------------------------------------------

  /** A chunk that runs over the operands `stack` of its callers, inside a loop or not. */
  datatype Site = Site(rt: Runtime, c: Chunk, stack: seq<Value>, loop: Loop)

  /** Code from `pc` to `q` is inside the loop of the site. */
  ghost predicate SiteOk(x: Site, pc: nat, q: nat) {
    Fits(x.c) && |x.stack| <= MAX_STACK && q <= |x.c.inst| &&
    (x.loop.Loop? ==> x.loop.exit.Some? && x.loop.retry <= pc && q <= x.loop.exit.value <= |x.c.inst|)
  }

  function FrameAt(x: Site, locals: seq<Name>, loc: Locals): Frame {
    Frame(x.rt, x.c, locals, loc)
  }

  function Start(x: Site, pc: nat, st: State): Vm {
    Running(pc, x.stack, Cells(st.loc, x.c.locals), st.w)
  }

  function Run(x: Site, pc: nat, st: State, n: nat): Vm {
    Steps(x.rt, x.c, Start(x, pc, st), n)
  }

  /** The machine after `n` steps when a statement whose code ends at `q` has ended as `r` says. */
  ghost predicate Ends(x: Site, vm: Vm, n: nat, q: nat, fuel: nat, r: End) {
    match r
    case Normal(st) => vm == Start(x, q, st)
    case Broke(st) => x.loop.Loop? && x.loop.exit.Some? && vm == Start(x, x.loop.exit.value, st)
    case Continued(st) => x.loop.Loop? && n > 0 && vm == Start(x, x.loop.retry, st)
    case Returned(v, w) => vm == Finished(x.stack + [v], 1, w)
    case Panicked(w) => vm == Crashed(w)
    case OutOfFuel => vm.Running? && n >= fuel
  }

  ghost predicate StmtPlaced(x: Site, s: Stmt, k: seq<Value>, sc: Scope, pc: nat) {
    At(x.c, pc, StmtCode(s, k, sc, pc, x.loop)) && StmtK(s, k, sc) <= x.c.kval &&
    StmtScope(s, sc).locals <= x.c.locals && StmtFits(s, k, sc) && StmtEnclosed(s, x.loop.Loop?) &&
    SiteOk(x, pc, pc + |StmtCode(s, k, sc, pc, x.loop)|)
  }

  ghost predicate BlockPlaced(x: Site, b: Block, k: seq<Value>, sc: Scope, pc: nat) {
    At(x.c, pc, BlockCode(b, k, sc, pc, x.loop)) && BlockK(b, k, sc) <= x.c.kval &&
    BlockScope(b, sc).locals <= x.c.locals && BlockFits(b, k, sc) && BlockEnclosed(b, x.loop.Loop?) &&
    SiteOk(x, pc, pc + |BlockCode(b, k, sc, pc, x.loop)|)
  }

  ghost predicate ChainPlaced(x: Site, ch: Chain, k: seq<Value>, sc: Scope, pc: nat) {
    At(x.c, pc, ChainCode(ch, k, sc, pc, x.loop)) && ChainK(ch, k, sc) <= x.c.kval &&
    ChainScope(ch, sc).locals <= x.c.locals && ChainFits(ch, k, sc) && ChainEnclosed(ch, x.loop.Loop?) &&
    SiteOk(x, pc, pc + |ChainCode(ch, k, sc, pc, x.loop)|)
  }

  // ------------------------------------------------------------------
  // Tables only grow
  // ------------------------------------------------------------------

  lemma {:induction false} DeclsKGrow(ds: Decls, k: seq<Value>, locals: seq<Name>)
    ensures k <= DeclsK(ds, k, locals)
    decreases ds
  {
    match ds {
      case NoDecl =>
      case Decl(x, None, rest) => DeclsKGrow(rest, k, locals + [x]);
      case Decl(x, Some(e), rest) =>
        ExprKGrows(e, k, locals + [x]);
        DeclsKGrow(rest, ExprK(e, k, locals + [x]), locals + [x]);
    }
  }

  lemma {:induction false} AssignKGrows(t: Target, e: Expr, k: seq<Value>, locals: seq<Name>)
    ensures k <= AssignK(t, e, k, locals)
  {
    match t {
      case ToSym(_) => ExprKGrows(e, k, locals);
      case ToField(obj, _) =>
        ExprKGrows(obj, k, locals);
        ExprKGrows(e, ExprK(obj, k, locals), locals);
      case ToIndex(obj, key) =>
        ExprKGrows(obj, k, locals);
        ExprKGrows(key, ExprK(obj, k, locals), locals);
        ExprKGrows(e, ExprK(key, ExprK(obj, k, locals), locals), locals);
    }
  }

  lemma {:induction false} StmtKGrows(s: Stmt, k: seq<Value>, sc: Scope)
    ensures k <= StmtK(s, k, sc)
    decreases s
  {
    match s {
      case Nop | Break | Continue =>
      case Assign(t, e) => AssignKGrows(t, e, k, sc.locals);
      case DoCall(f, args) => ExprKGrows(Call(f, args), k, sc.locals);
      case DoMethod(self, m, args) => ExprKGrows(Method(self, m, args), k, sc.locals);
      case Var(ds) => DeclsKGrow(ds, k, sc.locals);
      case Return(e) => ExprKGrows(e, k, sc.locals);
      case If(g) => GuardKGrows(g, k, sc);
      case Forever(body) => BlockKGrows(body, k, sc);
      case ForIn(declare, x, e, body) =>
        var sc1 := DeclareIf(declare, sc, x);
        ExprKGrows(e, k, sc1.locals);
        BlockKGrows(body, SymK(x, ExprK(e, k, sc1.locals), BodyScope(sc1).locals), BodyScope(sc1));
    }
  }

  lemma {:induction false} BlockKGrows(b: Block, k: seq<Value>, sc: Scope)
    ensures k <= BlockK(b, k, sc)
    decreases b
  {
    match b {
      case Done =>
      case Then(s, tail) =>
        StmtKGrows(s, k, sc);
        BlockKGrows(tail, StmtK(s, k, sc), StmtScope(s, sc));
    }
  }

  lemma {:induction false} ChainKGrows(c: Chain, k: seq<Value>, sc: Scope)
    ensures k <= ChainK(c, k, sc)
    decreases c
  {
    match c {
      case Fi =>
      case Else(b) => BlockKGrows(b, k, sc);
      case Elif(g) => GuardKGrows(g, k, sc);
    }
  }

  lemma {:induction false} GuardKGrows(g: Guard, k: seq<Value>, sc: Scope)
    ensures k <= GuardK(g, k, sc)
    decreases g
  {
    var k1 := ExprK(g.cond, k, sc.locals);
    ExprKGrows(g.cond, k, sc.locals);
    BlockKGrows(g.block, k1, sc);
    ChainKGrows(g.rest, BlockK(g.block, k1, sc), BlockScope(g.block, sc));
  }

  // ------------------------------------------------------------------
  // Storing
  // ------------------------------------------------------------------

  lemma {:induction false} CellsStore(loc: Locals, locals: seq<Name>, i: nat, v: Value)
    requires i < |locals| && Distinct(locals)
    ensures Cells(loc[locals[i] := v], locals) == Cells(loc, locals)[i := v]
  {
    var a, b := Cells(loc[locals[i] := v], locals), Cells(loc, locals)[i := v];
    forall j | 0 <= j < |locals| ensures a[j] == b[j] {
      if j < i { assert locals[j] != locals[i]; }
      if i < j { assert locals[j] != locals[i]; }
    }
  }

  lemma {:induction false} StoreStep(x: Site, name: Name, k: seq<Value>, locals: seq<Name>, pc: nat, st: State,
      v: Value)
    requires Fits(x.c) && SymK(name, k, locals) <= x.c.kval && locals <= x.c.locals
    requires pc < |x.c.inst| && x.c.inst[pc] == StoreCode(name, k, locals)
    ensures Step(x.rt, x.c, Running(pc, x.stack + [v], Cells(st.loc, x.c.locals), st.w)) ==
            Start(x, pc + 1, Store(locals, st, name, v))
  {
    assert Popped(x.stack + [v], 1) == x.stack;
    if name in locals {
      var i := Slot(locals, name);
      assert x.c.locals[i] == name;
      CellsStore(st.loc, x.c.locals, i, v);
    }
  }

  lemma {:induction false} LocalStep(x: Site, pc: nat, st: State, i: nat, v: Value)
    requires Fits(x.c) && i < |x.c.locals|
    requires pc < |x.c.inst| && x.c.inst[pc] == IStoreLocal(i)
    ensures Step(x.rt, x.c, Running(pc, x.stack + [v], Cells(st.loc, x.c.locals), st.w)) ==
            Start(x, pc + 1, st.(loc := st.loc[x.c.locals[i] := v]))
  {
    assert Popped(x.stack + [v], 1) == x.stack;
    CellsStore(st.loc, x.c.locals, i, v);
  }

  // ------------------------------------------------------------------
  // Runs
  // ------------------------------------------------------------------

  lemma {:induction false} RunNext(x: Site, pc: nat, st: State, n: nat)
    ensures Run(x, pc, st, n + 1) == Step(x.rt, x.c, Run(x, pc, st, n))
  {
    OneStep(x.rt, x.c, Start(x, pc, st), n);
  }

  lemma {:induction false} RunThen(x: Site, pc: nat, st: State, n: nat, pc1: nat, st1: State, m: nat)
    requires Run(x, pc, st, n) == Start(x, pc1, st1)
    ensures Run(x, pc, st, n + m) == Run(x, pc1, st1, m)
  {
    StepsThen(x.rt, x.c, Start(x, pc, st), n, m);
  }

  /** The value of an expression in a statement. */
  function EvalAt(x: Site, locals: seq<Name>, st: State, e: Expr): (r: Outcome<Value>)
    ensures r.Gives? ==> |x.stack| < MAX_STACK
  {
    Eval(x.rt, locals, st.loc, st.w, Room(x.stack), e)
  }

  ghost predicate ExprAt(x: Site, pc: nat, e: Expr, k: seq<Value>, locals: seq<Name>) {
    At(x.c, pc, ExprCode(e, k, locals)) && ExprK(e, k, locals) <= x.c.kval && ExprFits(e, k, locals) &&
    Fits(x.c) && locals <= x.c.locals && |x.stack| <= MAX_STACK
  }

  /** The machine with a value on top of the operands. */
  function With(x: Site, pc: nat, st: State, r: Outcome<Value>): Vm {
    match r
    case Gives(v, w) => Running(pc, x.stack + [v], Cells(st.loc, x.c.locals), w)
    case Panics(w) => Crashed(w)
  }

  lemma {:induction false} Evaluates(x: Site, pc: nat, st: State, e: Expr, k: seq<Value>, locals: seq<Name>)
      returns (n: nat)
    requires ExprAt(x, pc, e, k, locals)
    ensures Run(x, pc, st, n) == With(x, pc + |ExprCode(e, k, locals)|, st, EvalAt(x, locals, st, e))
  {
    hide At, Fits, ExprCode, ExprK, ExprFits, Steps;
    n := ExprRuns(FrameAt(x, locals, st.loc), e, k, st.w, pc, x.stack);
  }

  // ------------------------------------------------------------------
  // Assignments
  // ------------------------------------------------------------------

  function PutVm(x: Site, pc: nat, st: State, r: Outcome<()>): Vm {
    match r
    case Panics(w) => Crashed(w)
    case Gives(_, w) => Start(x, pc, State(st.loc, w))
  }

  ghost predicate AssignPlaced(x: Site, pc: nat, t: Target, e: Expr, k: seq<Value>, locals: seq<Name>) {
    At(x.c, pc, AssignCode(t, e, k, locals)) && AssignK(t, e, k, locals) <= x.c.kval && AssignFits(t, e, k, locals) &&
    Fits(x.c) && locals <= x.c.locals && |x.stack| <= MAX_STACK
  }

  lemma {:induction false} AssignBasics(x: Site, pc: nat, t: Target, e: Expr, k: seq<Value>, locals: seq<Name>)
    requires AssignPlaced(x, pc, t, e, k, locals)
    ensures Fits(x.c) && locals <= x.c.locals && |x.stack| <= MAX_STACK
  {
    hide At, Fits, AssignCode, AssignK, AssignFits;
  }

  lemma {:induction false} ToSymParts(x: Site, pc: nat, name: Name, e: Expr, k: seq<Value>, locals: seq<Name>)
    requires AssignPlaced(x, pc, ToSym(name), e, k, locals)
    ensures var q := pc + |ExprCode(e, k, locals)|;
      var k1 := ExprK(e, k, locals);
      ExprAt(x, pc, e, k, locals) && q + 1 == pc + |AssignCode(ToSym(name), e, k, locals)| &&
      q < |x.c.inst| && x.c.inst[q] == StoreCode(name, k1, locals) && SymK(name, k1, locals) <= x.c.kval
  {
    hide At, Fits, ExprCode, ExprK, ExprFits, StoreCode;
    var c, i := ExprCode(e, k, locals), StoreCode(name, ExprK(e, k, locals), locals);
    AtParts(x.c, pc, c, [i]);
    AtOne(x.c, pc + |c|, i);
  }

  lemma {:induction false} ToSymRuns(x: Site, pc: nat, st: State, name: Name, e: Expr, k: seq<Value>, locals: seq<Name>,
      fuel: nat) returns (n: nat)
    requires AssignPlaced(x, pc, ToSym(name), e, k, locals)
    ensures Ends(x, Run(x, pc, st, n), n, pc + |AssignCode(ToSym(name), e, k, locals)|, fuel,
              ExecAssign(x.rt, locals, st, Room(x.stack), ToSym(name), e))
  {
    hide AssignPlaced, Fits, ExprAt, AssignCode, ExprCode, ExprK, Run, Step, Eval, Store, StoreCode;
    AssignBasics(x, pc, ToSym(name), e, k, locals);
    ToSymParts(x, pc, name, e, k, locals);
    n := Evaluates(x, pc, st, e, k, locals);
    RunNext(x, pc, st, n);
    var r := EvalAt(x, locals, st, e);
    if r.Gives? {
      StoreStep(x, name, ExprK(e, k, locals), locals, pc + |ExprCode(e, k, locals)|, State(st.loc, r.w), r.v);
      n := n + 1;
    }
  }

  lemma {:induction false} ToFieldShape(obj: Expr, name: Name, e: Expr, k: seq<Value>, locals: seq<Name>)
    ensures var k1 := ExprK(obj, k, locals);
      AssignCode(ToField(obj, name), e, k, locals) ==
        ExprCode(obj, k, locals) + ExprCode(e, k1, locals) + [ISetConst(U16(|ExprK(e, k1, locals)|))] &&
      AssignK(ToField(obj, name), e, k, locals) == ExprK(e, k1, locals) + [Str(name)] &&
      (AssignFits(ToField(obj, name), e, k, locals) ==> ExprFits(obj, k, locals) && ExprFits(e, k1, locals))
  {
    hide ExprCode, ExprK, ExprFits;
  }

  lemma {:induction false} ToFieldParts(x: Site, pc: nat, obj: Expr, name: Name, e: Expr, k: seq<Value>,
      locals: seq<Name>)
    requires AssignPlaced(x, pc, ToField(obj, name), e, k, locals)
    ensures var f := FrameAt(x, locals, map[]);
      var q := pc + TwoSize(f, obj, e, k);
      var i := |ExprK(e, ExprK(obj, k, locals), locals)|;
      TwoPlaced(f, pc, obj, e, k) && FrameOk(f) && q + 1 == pc + |AssignCode(ToField(obj, name), e, k, locals)| &&
      q < |x.c.inst| && x.c.inst[q] == ISetConst(i) && i < |x.c.kval| && x.c.kval[i] == Str(name)
  {
    hide At, Fits, AssignCode, AssignK, AssignFits, ExprCode, ExprK, ExprFits;
    FitsMeans(x.c);
    ToFieldShape(obj, name, e, k, locals);
    var k1 := ExprK(obj, k, locals);
    var a, b := ExprCode(obj, k, locals), ExprCode(e, k1, locals);
    var i := ISetConst(U16(|ExprK(e, k1, locals)|));
    AtParts(x.c, pc, a + b, [i]);
    AtParts(x.c, pc, a, b);
    AtOne(x.c, pc + |a + b|, i);
    ExprKGrows(e, k1, locals);
  }

  lemma {:induction false} TwoAnyLocals(f: Frame, loc: Locals, pc: nat, a: Expr, b: Expr, k: seq<Value>)
    ensures TwoPlaced(f.(loc := loc), pc, a, b, k) == TwoPlaced(f, pc, a, b, k)
    ensures TwoSize(f.(loc := loc), a, b, k) == TwoSize(f, a, b, k)
    ensures FrameOk(f.(loc := loc)) == FrameOk(f)
  {
    hide At, Fits, ExprCode, ExprK, ExprFits;
  }

  lemma {:induction false} SetConstStep(x: Site, pc: nat, st: State, i: nat, o: Value, v: Value)
    requires pc < |x.c.inst| && x.c.inst[pc] == ISetConst(i) && i < |x.c.kval|
    ensures Step(x.rt, x.c, Running(pc, x.stack + [o, v], Cells(st.loc, x.c.locals), st.w)) ==
            PutVm(x, pc + 1, st, x.rt.put(st.w, o, x.c.kval[i], v))
  {
    assert Popped(x.stack + [o, v], 2) == x.stack;
  }

  lemma {:induction false} ToFieldMeans(f: Frame, st: State, stack: seq<Value>, obj: Expr, name: Name, e: Expr)
    requires f.loc == st.loc && |stack| <= MAX_STACK
    ensures ExecAssign(f.rt, f.locals, st, Room(stack), ToField(obj, name), e) ==
      match ValueOf(f, st.w, stack, obj)
      case Panics(w1) => Panicked(w1)
      case Gives(o, w1) =>
        match ValueOf(f, w1, stack + [o], e)
        case Panics(w2) => Panicked(w2)
        case Gives(v, w2) => Put(st.loc, f.rt.put(w2, o, Str(name), v))
  {
    hide Eval, Put;
    var r := ValueOf(f, st.w, stack, obj);
    if r.Gives? { RoomLess(stack, r.v); }
  }

  lemma {:induction false} ToFieldRuns(x: Site, pc: nat, st: State, obj: Expr, name: Name, e: Expr, k: seq<Value>,
      locals: seq<Name>, fuel: nat) returns (n: nat)
    requires AssignPlaced(x, pc, ToField(obj, name), e, k, locals)
    ensures Ends(x, Run(x, pc, st, n), n, pc + |AssignCode(ToField(obj, name), e, k, locals)|, fuel,
              ExecAssign(x.rt, locals, st, Room(x.stack), ToField(obj, name), e))
  {
    hide AssignPlaced, TwoPlaced, TwoSize, FrameOk, AssignCode, ExprK, ExprCode, ExecAssign, ValueOf, Run, Step, After;
    AssignBasics(x, pc, ToField(obj, name), e, k, locals);
    var f := FrameAt(x, locals, st.loc);
    ToFieldParts(x, pc, obj, name, e, k, locals);
    TwoAnyLocals(FrameAt(x, locals, map[]), st.loc, pc, obj, e, k);
    ToFieldMeans(f, st, x.stack, obj, name, e);
    n := BothRun(f, Index(obj, e), k, st.w, pc, x.stack);
    RunIsAfter(x, pc, st, locals, n);
    RunNext(x, pc, st, n);
    var r := ValueOf(f, st.w, x.stack, obj);
    if r.Gives? {
      var r2 := ValueOf(f, r.w, x.stack + [r.v], e);
      if r2.Gives? {
        SetConstStep(x, pc + TwoSize(f, obj, e, k), State(st.loc, r2.w), |ExprK(e, ExprK(obj, k, locals), locals)|,
          r.v, r2.v);
        n := n + 1;
      }
    }
  }

  lemma {:induction false} RunIsAfter(x: Site, pc: nat, st: State, locals: seq<Name>, n: nat)
    ensures Run(x, pc, st, n) == After(FrameAt(x, locals, st.loc), pc, x.stack, st.w, n)
  {
  }

  lemma {:induction false} ToIndexShape(obj: Expr, key: Expr, e: Expr, k: seq<Value>, locals: seq<Name>)
    ensures var k1 := ExprK(obj, k, locals);
      var k2 := ExprK(key, k1, locals);
      AssignCode(ToIndex(obj, key), e, k, locals) ==
        ExprCode(obj, k, locals) + ExprCode(key, k1, locals) + ExprCode(e, k2, locals) + [ISetStack] &&
      AssignK(ToIndex(obj, key), e, k, locals) == ExprK(e, k2, locals) &&
      (AssignFits(ToIndex(obj, key), e, k, locals) ==>
        ExprFits(obj, k, locals) && ExprFits(key, k1, locals) && ExprFits(e, k2, locals))
  {
    hide ExprCode, ExprK, ExprFits;
  }

  lemma {:induction false} ToIndexParts(x: Site, pc: nat, loc: Locals, obj: Expr, key: Expr, e: Expr, k: seq<Value>,
      locals: seq<Name>)
    requires AssignPlaced(x, pc, ToIndex(obj, key), e, k, locals)
    ensures var f := FrameAt(x, locals, loc);
      var k2 := ExprK(key, ExprK(obj, k, locals), locals);
      var q := pc + TwoSize(f, obj, key, k);
      var q1 := q + |ExprCode(e, k2, locals)|;
      TwoPlaced(f, pc, obj, key, k) && Placed(f, q, e, k2) && FrameOk(f) &&
      q1 + 1 == pc + |AssignCode(ToIndex(obj, key), e, k, locals)| && q1 < |x.c.inst| && x.c.inst[q1] == ISetStack
  {
    hide At, Fits, AssignCode, AssignK, AssignFits, ExprCode, ExprK, ExprFits;
    ToIndexShape(obj, key, e, k, locals);
    var k1 := ExprK(obj, k, locals);
    var k2 := ExprK(key, k1, locals);
    var a, b, c := ExprCode(obj, k, locals), ExprCode(key, k1, locals), ExprCode(e, k2, locals);
    AtParts(x.c, pc, a + b + c, [ISetStack]);
    AtParts(x.c, pc, a + b, c);
    AtParts(x.c, pc, a, b);
    AtOne(x.c, pc + |a + b + c|, ISetStack);
    ExprKGrows(key, k1, locals);
    ExprKGrows(e, k2, locals);
  }

  lemma {:induction false} ToIndexMeans(f: Frame, st: State, stack: seq<Value>, obj: Expr, key: Expr, e: Expr)
    requires f.loc == st.loc && |stack| <= MAX_STACK
    ensures ExecAssign(f.rt, f.locals, st, Room(stack), ToIndex(obj, key), e) ==
      match ValueOf(f, st.w, stack, obj)
      case Panics(w1) => Panicked(w1)
      case Gives(o, w1) =>
        match ValueOf(f, w1, stack + [o], key)
        case Panics(w2) => Panicked(w2)
        case Gives(i, w2) =>
          match ValueOf(f, w2, stack + [o, i], e)
          case Panics(w3) => Panicked(w3)
          case Gives(v, w3) => Put(st.loc, f.rt.put(w3, o, i, v))
  {
    hide Eval, Put, Room;
    var r := ValueOf(f, st.w, stack, obj);
    if r.Gives? {
      RoomLess(stack, r.v);
      var r2 := ValueOf(f, r.w, stack + [r.v], key);
      if r2.Gives? {
        RoomLess(stack + [r.v], r2.v);
        assert stack + [r.v] + [r2.v] == stack + [r.v, r2.v];
      }
    }
  }

  lemma {:induction false} SetStackStep(x: Site, pc: nat, st: State, o: Value, i: Value, v: Value)
    requires pc < |x.c.inst| && x.c.inst[pc] == ISetStack
    ensures Step(x.rt, x.c, Running(pc, x.stack + [o, i] + [v], Cells(st.loc, x.c.locals), st.w)) ==
            PutVm(x, pc + 1, st, x.rt.put(st.w, o, i, v))
  {
    assert Popped(x.stack + [o, i] + [v], 3) == x.stack;
  }

  lemma {:induction false} ToIndexRuns(x: Site, pc: nat, st: State, obj: Expr, key: Expr, e: Expr, k: seq<Value>,
      locals: seq<Name>, fuel: nat) returns (n: nat)
    requires AssignPlaced(x, pc, ToIndex(obj, key), e, k, locals)
    ensures Ends(x, Run(x, pc, st, n), n, pc + |AssignCode(ToIndex(obj, key), e, k, locals)|, fuel,
              ExecAssign(x.rt, locals, st, Room(x.stack), ToIndex(obj, key), e))
  {
    hide AssignPlaced, TwoPlaced, Placed, TwoSize, FrameOk, AssignCode, ExprK, ExprCode, ExecAssign, ValueOf, Run, Step,
      After;
    AssignBasics(x, pc, ToIndex(obj, key), e, k, locals);
    var f := FrameAt(x, locals, st.loc);
    ToIndexParts(x, pc, st.loc, obj, key, e, k, locals);
    ToIndexMeans(f, st, x.stack, obj, key, e);
    var k2 := ExprK(key, ExprK(obj, k, locals), locals);
    var q := pc + TwoSize(f, obj, key, k);
    n := BothRun(f, Index(obj, key), k, st.w, pc, x.stack);
    RunIsAfter(x, pc, st, locals, n);
    var r := ValueOf(f, st.w, x.stack, obj);
    if r.Gives? {
      RoomLess(x.stack, r.v);
      var r2 := ValueOf(f, r.w, x.stack + [r.v], key);
      if r2.Gives? {
        var up := x.stack + [r.v, r2.v];
        var m := ExprRuns(f, e, k2, r2.w, q, up);
        NextRun(f, pc, x.stack, st.w, n, f, q, up, r2.w, m);
        n := n + m;
        RunIsAfter(x, pc, st, locals, n);
        RunNext(x, pc, st, n);
        var r3 := ValueOf(f, r2.w, up, e);
        if r3.Gives? {
          SetStackStep(x, q + |ExprCode(e, k2, locals)|, State(st.loc, r3.w), r.v, r2.v, r3.v);
          n := n + 1;
        }
      }
    }
  }

  lemma {:induction false} AssignRuns(x: Site, pc: nat, st: State, t: Target, e: Expr, k: seq<Value>, locals: seq<Name>,
      fuel: nat) returns (n: nat)
    requires AssignPlaced(x, pc, t, e, k, locals)
    ensures Ends(x, Run(x, pc, st, n), n, pc + |AssignCode(t, e, k, locals)|, fuel,
              ExecAssign(x.rt, locals, st, Room(x.stack), t, e))
  {
    hide AssignPlaced, AssignCode, ExecAssign, Run, Ends;
    match t {
      case ToSym(name) => n := ToSymRuns(x, pc, st, name, e, k, locals, fuel);
      case ToField(obj, name) => n := ToFieldRuns(x, pc, st, obj, name, e, k, locals, fuel);
      case ToIndex(obj, key) => n := ToIndexRuns(x, pc, st, obj, key, e, k, locals, fuel);
    }
  }

  // ------------------------------------------------------------------
  // Calls, declarations, returns
  // ------------------------------------------------------------------

  ghost predicate DoPlaced(x: Site, pc: nat, e: Expr, k: seq<Value>, locals: seq<Name>)
    requires e.Call? || e.Method?
  {
    At(x.c, pc, CallCode(e, k, locals, 0)) && ExprK(e, k, locals) <= x.c.kval && ExprFits(e, k, locals) &&
    Fits(x.c) && locals <= x.c.locals && |x.stack| <= MAX_STACK
  }

  lemma {:induction false} DoRuns(x: Site, pc: nat, st: State, e: Expr, k: seq<Value>, locals: seq<Name>, fuel: nat)
    returns (n: nat)
    requires e.Call? || e.Method?
    requires DoPlaced(x, pc, e, k, locals)
    ensures Ends(x, Run(x, pc, st, n), n, pc + |CallCode(e, k, locals, 0)|, fuel,
              ExecCall(x.rt, locals, st, Room(x.stack), e))
  {
    hide At, Fits, CallCode, ExprK, ExprFits, EvalCall, Steps;
    n := CallRuns(FrameAt(x, locals, st.loc), e, k, st.w, pc, x.stack, 0);
  }

  ghost predicate DeclsPlaced(x: Site, pc: nat, ds: Decls, k: seq<Value>, locals: seq<Name>) {
    At(x.c, pc, DeclsCode(ds, k, locals)) && DeclsK(ds, k, locals) <= x.c.kval && DeclsFit(ds, k, locals) &&
    Fits(x.c) && DeclsScope(ds, Scope(locals, 0)).locals <= x.c.locals && |x.stack| <= MAX_STACK
  }

  lemma {:induction false} DeclsScopeAny(ds: Decls, locals: seq<Name>, n: nat, m: nat)
    ensures DeclsScope(ds, Scope(locals, n)).locals == DeclsScope(ds, Scope(locals, m)).locals
    decreases ds
  {
    match ds {
      case NoDecl =>
      case Decl(x, _, rest) => DeclsScopeAny(rest, locals + [x], n, m);
    }
  }

  lemma {:induction false} DeclsPlacedParts(x: Site, pc: nat, ds: Decls, k: seq<Value>, locals: seq<Name>)
    requires ds.Decl? && DeclsPlaced(x, pc, ds, k, locals)
    ensures |locals| < |x.c.locals| && x.c.locals[|locals|] == ds.name && Fits(x.c)
    ensures match ds.init
      case None =>
        DeclsPlaced(x, pc, ds.rest, k, locals + [ds.name]) &&
        DeclsCode(ds, k, locals) == DeclsCode(ds.rest, k, locals + [ds.name])
      case Some(e) =>
        var k1 := ExprK(e, k, locals + [ds.name]);
        var q := pc + |ExprCode(e, k, locals + [ds.name])|;
        ExprAt(x, pc, e, k, locals + [ds.name]) && q < |x.c.inst| && x.c.inst[q] == IStoreLocal(|locals|) &&
        DeclsPlaced(x, q + 1, ds.rest, k1, locals + [ds.name]) &&
        q + 1 + |DeclsCode(ds.rest, k1, locals + [ds.name])| == pc + |DeclsCode(ds, k, locals)|
  {
    hide At, Fits, ExprCode, ExprK, ExprFits;
    FitsMeans(x.c);
    var ls := locals + [ds.name];
    DeclsGrow(ds.rest, Scope(ls, 0));
    assert ls[|locals|] == ds.name;
    if ds.init.Some? {
      var e := ds.init.value;
      var k1 := ExprK(e, k, ls);
      var c, i, d := ExprCode(e, k, ls), IStoreLocal(U16(|locals|)), DeclsCode(ds.rest, k1, ls);
      assert DeclsCode(ds, k, locals) == c + [i] + d;
      AtParts(x.c, pc, c + [i], d);
      AtParts(x.c, pc, c, [i]);
      AtOne(x.c, pc + |c|, i);
      DeclsKGrow(ds.rest, k1, ls);
    }
  }

  lemma {:induction false} DeclsRun(x: Site, pc: nat, st: State, ds: Decls, k: seq<Value>, locals: seq<Name>, fuel: nat)
    returns (n: nat)
    requires DeclsPlaced(x, pc, ds, k, locals)
    ensures Ends(x, Run(x, pc, st, n), n, pc + |DeclsCode(ds, k, locals)|, fuel,
              ExecDecls(x.rt, locals, st, Room(x.stack), ds))
    decreases ds
  {
    hide DeclsPlaced, ExprAt, Fits, DeclsCode, ExprCode, ExprK, EvalAt, Run, Step;
    if ds == NoDecl {
      NoDeclRuns(x, pc, st, k, locals);
      n := 0;
    } else {
      DeclsPlacedParts(x, pc, ds, k, locals);
      DeclsMean(x, st, ds, locals);
      hide ExecDecls;
      if ds.init == None {
        n := DeclsRun(x, pc, st, ds.rest, k, locals + [ds.name], fuel);
      } else {
        var e, ls := ds.init.value, locals + [ds.name];
        n := Evaluates(x, pc, st, e, k, ls);
        var r := EvalAt(x, ls, st, e);
        if r.Gives? {
          RunNext(x, pc, st, n);
          var q, st1 := pc + |ExprCode(e, k, ls)|, State(st.loc[ds.name := r.v], r.w);
          LocalStep(x, q, State(st.loc, r.w), |locals|, r.v);
          n := n + 1;
          var m := DeclsRun(x, q + 1, st1, ds.rest, ExprK(e, k, ls), ls, fuel);
          RunThen(x, pc, st, n, q + 1, st1, m);
          EndsLater(x, Run(x, q + 1, st1, m), m, n + m, pc + |DeclsCode(ds, k, locals)|, fuel,
            ExecDecls(x.rt, ls, st1, Room(x.stack), ds.rest));
          n := n + m;
        }
      }
    }
  }

  lemma {:induction false} NoDeclRuns(x: Site, pc: nat, st: State, k: seq<Value>, locals: seq<Name>)
    ensures Run(x, pc, st, 0) == Start(x, pc, st) && DeclsCode(NoDecl, k, locals) == []
  {
  }

  lemma {:induction false} DeclsMean(x: Site, st: State, ds: Decls, locals: seq<Name>)
    requires ds.Decl?
    ensures var ls := locals + [ds.name];
      ExecDecls(x.rt, locals, st, Room(x.stack), ds) ==
      match ds.init
      case None => ExecDecls(x.rt, ls, st, Room(x.stack), ds.rest)
      case Some(e) =>
        match EvalAt(x, ls, st, e)
        case Panics(w) => Panicked(w)
        case Gives(v, w) => ExecDecls(x.rt, ls, State(st.loc[ds.name := v], w), Room(x.stack), ds.rest)
  {
    hide Eval;
  }

  /** Steps taken before a statement only add to the count. */
  lemma {:induction false} EndsLater(x: Site, vm: Vm, n: nat, m: nat, q: nat, fuel: nat, r: End)
    requires Ends(x, vm, n, q, fuel, r) && n <= m
    ensures Ends(x, vm, m, q, fuel, r)
  {
  }

  lemma {:induction false} ReturnRuns(x: Site, pc: nat, st: State, e: Expr, k: seq<Value>, sc: Scope, fuel: nat)
    returns (n: nat)
    requires StmtPlaced(x, Return(e), k, sc, pc)
    ensures Ends(x, Run(x, pc, st, n), n, pc + |StmtCode(Return(e), k, sc, pc, x.loop)|, fuel,
              Exec(x.rt, sc, st, Room(x.stack), Return(e), fuel))
  {
    hide At, Fits, ExprCode, ExprK, ExprFits, Eval, Run, Steps;
    var c := ExprCode(e, k, sc.locals);
    AtParts(x.c, pc, c, [IRet(1)]);
    AtOne(x.c, pc + |c|, IRet(1));
    n := Evaluates(x, pc, st, e, k, sc.locals);
    RunNext(x, pc, st, n);
    if EvalAt(x, sc.locals, st, e).Gives? { n := n + 1; }
  }

  lemma {:induction false} GotoRuns(x: Site, pc: nat, st: State, s: Stmt, k: seq<Value>, sc: Scope, fuel: nat)
    requires s == Break || s == Continue
    requires StmtPlaced(x, s, k, sc, pc)
    ensures Ends(x, Run(x, pc, st, 1), 1, pc + 1, fuel, Exec(x.rt, sc, st, Room(x.stack), s, fuel))
  {
    hide At, Run, Distinct;
    AtOne(x.c, pc, if s == Break then BreakCode(pc, x.loop) else ContinueCode(pc, x.loop));
    RunNext(x, pc, st, 0);
    RunNone(x, pc, st);
  }

  lemma {:induction false} RunNone(x: Site, pc: nat, st: State)
    ensures Run(x, pc, st, 0) == Start(x, pc, st)
  {
  }
}
