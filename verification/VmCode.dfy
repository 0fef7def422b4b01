/** Chunks: the instructions, the tables of constants and locals, and the code of each syntax tree. */
module VmCode {
  import opened Basics
  import opened ScriptSyntax
  import opened Runtime

  /** A relative jump; the offset is a 16-bit field. */
  datatype Jump = Fwd(off: nat) | Bwd(off: nat)

  datatype Inst =
    | IPanic
    | IStoreLocal(i: nat) | IStoreGlobal(i: nat)
    | IRet(n: nat)
    | IJne(to_: Jump) | IJnt(to_: Jump) | IJnn(to_: Jump) | IJmp(to_: Jump) | IForeach(to_: Jump)
    | IPushConst(i: nat) | IPushLocal(i: nat) | IPushGlobal(i: nat) | IPushBool(b: bool) | IPushNil
    | IOperate(op: BinaryOp) | IApply(unary: UnaryOp)
    | IGetStack | IGetConst(i: nat)
    | ISetStack | ISetConst(i: nat)
    | ICall(keep: nat, argc: nat) | ISelfCall(keep: nat, argc: nat, i: nat)
    | INewArray(n: nat)

  type Code = seq<Inst>

  /** The tables of a chunk. */
  datatype Chunk = Chunk(inst: Code, kval: seq<Value>, locals: seq<Name>)

  // ------------------------------------------------------------------
  // Operand fields
  // ------------------------------------------------------------------

  function U16(n: nat): (r: nat)
    ensures r < 0x1_0000 && (n < 0x1_0000 ==> r == n)
  {
    n % 0x1_0000
  }

  function U8(n: nat): (r: nat)
    ensures r < 0x100 && (n < 0x100 ==> r == n)
  {
    n % 0x100
  }

  function U12(n: nat): (r: nat)
    ensures r < 0x1000 && (n < 0x1000 ==> r == n)
  {
    n % 0x1000
  }

  function Ahead(off: nat): Jump {
    Fwd(U16(off))
  }

  function Back(off: nat): Jump {
    Bwd(U16(off))
  }

  // ------------------------------------------------------------------
  // Tables
  // ------------------------------------------------------------------

  /** The last index of a constant, or the end of the table. */
  function Find(k: seq<Value>, v: Value): (i: nat)
    ensures i <= |k|
    ensures i < |k| ==> k[i] == v
    ensures i == |k| ==> v !in k
  {
    if k == [] then 0
    else if k[|k| - 1] == v then |k| - 1
    else
      var i := Find(k[..|k| - 1], v);
      if i == |k| - 1 then |k| else i
  }

  function Added(k: seq<Value>, v: Value): seq<Value> {
    if v in k then k else k + [v]
  }

  /** The first index of a local, if it is in the table. */
  function Slot(locals: seq<Name>, x: Name): (i: nat)
    ensures i <= |locals|
    ensures i < |locals| ==> locals[i] == x
    ensures i < |locals| <==> x in locals
    ensures forall j | 0 <= j < i :: locals[j] != x
  {
    if locals == [] then 0
    else if locals[0] == x then 0
    else 1 + Slot(locals[1..], x)
  }

  // ------------------------------------------------------------------
  // Code of expressions; `k` is the table of constants before the code
  // ------------------------------------------------------------------

  function LitCode(c: Literal, k: seq<Value>): Code {
    match c
    case NilLit => [IPushNil]
    case BoolLit(b) => [IPushBool(b)]
    case IntLit(_) | StrLit(_) => [IPushConst(U16(Find(k, LiteralValue(c))))]
  }

  function LitK(c: Literal, k: seq<Value>): seq<Value> {
    match c
    case NilLit | BoolLit(_) => k
    case IntLit(_) | StrLit(_) => Added(k, LiteralValue(c))
  }

  /** The name of a global is a new constant each time. */
  function SymK(x: Name, k: seq<Value>, locals: seq<Name>): seq<Value> {
    if x in locals then k else k + [Str(x)]
  }

  function SymCode(x: Name, k: seq<Value>, locals: seq<Name>): Inst {
    if x in locals then IPushLocal(U16(Slot(locals, x))) else IPushGlobal(U16(|k|))
  }

  function StoreCode(x: Name, k: seq<Value>, locals: seq<Name>): Inst {
    if x in locals then IStoreLocal(U16(Slot(locals, x))) else IStoreGlobal(U16(|k|))
  }

  /** The right operand of `and` and `or` is jumped over. */
  function BinaryCode(op: BinaryOp, l: Code, r: Code): Code {
    if op == And then l + [IJnt(Ahead(|r| + 1))] + r
    else if op == Or then l + [IJnn(Ahead(|r| + 1))] + r
    else l + r + [IOperate(op)]
  }

  function ExprK(e: Expr, k: seq<Value>, locals: seq<Name>): seq<Value>
    decreases e
  {
    match e
    case Lit(c) => LitK(c, k)
    case Sym(x) => SymK(x, k, locals)
    case Unary(_, a) => ExprK(a, k, locals)
    case Binary(_, l, r) => ExprK(r, ExprK(l, k, locals), locals)
    case Field(obj, x) => ExprK(obj, k, locals) + [Str(x)]
    case Index(obj, key) => ExprK(key, ExprK(obj, k, locals), locals)
    case Call(f, args) => ExprsK(args, ExprK(f, k, locals), locals)
    case Method(self, m, args) => ExprsK(args, ExprK(self, k, locals), locals) + [Str(m)]
    case Array(es) => ExprsK(es, k, locals)
  }

  function ExprsK(es: Exprs, k: seq<Value>, locals: seq<Name>): seq<Value>
    decreases es
  {
    match es
    case Empty => k
    case More(e, tail) => ExprsK(tail, ExprK(e, k, locals), locals)
  }

  function ExprCode(e: Expr, k: seq<Value>, locals: seq<Name>): Code
    decreases e, 1
  {
    match e
    case Lit(c) => LitCode(c, k)
    case Sym(x) => [SymCode(x, k, locals)]
    case Unary(op, a) => ExprCode(a, k, locals) + [IApply(op)]
    case Binary(op, l, r) => BinaryCode(op, ExprCode(l, k, locals), ExprCode(r, ExprK(l, k, locals), locals))
    case Field(obj, x) => ExprCode(obj, k, locals) + [IGetConst(U16(|ExprK(obj, k, locals)|))]
    case Index(obj, key) => ExprCode(obj, k, locals) + ExprCode(key, ExprK(obj, k, locals), locals) + [IGetStack]
    case Call(_, _) => CallCode(e, k, locals, 1)
    case Method(_, _, _) => CallCode(e, k, locals, 1)
    case Array(es) => ExprsCode(es, k, locals) + [INewArray(U16(Count(es)))]
  }

  /** A call that keeps `keep` of the values left. */
  function CallCode(e: Expr, k: seq<Value>, locals: seq<Name>, keep: nat): Code
    requires e.Call? || e.Method?
    decreases e, 0
  {
    match e
    case Call(f, args) =>
      ExprCode(f, k, locals) + ExprsCode(args, ExprK(f, k, locals), locals) + [ICall(keep, U8(Count(args)))]
    case Method(self, m, args) =>
      var k1 := ExprK(self, k, locals);
      ExprCode(self, k, locals) + ExprsCode(args, k1, locals) +
      [ISelfCall(keep, U8(Count(args)), U12(|ExprsK(args, k1, locals)|))]
  }

  function ExprsCode(es: Exprs, k: seq<Value>, locals: seq<Name>): Code
    decreases es
  {
    match es
    case Empty => []
    case More(e, tail) => ExprCode(e, k, locals) + ExprsCode(tail, ExprK(e, k, locals), locals)
  }

  // ------------------------------------------------------------------
  // Code of statements
  // ------------------------------------------------------------------

  /** The innermost loop around a statement: where its rounds begin, and where it ends once that is known. */
  datatype Loop = NoLoop | Loop(retry: nat, exit: Option<nat>)

  function AssignK(t: Target, e: Expr, k: seq<Value>, locals: seq<Name>): seq<Value> {
    match t
    case ToSym(x) => SymK(x, ExprK(e, k, locals), locals)
    case ToField(obj, x) => ExprK(e, ExprK(obj, k, locals), locals) + [Str(x)]
    case ToIndex(obj, key) => ExprK(e, ExprK(key, ExprK(obj, k, locals), locals), locals)
  }

  function AssignCode(t: Target, e: Expr, k: seq<Value>, locals: seq<Name>): Code {
    match t
    case ToSym(x) => ExprCode(e, k, locals) + [StoreCode(x, ExprK(e, k, locals), locals)]
    case ToField(obj, x) =>
      var k1 := ExprK(obj, k, locals);
      ExprCode(obj, k, locals) + ExprCode(e, k1, locals) + [ISetConst(U16(|ExprK(e, k1, locals)|))]
    case ToIndex(obj, key) =>
      var k1 := ExprK(obj, k, locals);
      var k2 := ExprK(key, k1, locals);
      ExprCode(obj, k, locals) + ExprCode(key, k1, locals) + ExprCode(e, k2, locals) + [ISetStack]
  }

  function DeclsK(ds: Decls, k: seq<Value>, locals: seq<Name>): seq<Value>
    decreases ds
  {
    match ds
    case NoDecl => k
    case Decl(x, None, rest) => DeclsK(rest, k, locals + [x])
    case Decl(x, Some(e), rest) => DeclsK(rest, ExprK(e, k, locals + [x]), locals + [x])
  }

  function DeclsCode(ds: Decls, k: seq<Value>, locals: seq<Name>): Code
    decreases ds
  {
    match ds
    case NoDecl => []
    case Decl(x, None, rest) => DeclsCode(rest, k, locals + [x])
    case Decl(x, Some(e), rest) =>
      ExprCode(e, k, locals + [x]) + [IStoreLocal(U16(|locals|))] +
      DeclsCode(rest, ExprK(e, k, locals + [x]), locals + [x])
  }

  /** The condition `c`, the block `b` it guards, and the code `r` of what follows, if anything does. When
      nothing follows, the place of the jump is filled only for the first condition of the chain. */
  function Guarded(c: Code, b: Code, r: Option<Code>, first: bool): Code {
    match r
    case None => c + [if first then IJne(Ahead(|b| + 1)) else IPanic] + b
    case Some(r) => c + [IJne(Ahead(|b| + 2))] + b + [IJmp(Ahead(|r| + 1))] + r
  }

  /** A jump to the end of the loop, or the place for one. */
  function BreakCode(at: nat, loop: Loop): Inst {
    if loop.Loop? && loop.exit.Some? && at <= loop.exit.value then IJmp(Ahead(loop.exit.value - at)) else IPanic
  }

  function ContinueCode(at: nat, loop: Loop): Inst {
    if loop.Loop? && loop.retry <= at then IJmp(Back(at - loop.retry)) else IPanic
  }

  function ForeverCode(b: Code): Code {
    b + [IJmp(Back(|b|))]
  }

  /** `e` computes the iterator, which local number `it` holds. */
  function ForInCode(e: Code, it: nat, store: Inst, b: Code): Code {
    e + [IStoreLocal(U16(it)), IPushLocal(U16(it)), ICall(1, 0), IForeach(Ahead(|b| + 3)), store] + b +
    [IJmp(Back(|b| + 4))]
  }

  function StmtK(s: Stmt, k: seq<Value>, sc: Scope): seq<Value>
    decreases s
  {
    match s
    case Nop | Break | Continue => k
    case Assign(t, e) => AssignK(t, e, k, sc.locals)
    case DoCall(f, args) => ExprK(Call(f, args), k, sc.locals)
    case DoMethod(self, m, args) => ExprK(Method(self, m, args), k, sc.locals)
    case Var(ds) => DeclsK(ds, k, sc.locals)
    case If(g) => GuardK(g, k, sc)
    case Forever(body) => BlockK(body, k, sc)
    case ForIn(declare, x, e, body) =>
      var sc1 := DeclareIf(declare, sc, x);
      BlockK(body, SymK(x, ExprK(e, k, sc1.locals), BodyScope(sc1).locals), BodyScope(sc1))
    case Return(e) => ExprK(e, k, sc.locals)
  }

  function BlockK(b: Block, k: seq<Value>, sc: Scope): seq<Value>
    decreases b
  {
    match b
    case Done => k
    case Then(s, tail) => BlockK(tail, StmtK(s, k, sc), StmtScope(s, sc))
  }

  function ChainK(c: Chain, k: seq<Value>, sc: Scope): seq<Value>
    decreases c
  {
    match c
    case Fi => k
    case Else(b) => BlockK(b, k, sc)
    case Elif(g) => GuardK(g, k, sc)
  }

  function GuardK(g: Guard, k: seq<Value>, sc: Scope): seq<Value>
    decreases g
  {
    ChainK(g.rest, BlockK(g.block, ExprK(g.cond, k, sc.locals), sc), BlockScope(g.block, sc))
  }

  /** The code of a statement that starts at instruction `at`. */
  function StmtCode(s: Stmt, k: seq<Value>, sc: Scope, at: nat, loop: Loop): Code
    decreases s, 0
  {
    match s
    case Nop => []
    case Assign(t, e) => AssignCode(t, e, k, sc.locals)
    case DoCall(f, args) => CallCode(Call(f, args), k, sc.locals, 0)
    case DoMethod(self, m, args) => CallCode(Method(self, m, args), k, sc.locals, 0)
    case Var(ds) => DeclsCode(ds, k, sc.locals)
    case Break => [BreakCode(at, loop)]
    case Continue => [ContinueCode(at, loop)]
    case Return(e) => ExprCode(e, k, sc.locals) + [IRet(1)]
    case If(g) => GuardCode(g, k, sc, at, loop, true)
    case Forever(body) => ForeverCode(LoopCode(body, k, sc, at, at))
    case ForIn(declare, x, e, body) =>
      var sc1 := DeclareIf(declare, sc, x);
      var sc2 := BodyScope(sc1);
      var c := ExprCode(e, k, sc1.locals);
      var k1 := ExprK(e, k, sc1.locals);
      ForInCode(c, |sc1.locals|, StoreCode(x, k1, sc2.locals),
        LoopCode(body, SymK(x, k1, sc2.locals), sc2, at + |c| + 5, at + |c| + 1))
  }

  /** The body of a loop at `at`; the loop ends after the jump that follows the body. */
  function LoopCode(body: Block, k: seq<Value>, sc: Scope, at: nat, retry: nat): Code
    decreases body, 1
  {
    var size := |BlockCode(body, k, sc, at, Loop(retry, None))|;
    BlockCode(body, k, sc, at, Loop(retry, Some(at + size + 1)))
  }

  function BlockCode(b: Block, k: seq<Value>, sc: Scope, at: nat, loop: Loop): Code
    decreases b, 0
  {
    match b
    case Done => []
    case Then(s, tail) =>
      var x := StmtCode(s, k, sc, at, loop);
      x + BlockCode(tail, StmtK(s, k, sc), StmtScope(s, sc), at + |x|, loop)
  }

  function ChainCode(c: Chain, k: seq<Value>, sc: Scope, at: nat, loop: Loop): Code
    decreases c, 0
  {
    match c
    case Fi => []
    case Else(b) => BlockCode(b, k, sc, at, loop)
    case Elif(g) => GuardCode(g, k, sc, at, loop, false)
  }

  function GuardCode(g: Guard, k: seq<Value>, sc: Scope, at: nat, loop: Loop, first: bool): Code
    decreases g, 0
  {
    var c := ExprCode(g.cond, k, sc.locals);
    var k1 := ExprK(g.cond, k, sc.locals);
    var b := BlockCode(g.block, k1, sc, at + |c| + 1, loop);
    var r := ChainCode(g.rest, BlockK(g.block, k1, sc), BlockScope(g.block, sc), at + |c| + |b| + 2, loop);
    Guarded(c, b, if g.rest.Fi? then None else Some(r), first)
  }

  /** A chunk ends in a return, unless its last instruction is one already. */
  function Ended(code: Code): Code {
    if code == [] || !code[|code| - 1].IRet? then code + [IRet(0)] else code
  }

  function ChunkOf(b: Block, params: seq<Name>, fors: nat): Chunk {
    var sc := Scope(params, fors);
    Chunk(Ended(BlockCode(b, [], sc, 0, NoLoop)), BlockK(b, [], sc), BlockScope(b, sc).locals)
  }
}
