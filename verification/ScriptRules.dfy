/** The grammar and the code of each construct, one rule at a time, and what holds of the code with holes in it. */
module ScriptRules {
  import opened Basics
  import opened ScriptSyntax
  import opened ScriptParse
  import opened Runtime
  import opened VmCode
  import opened VmSize
  import opened VmChains
  import opened VmLimits
  import opened VmLists

  datatype Kind = JNE | JNT | JNN | JMP | FOREACH

  function Jumping(kind: Kind, j: Jump): Inst {
    match kind
    case JNE => IJne(j)
    case JNT => IJnt(j)
    case JNN => IJnn(j)
    case JMP => IJmp(j)
    case FOREACH => IForeach(j)
  }

  /** A loop being compiled: where its rounds begin, the place of its condition unless it is endless, and the
      places its breaks left. */
  datatype LoopInfo = LoopInfo(retry: nat, cond: nat, endless: bool, jumps: seq<nat>)

  /** The loop, as far as the code inside it knows. */
  function Around(loop: Option<LoopInfo>): Loop {
    match loop
    case None => NoLoop
    case Some(l) => Open(l.retry)
  }

  function WithBreaks(loop: Option<LoopInfo>, holes: seq<nat>): Option<LoopInfo> {
    match loop
    case None => None
    case Some(l) => Some(l.(jumps := l.jumps + holes))
  }

  /** The loop has more breaks than its table has entries. */
  predicate Spilt(loop: Option<LoopInfo>) {
    loop.Some? && |loop.value.jumps| > TABLE
  }

  lemma {:induction false} StaysSpilt(loop: Option<LoopInfo>, holes: seq<nat>)
    ensures Spilt(loop) ==> Spilt(WithBreaks(loop, holes))
  {
  }

  /** A loop fits exactly if its body does and its own breaks do. */
  lemma {:induction false} LoopSpills(b: Block, l: LoopInfo, k: seq<Value>, sc: Scope, at: nat)
    requires l.jumps == []
    ensures var spilt := Spilt(WithBreaks(Some(l), BlockBreaks(b, k, sc, at, Open(l.retry))));
      (StmtRoomy(Forever(b)) <==> BlockRoomy(b) && !spilt) &&
      forall declare, x, e :: StmtRoomy(ForIn(declare, x, e, b)) <==> BlockRoomy(b) && !spilt
  {
    hide BlockBreaks, BlockRoomy;
    BlockBreaksCounted(b, k, sc, at, Open(l.retry));
  }

  // ------------------------------------------------------------------
  // Choices, one rule at a time
  // ------------------------------------------------------------------

  /** A condition and its block. */
  function ParsePart(ts: seq<Token>, sc: Scope, inside: bool): (r: Parsed<Guard>)
    ensures r.Ok? ==> |r.rest| < |ts| && r.tree.rest.Fi?
  {
    match ParseExpr(ts, 0)
    case Bad(f) => Bad(f)
    case Ok(e, rest) =>
      match ParseBlock(rest, sc, inside)
      case Bad(f) => Bad(f)
      case Ok(b, rest1) => Ok(Guard(e, b, Fi), rest1)
  }

  lemma {:induction false} PartShape(e: Expr, b: Block, k: seq<Value>, sc: Scope, at: nat, loop: Loop)
    ensures var g := Guard(e, b, Fi);
      var k1 := ExprK(e, k, sc.locals);
      var p := at + |ExprCode(e, k, sc.locals)| + 1;
      OpenCode(g, k, sc, at, loop) == ExprCode(e, k, sc.locals) + [IPanic] + BlockCode(b, k1, sc, p, loop) &&
      BlockPos(g, k, sc, at) == p && GuardK(g, k, sc) == BlockK(b, k1, sc) && GuardScope(g, sc) == BlockScope(b, sc) &&
      GuardBreaks(g, k, sc, at, loop) == BlockBreaks(b, k1, sc, p, loop)
  {
    hide ExprCode, ExprK, BlockCode, BlockK, BlockScope, BlockBreaks;
    var g := Guard(e, b, Fi);
    BreaksParts(g, k, sc, at, loop);
    var x := BlockBreaks(b, ExprK(e, k, sc.locals), sc, BlockPos(g, k, sc, at), loop);
    assert x + [] == x;
  }

  /** The loop of a statement is still there when its breaks are noted, and began where it began. */
  lemma {:induction false} BreaksKeepLoop(loop: Option<LoopInfo>, holes: seq<nat>)
    ensures Around(WithBreaks(loop, holes)) == Around(loop) && WithBreaks(loop, holes).Some? == loop.Some?
    ensures loop.Some? ==> WithBreaks(loop, holes).value.retry == loop.value.retry
  {
  }

  lemma {:induction false} UpdateMiddle<T>(x: seq<T>, y: seq<T>, z: seq<T>, i: nat, v: T)
    requires i < |y|
    ensures (x + y + z)[|x| + i := v] == x + y[i := v] + z
  {
  }

  lemma {:induction false} ClosedSize(g: Guard, k: seq<Value>, sc: Scope, at: nat, loop: Loop)
    requires IsOpen(g)
    requires at <= LastHole(g, k, sc, at, loop) < at + |OpenCode(g, k, sc, at, loop)|
    ensures |Closed(g, k, sc, at, loop)| == |OpenCode(g, k, sc, at, loop)|
  {
    hide OpenCode, LastHole, IsOpen;
  }

  /** What `elif` adds to a chain. */
  lemma {:induction false} ElifExtends(g: Guard, p: Guard, code: Code, k: seq<Value>, sc: Scope, at: nat, loop: Loop)
    requires IsOpen(g) && p.rest.Fi?
    requires at <= LastHole(g, k, sc, at, loop) < at + |OpenCode(g, k, sc, at, loop)|
    ensures var n := at + |OpenCode(g, k, sc, at, loop)| + 1;
      var g1 := Append(g, Elif(p));
      var k1 := GuardK(g, k, sc);
      var sc1 := GuardScope(g, sc);
      IsOpen(g1) && OpenCode(g1, k, sc, at, loop) ==
        Closed(g, k, sc, at, loop) + [IPanic] + OpenCode(p, k1, sc1, n, loop) &&
      GuardK(g1, k, sc) == GuardK(p, k1, sc1) && GuardScope(g1, sc) == GuardScope(p, sc1) &&
      GuardBreaks(g1, k, sc, at, loop) == GuardBreaks(g, k, sc, at, loop) + GuardBreaks(p, k1, sc1, n, loop) &&
      LastHole(g1, k, sc, at, loop) == BlockPos(p, k1, sc1, n) - 1 &&
      OutHoles(g1, k, sc, at, loop) == OutHoles(g, k, sc, at, loop) + [n - 1]
  {
    AppendTables(g, Elif(p), k, sc);
    AppendCode(g, Elif(p), k, sc, at, loop);
    AppendBreaks(g, Elif(p), k, sc, at, loop);
    AppendLast(g, p, k, sc, at, loop);
    AppendHoles(g, Elif(p), k, sc, at, loop);
    ElifIs(p, GuardK(g, k, sc), GuardScope(g, sc), at + |OpenCode(g, k, sc, at, loop)| + 1, loop);
    hide OpenCode, LastHole, OutHoles, IsOpen, GuardK, GuardScope, GuardBreaks, ChainBreaks, ChainK, ChainScope,
      OpenRest, Append, Closed;
  }

  lemma {:induction false} ElifIs(p: Guard, k: seq<Value>, sc: Scope, at: nat, loop: Loop)
    ensures ChainK(Elif(p), k, sc) == GuardK(p, k, sc) && ChainScope(Elif(p), sc) == GuardScope(p, sc)
    ensures ChainBreaks(Elif(p), k, sc, at, loop) == GuardBreaks(p, k, sc, at, loop)
    ensures OpenRest(Elif(p), k, sc, at, loop) == OpenCode(p, k, sc, at, loop)
  {
    hide OpenCode, GuardK, GuardScope, GuardBreaks;
  }

  lemma {:induction false} OntoNoDecl(r: Parsed<Decls>)
    ensures OntoDecls(NoDecl, r) == r
  {
  }

  lemma {:induction false} OntoDone(r: Parsed<Block>)
    ensures OntoBlock(Done, r) == r
  {
  }

  lemma {:induction false} MoreBreaks(loop: Option<LoopInfo>, x: seq<nat>, y: seq<nat>)
    ensures WithBreaks(WithBreaks(loop, x), y) == WithBreaks(loop, x + y)
    ensures Around(WithBreaks(loop, x)) == Around(loop)
  {
    if loop.Some? { Assoc(loop.value.jumps, x, y); }
  }

  /** What `parse_lval` remembers of a target. */
  datatype Desc = VSymbol(last: Name) | VDot(last: Name) | VIndex | VCall

  function DescOf(t: Target): Desc {
    match t
    case ToSym(x) => VSymbol(x)
    case ToField(_, x) => VDot(x)
    case ToIndex(_, _) => VIndex
  }

  function PartialCode(desc: Desc, k: seq<Value>, locals: seq<Name>): Code {
    match desc
    case VSymbol(x) => [SymCode(x, k, locals)]
    case VDot(_) => [IGetConst(U16(|k|))]
    case VIndex => [IGetStack]
    case VCall => []
  }

  function PartialK(desc: Desc, k: seq<Value>, locals: seq<Name>): seq<Value> {
    match desc
    case VSymbol(x) => SymK(x, k, locals)
    case VDot(x) => k + [Str(x)]
    case VIndex | VCall => k
  }

  function FinishInst(desc: Desc, k: seq<Value>, locals: seq<Name>): Inst
    requires desc != VCall
  {
    match desc
    case VSymbol(x) => StoreCode(x, k, locals)
    case VDot(_) => ISetConst(U16(|k|))
    case VIndex => ISetStack
  }

  function FinishK(desc: Desc, k: seq<Value>, locals: seq<Name>): seq<Value>
    requires desc != VCall
  {
    match desc
    case VSymbol(x) => SymK(x, k, locals)
    case VDot(x) => k + [Str(x)]
    case VIndex => k
  }

  /** The code of a target before its last part is read or stored. */
  function TargetCode(t: Target, k: seq<Value>, locals: seq<Name>): Code {
    match t
    case ToSym(_) => []
    case ToField(obj, _) => ExprCode(obj, k, locals)
    case ToIndex(obj, key) => ExprCode(obj, k, locals) + ExprCode(key, ExprK(obj, k, locals), locals)
  }

  function TargetK(t: Target, k: seq<Value>, locals: seq<Name>): seq<Value> {
    match t
    case ToSym(_) => k
    case ToField(obj, _) => ExprK(obj, k, locals)
    case ToIndex(obj, key) => ExprK(key, ExprK(obj, k, locals), locals)
  }

  lemma {:induction false} ToSymShape(x: Name, k: seq<Value>, locals: seq<Name>)
    ensures TargetCode(ToSym(x), k, locals) == [] && TargetK(ToSym(x), k, locals) == k
  {
  }

  lemma {:induction false} ToFieldTarget(obj: Expr, x: Name, k: seq<Value>, locals: seq<Name>)
    ensures TargetCode(ToField(obj, x), k, locals) == ExprCode(obj, k, locals)
    ensures TargetK(ToField(obj, x), k, locals) == ExprK(obj, k, locals)
  {
  }

  lemma {:induction false} ToIndexTarget(obj: Expr, key: Expr, k: seq<Value>, locals: seq<Name>)
    ensures var k1 := ExprK(obj, k, locals);
      TargetCode(ToIndex(obj, key), k, locals) == ExprCode(obj, k, locals) + ExprCode(key, k1, locals) &&
      TargetK(ToIndex(obj, key), k, locals) == ExprK(key, k1, locals)
  {
  }

  lemma {:induction false} ReadShape(t: Target, k: seq<Value>, locals: seq<Name>)
    ensures var k1 := TargetK(t, k, locals);
      ExprCode(Read(t), k, locals) == TargetCode(t, k, locals) + PartialCode(DescOf(t), k1, locals) &&
      ExprK(Read(t), k, locals) == PartialK(DescOf(t), k1, locals)
  {
    match t {
      case ToSym(x) =>
        SymShape(x, k, locals);
        assert [] + [SymCode(x, k, locals)] == [SymCode(x, k, locals)];
      case ToField(obj, x) => FieldShape(obj, x, k, locals);
      case ToIndex(obj, key) => IndexShape(obj, key, k, locals);
    }
  }

  lemma {:induction false} AssignShape(t: Target, e: Expr, k: seq<Value>, sc: Scope, at: nat, loop: Loop)
    ensures var k1 := TargetK(t, k, sc.locals);
      var k2 := ExprK(e, k1, sc.locals);
      StmtCode(Assign(t, e), k, sc, at, loop) ==
        TargetCode(t, k, sc.locals) + ExprCode(e, k1, sc.locals) + [FinishInst(DescOf(t), k2, sc.locals)] &&
      StmtK(Assign(t, e), k, sc) == FinishK(DescOf(t), k2, sc.locals) && StmtScope(Assign(t, e), sc) == sc &&
      StmtBreaks(Assign(t, e), k, sc, at, loop) == []
  {
    hide ExprCode, ExprK, StoreCode, SymK;
    if t.ToSym? {
      assert [] + ExprCode(e, k, sc.locals) == ExprCode(e, k, sc.locals);
    }
  }

  lemma {:induction false} DoShape(e: Expr, k: seq<Value>, sc: Scope, at: nat, loop: Loop)
    requires IsCall(e)
    ensures StmtCode(DoOf(e), k, sc, at, loop) == CallCode(e, k, sc.locals, 0)
    ensures StmtK(DoOf(e), k, sc) == ExprK(e, k, sc.locals) && StmtScope(DoOf(e), sc) == sc
    ensures StmtBreaks(DoOf(e), k, sc, at, loop) == []
  {
    hide CallCode, ExprK;
  }

  lemma {:induction false} NoBreaks(loop: Option<LoopInfo>)
    ensures WithBreaks(loop, []) == loop
  {
    if loop.Some? { assert loop.value.jumps + [] == loop.value.jumps; }
  }

  lemma {:induction false} TargetParts(t: Target, ts: seq<Token>)
    ensures ParseTarget(t, ts) ==
      if !SeesSuffix(ts) then Ok(Place(t), ts)
      else if ts[0] == Dot then
        if SeesSym(ts[1..]) then ParseTarget(ToField(Read(t), ts[1].name), ts[2..]) else Bad(Reject)
      else if ts[0] == LBrack then
        match ParseKey(ts)
        case Bad(f) => Bad(f)
        case Ok(key, rest) => ParseTarget(ToIndex(Read(t), key), rest)
      else if ts[0] == Colon then
        if !SeesSym(ts[1..]) then Bad(Reject)
        else
          match ParseCallArgs(ts[2..])
          case Bad(f) => Bad(f)
          case Ok(args, rest) => LastCall(Method(Read(t), ts[1].name, args), rest)
      else
        match ParseCallArgs(ts)
        case Bad(f) => Bad(f)
        case Ok(args, rest) => LastCall(Call(Read(t), args), rest)
  {
    hide ParseKey, ParseCallArgs;
  }

  /** The call of `e` that the tokens go on with. */
  function CallOf(e: Expr, ts: seq<Token>): (r: Parsed<Expr>)
    requires SeesSuffix(ts)
    ensures r.Ok? ==> IsCall(r.tree) && |r.rest| < |ts|
  {
    if ts[0] == Colon then
      if !SeesSym(ts[1..]) then Bad(Reject)
      else
        match ParseCallArgs(ts[2..])
        case Bad(f) => Bad(f)
        case Ok(args, rest) => Ok(Method(e, ts[1].name, args), rest)
    else
      match ParseCallArgs(ts)
      case Bad(f) => Bad(f)
      case Ok(args, rest) => Ok(Call(e, args), rest)
  }

  lemma {:induction false} TargetCallParts(t: Target, ts: seq<Token>)
    requires SeesSuffix(ts) && !Sees(ts, Dot) && !Sees(ts, LBrack)
    ensures ParseTarget(t, ts) ==
      match CallOf(Read(t), ts)
      case Bad(f) => Bad(f)
      case Ok(c, rest) => LastCall(c, rest)
  {
    hide ParseCallArgs;
  }

  lemma {:induction false} ExprStmtParts(ts: seq<Token>)
    ensures ParseExprStmt(ts) ==
      match ParseLval(ts)
      case Bad(f) => Bad(f)
      case Ok(lval, rest) =>
        if Sees(rest, Assigns) then
          match ParseExpr(rest[1..], 0)
          case Bad(f) => Bad(f)
          case Ok(e, rest1) => if lval.Place? then Ok(Assign(lval.target, e), rest1) else Bad(Reject)
        else if lval.Called? then Ok(DoOf(lval.call), rest)
        else Bad(Reject)
  {
    hide ParseLval, ParseExpr;
  }

  predicate IsLogic(op: BinaryOp) {
    op == And || op == Or
  }

  function LogicHole(op: BinaryOp): Code {
    if IsLogic(op) then [IPanic] else []
  }

  // ------------------------------------------------------------------
  // The grammar, one rule at a time
  // ------------------------------------------------------------------

  lemma {:induction false} ExprParts(ts: seq<Token>, limit: nat)
    ensures ParseExpr(ts, limit) ==
      match ParseOperand(ts)
      case Bad(f) => Bad(f)
      case Ok(e, rest) => Climb(e, rest, limit)
  {
    hide ParseOperand, Climb;
  }

  lemma {:induction false} ClimbParts(l: Expr, ts: seq<Token>, limit: nat)
    ensures Climb(l, ts, limit) ==
      if Climbs(ts, limit) then
        match ParseExpr(ts[1..], Prio(ts[0].op))
        case Bad(f) => Bad(f)
        case Ok(e, rest) => Climb(Binary(ts[0].op, l, e), rest, limit)
      else Ok(l, ts)
  {
    hide ParseExpr;
  }

  lemma {:induction false} BinaryShape(op: BinaryOp, l: Expr, r: Expr, k: seq<Value>, locals: seq<Name>)
    ensures ExprK(Binary(op, l, r), k, locals) == ExprK(r, ExprK(l, k, locals), locals)
    ensures ExprCode(Binary(op, l, r), k, locals) ==
            BinaryCode(op, ExprCode(l, k, locals), ExprCode(r, ExprK(l, k, locals), locals))
  {
    hide BinaryCode;
  }

  lemma {:induction false} OperandParts(ts: seq<Token>)
    ensures ParseOperand(ts) ==
      match UnaryOf(ts)
      case Some(op) => (
        match ParseExpr(ts[1..], PRIO_UNARY)
        case Bad(f) => Bad(f)
        case Ok(e, rest) => Ok(Unary(op, e), rest))
      case None => ParseSimple(ts)
  {
    hide ParseExpr, ParseSimple;
  }

  lemma {:induction false} UnaryShape(op: UnaryOp, e: Expr, k: seq<Value>, locals: seq<Name>)
    ensures ExprK(Unary(op, e), k, locals) == ExprK(e, k, locals)
    ensures ExprCode(Unary(op, e), k, locals) == ExprCode(e, k, locals) + [IApply(op)]
  {
  }

  lemma {:induction false} SimpleParts(ts: seq<Token>)
    ensures ParseSimple(ts) ==
      if ts != [] && ts[0] == TStr(None) then Bad(Reject)
      else if ts != [] && LiteralOf(ts[0]).Some? then Ok(Lit(LiteralOf(ts[0]).value), ts[1..])
      else if ts != [] && (ts[0] == LBrace || ts[0] == TSkls || ts[0] == TFunc) then Bad(Outside)
      else if Sees(ts, LBrack) then
        match ParseElems(ts[1..])
        case Bad(f) => Bad(f)
        case Ok(es, rest) => Ok(Array(es), Skip(rest))
      else
        match ParsePrimary(ts)
        case Bad(f) => Bad(f)
        case Ok(e, rest) => Suffix(e, rest)
  {
    hide ParseElems, Suffix;
  }

  lemma {:induction false} LitShape(c: Literal, k: seq<Value>, locals: seq<Name>)
    ensures ExprK(Lit(c), k, locals) == LitK(c, k) && ExprCode(Lit(c), k, locals) == LitCode(c, k)
  {
  }

  lemma {:induction false} SymShape(x: Name, k: seq<Value>, locals: seq<Name>)
    ensures ExprK(Sym(x), k, locals) == SymK(x, k, locals) && ExprCode(Sym(x), k, locals) == [SymCode(x, k, locals)]
  {
  }

  lemma {:induction false} ArrayShape(es: Exprs, k: seq<Value>, locals: seq<Name>)
    ensures ExprK(Array(es), k, locals) == ExprsK(es, k, locals)
    ensures ExprCode(Array(es), k, locals) == ExprsCode(es, k, locals) + [INewArray(U16(Count(es)))]
  {
  }

  lemma {:induction false} EmptyShape(k: seq<Value>, locals: seq<Name>)
    ensures ExprsK(Empty, k, locals) == k && ExprsCode(Empty, k, locals) == [] && Count(Empty) == 0
  {
  }

  lemma {:induction false} OneArgShape(z: string, k: seq<Value>, locals: seq<Name>)
    ensures var es := More(Lit(StrLit(z)), Empty);
      ExprsK(es, k, locals) == LitK(StrLit(z), k) && ExprsCode(es, k, locals) == LitCode(StrLit(z), k) && Count(es) == 1
  {
    EmptyShape(LitK(StrLit(z), k), locals);
    LitShape(StrLit(z), k, locals);
  }

  /** The list with one more expression. */
  ghost function Snoc(es: Exprs, e: Expr): Exprs {
    match es
    case Empty => More(e, Empty)
    case More(x, tail) => More(x, Snoc(tail, e))
  }

  ghost function Join(es: Exprs, fs: Exprs): Exprs {
    match es
    case Empty => fs
    case More(x, tail) => More(x, Join(tail, fs))
  }

  /** Expressions parsed before the others. */
  ghost function Onto(es: Exprs, r: Parsed<Exprs>): Parsed<Exprs> {
    match r
    case Bad(f) => Bad(f)
    case Ok(fs, rest) => Ok(Join(es, fs), rest)
  }

  lemma {:induction false} OntoEmpty(r: Parsed<Exprs>)
    ensures Onto(Empty, r) == r
  {
  }

  lemma {:induction false} JoinSnoc(es: Exprs, e: Expr, fs: Exprs)
    ensures Join(Snoc(es, e), fs) == Join(es, More(e, fs)) && Join(es, Empty) == es
    decreases es
  {
    if es.More? { JoinSnoc(es.tail, e, fs); }
  }

  lemma {:induction false} SnocShape(es: Exprs, e: Expr, k: seq<Value>, locals: seq<Name>)
    ensures var k1 := ExprsK(es, k, locals);
      ExprsK(Snoc(es, e), k, locals) == ExprK(e, k1, locals) && Count(Snoc(es, e)) == Count(es) + 1 &&
      ExprsCode(Snoc(es, e), k, locals) == ExprsCode(es, k, locals) + ExprCode(e, k1, locals)
    decreases es
  {
    hide ExprCode, ExprK;
    match es {
      case Empty =>
        EmptyShape(ExprK(e, k, locals), locals);
      case More(x, tail) =>
        var k1 := ExprK(x, k, locals);
        SnocShape(tail, e, k1, locals);
        Assoc(ExprCode(x, k, locals), ExprsCode(tail, k1, locals), ExprCode(e, ExprsK(tail, k1, locals), locals));
    }
  }

  lemma {:induction false} ElemsParts(es: Exprs, ts: seq<Token>)
    ensures Onto(es, ParseElems(ts)) ==
      if Sees(ts, RBrack) then Ok(es, ts)
      else
        match ParseExpr(ts, 0)
        case Bad(f) => Bad(f)
        case Ok(e, rest) =>
          if Sees(rest, Comma) then Onto(Snoc(es, e), ParseElems(rest[1..])) else Ok(Snoc(es, e), rest)
  {
    hide ParseExpr;
    var r := ParseExpr(ts, 0);
    JoinSnoc(es, Lit(NilLit), Empty);
    if r.Ok? {
      JoinSnoc(es, r.tree, Empty);
      JoinSnoc(Snoc(es, r.tree), r.tree, Empty);
      if Sees(r.rest, Comma) && ParseElems(r.rest[1..]).Ok? { JoinSnoc(es, r.tree, ParseElems(r.rest[1..]).tree); }
    }
  }

  lemma {:induction false} ArgsParts(es: Exprs, ts: seq<Token>)
    ensures Onto(es, ParseArgs(ts)) ==
      match ParseExpr(ts, 0)
      case Bad(f) => Bad(f)
      case Ok(e, rest) =>
        if Sees(rest, Comma) then Onto(Snoc(es, e), ParseArgs(rest[1..])) else Ok(Snoc(es, e), rest)
  {
    hide ParseExpr;
    var r := ParseExpr(ts, 0);
    if r.Ok? {
      JoinSnoc(es, r.tree, Empty);
      JoinSnoc(Snoc(es, r.tree), r.tree, Empty);
      if Sees(r.rest, Comma) && ParseArgs(r.rest[1..]).Ok? { JoinSnoc(es, r.tree, ParseArgs(r.rest[1..]).tree); }
    }
  }

  function CallInst(adjust: nat, method_: Option<Name>, args: Exprs, k: seq<Value>, locals: seq<Name>): Inst {
    match method_
    case None => ICall(adjust, U8(Count(args)))
    case Some(_) => ISelfCall(adjust, U8(Count(args)), U12(|ExprsK(args, k, locals)|))
  }

  function CallK(method_: Option<Name>, args: Exprs, k: seq<Value>, locals: seq<Name>): seq<Value> {
    match method_
    case None => ExprsK(args, k, locals)
    case Some(m) => ExprsK(args, k, locals) + [Str(m)]
  }

  lemma {:induction false} CallArgsParts(ts: seq<Token>)
    ensures ParseCallArgs(ts) ==
      if Sees(ts, LPar) then
        if Sees(ts[1..], RPar) then Ok(Empty, ts[2..])
        else
          match ParseArgs(ts[1..])
          case Bad(f) => Bad(f)
          case Ok(es, rest) => if Sees(rest, RPar) then Ok(es, rest[1..]) else Bad(Reject)
      else if ts != [] && ts[0].TStr? && ts[0].text.Some? then
        Ok(More(Lit(StrLit(ts[0].text.value)), Empty), ts[1..])
      else Bad(Reject)
  {
    hide ParseArgs;
  }

  lemma {:induction false} PrimaryParts(ts: seq<Token>)
    ensures ParsePrimary(ts) ==
      if Sees(ts, LPar) then
        match ParseExpr(ts[1..], 0)
        case Bad(f) => Bad(f)
        case Ok(e, rest) => if Sees(rest, RPar) then Ok(e, rest[1..]) else Bad(Reject)
      else if SeesSym(ts) then Ok(Sym(ts[0].name), ts[1..])
      else Bad(Reject)
  {
    hide ParseExpr;
  }

  lemma {:induction false} SuffixParts(e: Expr, ts: seq<Token>)
    ensures Suffix(e, ts) ==
      if !SeesSuffix(ts) then Ok(e, ts)
      else if ts[0] == Dot then
        if SeesSym(ts[1..]) then Suffix(Field(e, ts[1].name), ts[2..]) else Bad(Reject)
      else if ts[0] == LBrack then
        match ParseKey(ts)
        case Bad(f) => Bad(f)
        case Ok(key, rest) => Suffix(Index(e, key), rest)
      else if ts[0] == Colon then
        if !SeesSym(ts[1..]) then Bad(Reject)
        else
          match ParseCallArgs(ts[2..])
          case Bad(f) => Bad(f)
          case Ok(args, rest) => Suffix(Method(e, ts[1].name, args), rest)
      else
        match ParseCallArgs(ts)
        case Bad(f) => Bad(f)
        case Ok(args, rest) => Suffix(Call(e, args), rest)
  {
    hide ParseKey, ParseCallArgs;
  }

  lemma {:induction false} SuffixCallParts(e: Expr, ts: seq<Token>)
    requires SeesSuffix(ts) && !Sees(ts, Dot) && !Sees(ts, LBrack)
    ensures Suffix(e, ts) ==
      match CallOf(e, ts)
      case Bad(f) => Bad(f)
      case Ok(c, rest) => Suffix(c, rest)
  {
    hide ParseCallArgs;
  }

  lemma {:induction false} FieldShape(e: Expr, x: Name, k: seq<Value>, locals: seq<Name>)
    ensures ExprK(Field(e, x), k, locals) == ExprK(e, k, locals) + [Str(x)]
    ensures ExprCode(Field(e, x), k, locals) == ExprCode(e, k, locals) + [IGetConst(U16(|ExprK(e, k, locals)|))]
  {
  }

  lemma {:induction false} IndexShape(e: Expr, key: Expr, k: seq<Value>, locals: seq<Name>)
    ensures var k1 := ExprK(e, k, locals);
      ExprK(Index(e, key), k, locals) == ExprK(key, k1, locals) &&
      ExprCode(Index(e, key), k, locals) == ExprCode(e, k, locals) + ExprCode(key, k1, locals) + [IGetStack]
  {
  }

  function CallExpr(e: Expr, method_: Option<Name>, args: Exprs): Expr {
    match method_
    case None => Call(e, args)
    case Some(m) => Method(e, m, args)
  }

  lemma {:induction false} CallShape(e: Expr, method_: Option<Name>, args: Exprs, adjust: nat, k: seq<Value>,
      locals: seq<Name>)
    ensures var k1 := ExprK(e, k, locals);
      var c := CallExpr(e, method_, args);
      ExprK(c, k, locals) == CallK(method_, args, k1, locals) &&
      CallCode(c, k, locals, adjust) ==
        ExprCode(e, k, locals) + ExprsCode(args, k1, locals) + [CallInst(adjust, method_, args, k1, locals)] &&
      ExprCode(c, k, locals) == CallCode(c, k, locals, 1)
  {
    hide ExprCode, ExprsCode, ExprsK;
    CallExprCode(CallExpr(e, method_, args), k, locals);
  }

  lemma {:induction false} CallExprCode(c: Expr, k: seq<Value>, locals: seq<Name>)
    requires c.Call? || c.Method?
    ensures ExprCode(c, k, locals) == CallCode(c, k, locals, 1)
  {
    hide CallCode;
  }

  lemma {:induction false} SlotAt(locals: seq<Name>, x: Name, i: nat)
    requires i < |locals| && locals[i] == x && forall j | 0 <= j < i :: locals[j] != x
    ensures Slot(locals, x) == i
  {
  }

  // ------------------------------------------------------------------
  // Chains of conditions
  // ------------------------------------------------------------------

  lemma {:induction false} ElseExtends(g: Guard, b: Block, k: seq<Value>, sc: Scope, at: nat, loop: Loop)
    requires IsOpen(g)
    requires at <= LastHole(g, k, sc, at, loop) < at + |OpenCode(g, k, sc, at, loop)|
    ensures var n := at + |OpenCode(g, k, sc, at, loop)| + 1;
      var g1 := Append(g, Else(b));
      var k1 := GuardK(g, k, sc);
      var sc1 := GuardScope(g, sc);
      !g1.rest.Fi? && OpenCode(g1, k, sc, at, loop) ==
        Closed(g, k, sc, at, loop) + [IPanic] + BlockCode(b, k1, sc1, n, loop) &&
      GuardK(g1, k, sc) == BlockK(b, k1, sc1) && GuardScope(g1, sc) == BlockScope(b, sc1) &&
      GuardBreaks(g1, k, sc, at, loop) == GuardBreaks(g, k, sc, at, loop) + BlockBreaks(b, k1, sc1, n, loop) &&
      OutHoles(g1, k, sc, at, loop) == OutHoles(g, k, sc, at, loop) + [n - 1]
  {
    AppendTables(g, Else(b), k, sc);
    AppendCode(g, Else(b), k, sc, at, loop);
    AppendBreaks(g, Else(b), k, sc, at, loop);
    AppendHoles(g, Else(b), k, sc, at, loop);
    AppendRest(g, Else(b));
    ElseIs(b, GuardK(g, k, sc), GuardScope(g, sc), at + |OpenCode(g, k, sc, at, loop)| + 1, loop);
    hide OpenCode, LastHole, OutHoles, IsOpen, GuardK, GuardScope, GuardBreaks, ChainBreaks, ChainK, ChainScope,
      OpenRest, Append, Closed;
  }

  lemma {:induction false} ElseIs(b: Block, k: seq<Value>, sc: Scope, at: nat, loop: Loop)
    ensures ChainK(Else(b), k, sc) == BlockK(b, k, sc) && ChainScope(Else(b), sc) == BlockScope(b, sc)
    ensures ChainBreaks(Else(b), k, sc, at, loop) == BlockBreaks(b, k, sc, at, loop)
    ensures OpenRest(Else(b), k, sc, at, loop) == BlockCode(b, k, sc, at, loop)
  {
    hide BlockCode, BlockK, BlockScope, BlockBreaks;
  }

  lemma {:induction false} AppendRest(g: Guard, ch: Chain)
    requires IsOpen(g) && ch != Fi
    ensures !Append(g, ch).rest.Fi?
  {
  }

  /** The chain `g`, and what the grammar finds after it. */
  function OntoGuard(g: Guard, r: Parsed<Chain>): Parsed<Guard> {
    match r
    case Bad(f) => Bad(f)
    case Ok(ch, rest) => Ok(Append(g, ch), rest)
  }

  lemma {:induction false} GuardGrammar(ts: seq<Token>, sc: Scope, inside: bool)
    ensures ParseGuard(ts, sc, inside) ==
      match ParsePart(ts, sc, inside)
      case Bad(f) => Bad(f)
      case Ok(g, rest) => OntoGuard(g, ParseChain(rest, GuardScope(g, sc), inside))
  {
    hide ParseExpr, ParseBlock, ParseChain, BlockScope;
    var r := ParsePart(ts, sc, inside);
    if r.Ok? { PartScope(r.tree, sc); }
  }

  lemma {:induction false} PartScope(g: Guard, sc: Scope)
    requires g.rest.Fi?
    ensures GuardScope(g, sc) == BlockScope(g.block, sc)
  {
    hide BlockScope;
  }

  lemma {:induction false} ElifGrammar(g: Guard, ts: seq<Token>, sc: Scope, inside: bool)
    requires Sees(ts, TElif) && IsOpen(g)
    ensures OntoGuard(g, ParseChain(ts, sc, inside)) ==
      match ParsePart(ts[1..], sc, inside)
      case Bad(f) => Bad(f)
      case Ok(p, rest) => OntoGuard(Append(g, Elif(p)), ParseChain(rest, GuardScope(p, sc), inside))
  {
    ElifChain(ts, sc, inside);
    GuardGrammar(ts[1..], sc, inside);
    hide ParseGuard, ParsePart, ParseChain, GuardScope, Append, IsOpen;
    var r := ParsePart(ts[1..], sc, inside);
    if r.Ok? {
      var q := ParseChain(r.rest, GuardScope(r.tree, sc), inside);
      PartOpen(r.tree);
      if q.Ok? { AppendTwice(g, r.tree, q.tree); }
    }
  }

  lemma {:induction false} PartOpen(g: Guard)
    requires g.rest.Fi?
    ensures IsOpen(g)
  {
  }

  lemma {:induction false} ElifChain(ts: seq<Token>, sc: Scope, inside: bool)
    requires Sees(ts, TElif)
    ensures ParseChain(ts, sc, inside) ==
      match ParseGuard(ts[1..], sc, inside)
      case Bad(f) => Bad(f)
      case Ok(g, rest) => Ok(Elif(g), rest)
  {
    hide ParseGuard;
  }

  lemma {:induction false} ElseGrammar(g: Guard, ts: seq<Token>, sc: Scope, inside: bool)
    requires !Sees(ts, TElif) && IsOpen(g)
    ensures OntoGuard(g, ParseChain(ts, sc, inside)) ==
      if Sees(ts, TElse) then
        match ParseBlock(ts[1..], sc, inside)
        case Bad(f) => Bad(f)
        case Ok(b, rest) => Ok(Append(g, Else(b)), rest)
      else Ok(g, ts)
  {
    hide ParseBlock, Append, IsOpen;
    AppendFi(g);
  }

  /** The chain begins with one part. */
  lemma {:induction false} PartBegins(g: Guard, k: seq<Value>, sc: Scope, at: nat, loop: Loop)
    requires g.rest.Fi?
    ensures IsOpen(g) && LastHole(g, k, sc, at, loop) == BlockPos(g, k, sc, at) - 1
    ensures OutHoles(g, k, sc, at, loop) == []
  {
    hide ExprCode, BlockCode;
  }

  /** Once the jumps are filled, what was emitted is the code of the chain. */
  lemma {:induction false} IfEnds(g: Guard, code: Code, k: seq<Value>, sc: Scope, loop: Loop, outs: seq<nat>,
      alone: bool)
    requires alone <==> g.rest.Fi?
    requires outs == OutHoles(g, k, sc, |code|, loop)
    ensures var x := OpenCode(g, k, sc, |code|, loop);
      (forall h | h in outs :: h < |code + x|) &&
      var y := Filled(code + x, 0, outs, |code + x|);
      if alone then
        var hole := LastHole(g, k, sc, |code|, loop);
        hole < |y| && y[hole := IJne(Ahead(|y| - hole))] == code + GuardCode(g, k, sc, |code|, loop, true)
      else y == code + GuardCode(g, k, sc, |code|, loop, true)
  {
    hide OpenCode, GuardCode, LastHole, OutHoles, Filled;
    var x, at := OpenCode(g, k, sc, |code|, loop), |code|;
    if alone {
      PartBegins(g, k, sc, at, loop);
      FilledNone(code + x, 0, |code + x|);
      LastCode(g, k, sc, at, loop);
      UpdateMiddle(code, x, [], BlockPos(g, k, sc, at) - 1 - at, IJne(Ahead(|x| - (BlockPos(g, k, sc, at) - 1 - at))));
      assert code + x + [] == code + x && code + GuardCode(g, k, sc, at, loop, true) + [] ==
        code + GuardCode(g, k, sc, at, loop, true);
    } else {
      ChainEnds(g, k, sc, at, loop, true);
      FilledMiddle(code, x, [], 0, outs, |code + x|);
      assert code + x + [] == code + x && code + GuardCode(g, k, sc, at, loop, true) + [] ==
        code + GuardCode(g, k, sc, at, loop, true);
    }
  }

  // ------------------------------------------------------------------
  // Loops, one rule at a time
  // ------------------------------------------------------------------

  /** The code of a loop that has been left. */
  function LeftLoop(code: Code, l: LoopInfo): Code
    requires l.retry <= |code| && (!l.endless ==> l.cond < |code|)
  {
    var y := Filled(code + [IJmp(Back(|code| - l.retry))], 0, l.jumps, |code| + 1);
    if l.endless then y else y[l.cond := IForeach(Ahead(|y| - l.cond))]
  }

  function ForHeader(e: Expr, x: Name, k: seq<Value>, sc1: Scope): Code {
    var sc2 := BodyScope(sc1);
    ExprCode(e, k, sc1.locals) +
    [IStoreLocal(U16(|sc1.locals|)), IPushLocal(U16(|sc1.locals|)), ICall(1, 0), IPanic,
      StoreCode(x, ExprK(e, k, sc1.locals), sc2.locals)]
  }

  lemma {:induction false} EndlessParts(ts: seq<Token>, sc: Scope)
    requires Sees(ts, LBrace)
    ensures ParseFor(ts, sc) ==
      match ParseBlock(ts, sc, true)
      case Bad(f) => Bad(f)
      case Ok(b, rest) => Ok(Forever(b), rest)
  {
    hide ParseBlock;
  }

  lemma {:induction false} ForParts(ts: seq<Token>, sc: Scope)
    requires !Sees(ts, LBrace)
    ensures ParseFor(ts, sc) ==
      var declare := Sees(ts, TVar);
      var ts1 := if declare then ts[1..] else ts;
      if !SeesSym(ts1) || (declare && ts1[0].name in sc.locals) then Bad(Reject)
      else ParseForIn(declare, ts1[0].name, ts1[1..], sc)
  {
    hide ParseBlock, ParseForIn;
  }

  lemma {:induction false} ForInParts(declare: bool, x: Name, ts: seq<Token>, sc: Scope)
    ensures ParseForIn(declare, x, ts, sc) ==
      var sc1 := DeclareIf(declare, sc, x);
      if !Sees(ts, TIn) then Bad(Reject)
      else
        match ParseExpr(ts[1..], 0)
        case Bad(f) => Bad(f)
        case Ok(e, rest) =>
          if IterName(sc1.fors) in sc1.locals then Bad(Reject)
          else
            match ParseBlock(rest, BodyScope(sc1), true)
            case Bad(f) => Bad(f)
            case Ok(b, rest1) => Ok(ForIn(declare, x, e, b), rest1)
  {
    hide ParseBlock, ParseExpr, IterName;
  }

  lemma {:induction false} SlotNew(locals: seq<Name>, x: Name)
    requires x !in locals
    ensures Slot(locals + [x], x) == |locals|
  {
    SlotAt(locals + [x], x, |locals|);
  }

  lemma {:induction false} HeaderShape(e: Expr, x: Name, k: seq<Value>, sc1: Scope, code: Code)
    ensures code + ExprCode(e, k, sc1.locals) + [IStoreLocal(U16(|sc1.locals|))] +
            [IPushLocal(U16(|sc1.locals|)), ICall(1, 0), IPanic,
              StoreCode(x, ExprK(e, k, sc1.locals), BodyScope(sc1).locals)] ==
            code + ForHeader(e, x, k, sc1)
    ensures |ForHeader(e, x, k, sc1)| == |ExprCode(e, k, sc1.locals)| + 5
  {
    hide ExprCode, ExprK, StoreCode, IterName;
  }

  lemma {:induction false} HeaderSize(e: Expr, x: Name, k: seq<Value>, sc1: Scope)
    ensures |ForHeader(e, x, k, sc1)| == |ExprCode(e, k, sc1.locals)| + 5
  {
    hide ExprCode, ExprK, StoreCode, IterName;
  }

  /** The end of an endless loop whose body was just compiled. */
  lemma {:induction false} ForeverEnds(b: Block, code: Code, k: seq<Value>, sc: Scope, loop: Loop)
    ensures var at := |code|;
      var x := BlockCode(b, k, sc, at, Open(at));
      var l := LoopInfo(at, 0, true, [] + BlockBreaks(b, k, sc, at, Open(at)));
      (forall h | h in l.jumps :: h < |code + x|) &&
      LeftLoop(code + x, l) == code + StmtCode(Forever(b), k, sc, at, loop) &&
      StmtK(Forever(b), k, sc) == BlockK(b, k, sc) && StmtScope(Forever(b), sc) == BlockScope(b, sc) &&
      StmtBreaks(Forever(b), k, sc, at, loop) == []
  {
    hide BlockCode, BlockK, BlockScope, BlockBreaks, Filled;
    var at := |code|;
    var x, holes := BlockCode(b, k, sc, at, Open(at)), BlockBreaks(b, k, sc, at, Open(at));
    var exit := at + |x| + 1;
    assert [] + holes == holes;
    BlockFilled(b, k, sc, at, at, exit);
    FilledMiddle(code, x, [IJmp(Back(|x|))], 0, holes, exit);
    Assoc(code, Filled(x, at, holes, exit), [IJmp(Back(|x|))]);
    assert StmtCode(Forever(b), k, sc, at, loop) == BlockCode(b, k, sc, at, Shut(at, exit)) + [IJmp(Back(|x|))] by {
      BlockAnyPlace(b, k, sc, at, Open(at), at, Shut(at, exit));
    }
  }

  /** The end of a `for` over an iterator whose body was just compiled. */
  lemma {:induction false} ForInEnds(declare: bool, x: Name, e: Expr, b: Block, code: Code, k: seq<Value>, sc: Scope,
      loop: Loop)
    ensures var at := |code|;
      var s := ForIn(declare, x, e, b);
      var sc1 := DeclareIf(declare, sc, x);
      var head := code + ForHeader(e, x, k, sc1);
      var n := |head|;
      var k2 := SymK(x, ExprK(e, k, sc1.locals), BodyScope(sc1).locals);
      var body := BlockCode(b, k2, BodyScope(sc1), n, Open(n - 4));
      var l := LoopInfo(n - 4, n - 2, false, [] + BlockBreaks(b, k2, BodyScope(sc1), n, Open(n - 4)));
      (forall h | h in l.jumps :: h < |head + body|) && n >= 5 &&
      LeftLoop(head + body, l) == code + StmtCode(s, k, sc, at, loop) &&
      StmtK(s, k, sc) == BlockK(b, k2, BodyScope(sc1)) && StmtScope(s, sc) == BlockScope(b, BodyScope(sc1)) &&
      StmtBreaks(s, k, sc, at, loop) == []
  {
    hide BlockCode, BlockK, BlockScope, BlockBreaks, Filled, StmtCode, ExprCode, ExprK, SymK, StoreCode, StmtK,
      StmtScope, StmtBreaks, IterName, ForInCode;
    var sc1 := DeclareIf(declare, sc, x);
    var k2 := SymK(x, ExprK(e, k, sc1.locals), BodyScope(sc1).locals);
    var c, store := ExprCode(e, k, sc1.locals), StoreCode(x, ExprK(e, k, sc1.locals), BodyScope(sc1).locals);
    var n := |code + c| + 5;
    var body, holes := BlockCode(b, k2, BodyScope(sc1), n, Open(n - 4)),
      BlockBreaks(b, k2, BodyScope(sc1), n, Open(n - 4));
    var shut := BlockCode(b, k2, BodyScope(sc1), n, Shut(n - 4, n + |body| + 1));
    ForInTables(declare, x, e, b, k, sc, |code|, loop);
    ForInShape(declare, x, e, b, k, sc, |code|, loop);
    assert [] + holes == holes;
    var exit := n + |body| + 1;
    BlockFilled(b, k2, BodyScope(sc1), n, n - 4, exit);
    var head := code + ForHeader(e, x, k, sc1);
    FilledMiddle(head, body, [IJmp(Back(|body| + 4))], 0, holes, exit);
    HeadFilled(code, c, |sc1.locals|, store, shut);
  }

  lemma {:induction false} ForInTables(declare: bool, x: Name, e: Expr, b: Block, k: seq<Value>, sc: Scope, at: nat,
      loop: Loop)
    ensures var s := ForIn(declare, x, e, b);
      var sc1 := DeclareIf(declare, sc, x);
      var k2 := SymK(x, ExprK(e, k, sc1.locals), BodyScope(sc1).locals);
      StmtK(s, k, sc) == BlockK(b, k2, BodyScope(sc1)) && StmtScope(s, sc) == BlockScope(b, BodyScope(sc1)) &&
      StmtBreaks(s, k, sc, at, loop) == []
  {
    hide BlockK, BlockScope, ExprK, SymK;
  }

  lemma {:induction false} ForInShape(declare: bool, x: Name, e: Expr, b: Block, k: seq<Value>, sc: Scope, at: nat,
      loop: Loop)
    ensures var s := ForIn(declare, x, e, b);
      var sc1 := DeclareIf(declare, sc, x);
      var c := ExprCode(e, k, sc1.locals);
      var k1 := ExprK(e, k, sc1.locals);
      var k2 := SymK(x, k1, BodyScope(sc1).locals);
      var n := at + |c| + 5;
      var size := |BlockCode(b, k2, BodyScope(sc1), n, Open(n - 4))|;
      StmtCode(s, k, sc, at, loop) ==
        ForInCode(c, |sc1.locals|, StoreCode(x, k1, BodyScope(sc1).locals),
          BlockCode(b, k2, BodyScope(sc1), n, Shut(n - 4, n + size + 1)))
  {
    hide BlockCode, ExprCode, ExprK, SymK, StoreCode, ForInCode;
  }

  lemma {:induction false} HeadFilled(code: Code, c: Code, i: nat, store: Inst, body: Code)
    ensures var y := code + (c + [IStoreLocal(U16(i)), IPushLocal(U16(i)), ICall(1, 0), IPanic, store]) + body +
                     [IJmp(Back(|body| + 4))];
      var hole := |code| + |c| + 3;
      y[hole := IForeach(Ahead(|y| - hole))] == code + ForInCode(c, i, store, body)
  {
    var y := code + (c + [IStoreLocal(U16(i)), IPushLocal(U16(i)), ICall(1, 0), IPanic, store]) + body +
             [IJmp(Back(|body| + 4))];
    var pre := code + c + [IStoreLocal(U16(i)), IPushLocal(U16(i)), ICall(1, 0)];
    assert y == pre + [IPanic] + ([store] + body + [IJmp(Back(|body| + 4))]);
    UpdateMiddle(pre, [IPanic], [store] + body + [IJmp(Back(|body| + 4))], 0, IForeach(Ahead(|body| + 3)));
  }

  // ------------------------------------------------------------------
  // Statements, one rule at a time
  // ------------------------------------------------------------------

  lemma {:induction false} StmtParts(ts: seq<Token>, sc: Scope, inside: bool)
    ensures ParseStmt(ts, sc, inside) ==
      if ts == [] then Bad(Reject)
      else
        match ts[0]
        case Semi => Ok(Nop, ts[1..])
        case TIf => (
          match ParseGuard(ts[1..], sc, inside)
          case Bad(f) => Bad(f)
          case Ok(g, rest) => Ok(If(g), rest))
        case TWith => Bad(Outside)
        case TFor => ParseFor(ts[1..], sc)
        case TFunc => Bad(Outside)
        case TVar => (
          if Sees(ts[1..], TFunc) then Bad(Outside)
          else
            match ParseDecls(ts[1..], sc.locals)
            case Bad(f) => Bad(f)
            case Ok(ds, rest) => Ok(Var(ds), rest))
        case TReturn => (
          match ParseExpr(ts[1..], 0)
          case Bad(f) => Bad(f)
          case Ok(e, rest) => Ok(Return(e), rest))
        case TBreak => if inside then Ok(Break, ts[1..]) else Bad(Outside)
        case TContinue => if inside then Ok(Continue, ts[1..]) else Bad(Outside)
        case _ => ParseExprStmt(ts)
  {
    hide ParseGuard, ParseFor, ParseDecls, ParseExpr, ParseExprStmt;
  }

  lemma {:induction false} NopShape(k: seq<Value>, sc: Scope, at: nat, loop: Loop)
    ensures StmtCode(Nop, k, sc, at, loop) == [] && StmtBreaks(Nop, k, sc, at, loop) == []
    ensures StmtK(Nop, k, sc) == k && StmtScope(Nop, sc) == sc
  {
  }

  lemma {:induction false} IfShape(g: Guard, k: seq<Value>, sc: Scope, at: nat, loop: Loop)
    ensures StmtCode(If(g), k, sc, at, loop) == GuardCode(g, k, sc, at, loop, true)
    ensures StmtBreaks(If(g), k, sc, at, loop) == GuardBreaks(g, k, sc, at, loop)
    ensures StmtK(If(g), k, sc) == GuardK(g, k, sc) && StmtScope(If(g), sc) == GuardScope(g, sc)
  {
    hide GuardCode, GuardK, GuardScope, GuardBreaks;
  }

  lemma {:induction false} VarShape(ds: Decls, k: seq<Value>, sc: Scope, at: nat, loop: Loop)
    ensures StmtCode(Var(ds), k, sc, at, loop) == DeclsCode(ds, k, sc.locals) &&
      StmtBreaks(Var(ds), k, sc, at, loop) == []
    ensures StmtK(Var(ds), k, sc) == DeclsK(ds, k, sc.locals)
    ensures StmtScope(Var(ds), sc) == Scope(DeclsLocals(ds, sc.locals), sc.fors)
  {
    hide DeclsCode, DeclsK, DeclsLocals, DeclsScope;
    DeclsLocalsScope(ds, sc);
  }

  lemma {:induction false} ReturnShape(e: Expr, k: seq<Value>, sc: Scope, at: nat, loop: Loop)
    ensures StmtCode(Return(e), k, sc, at, loop) == ExprCode(e, k, sc.locals) + [IRet(1)]
    ensures StmtBreaks(Return(e), k, sc, at, loop) == []
    ensures StmtK(Return(e), k, sc) == ExprK(e, k, sc.locals) && StmtScope(Return(e), sc) == sc
  {
    hide ExprCode, ExprK;
  }

  function Returning(r: Parsed<Expr>): Parsed<Stmt> {
    match r
    case Bad(f) => Bad(f)
    case Ok(e, rest) => Ok(Return(e), rest)
  }

  lemma {:induction false} GotoShape(t: Stmt, k: seq<Value>, sc: Scope)
    requires t == Break || t == Continue
    ensures StmtK(t, k, sc) == k && StmtScope(t, sc) == sc
  {
  }
}
