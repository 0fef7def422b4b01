/** The grammar of scripts as a reference parser: from tokens to syntax trees. */
module ScriptParse {
  import opened Basics
  import opened ScriptSyntax

  /** `Reject` is a syntax error; `Outside` is a construct that is not part of this model. */
  datatype Fault = Reject | Outside

  datatype Parsed<+T> = Ok(tree: T, rest: seq<Token>) | Bad(fault: Fault)

  // ------------------------------------------------------------------
  // Operators
  // ------------------------------------------------------------------

  function Prio(op: BinaryOp): nat {
    match op
    case Add | Sub => 6
    case Mul | Div | Mod => 7
    case Eq | Ne | Match | Lt | Le | Gt | Ge => 3
    case And => 2
    case Or => 1
  }

  const PRIO_UNARY: nat := 8

  function UnaryOf(ts: seq<Token>): Option<UnaryOp> {
    if ts == [] then None
    else if ts[0] == TOp(Sub) then Some(Minus)
    else if ts[0] == TNot then Some(Not)
    else if ts[0] == TBang then Some(NotNil)
    else if ts[0] == TTypeof then Some(TypeOf)
    else None
  }

  function BinaryOf(ts: seq<Token>): Option<BinaryOp> {
    if ts != [] && ts[0].TOp? then Some(ts[0].op) else None
  }

  /** The next token is a binary operator that binds tighter than `limit`. */
  predicate Climbs(ts: seq<Token>, limit: nat) {
    BinaryOf(ts).Some? && Prio(BinaryOf(ts).value) > limit
  }

  predicate Sees(ts: seq<Token>, t: Token) {
    ts != [] && ts[0] == t
  }

  predicate SeesSym(ts: seq<Token>) {
    ts != [] && ts[0].TSym?
  }

  /** The tokens without the first; the scanner stays at the end once it is there. */
  function Skip(ts: seq<Token>): (r: seq<Token>)
    ensures |r| <= |ts|
  {
    if ts == [] then [] else ts[1..]
  }

  predicate SeesSuffix(ts: seq<Token>) {
    ts != [] && (ts[0] == Dot || ts[0] == LBrack || ts[0] == Colon || ts[0] == LPar || ts[0].TStr?)
  }

  // ------------------------------------------------------------------
  // Expressions
  // ------------------------------------------------------------------

  function ParseExpr(ts: seq<Token>, limit: nat): (r: Parsed<Expr>)
    ensures r.Ok? ==> |r.rest| < |ts|
    decreases |ts|, 7
  {
    match ParseOperand(ts)
    case Bad(f) => Bad(f)
    case Ok(e, rest) => Climb(e, rest, limit)
  }

  function ParseOperand(ts: seq<Token>): (r: Parsed<Expr>)
    ensures r.Ok? ==> |r.rest| < |ts|
    decreases |ts|, 6
  {
    match UnaryOf(ts)
    case Some(op) => (
      match ParseExpr(ts[1..], PRIO_UNARY)
      case Bad(f) => Bad(f)
      case Ok(e, rest) => Ok(Unary(op, e), rest))
    case None => ParseSimple(ts)
  }

  /** The operators that follow the operand `l`. */
  function Climb(l: Expr, ts: seq<Token>, limit: nat): (r: Parsed<Expr>)
    ensures r.Ok? ==> |r.rest| <= |ts|
    decreases |ts|, 5
  {
    if Climbs(ts, limit) then
      var op := ts[0].op;
      match ParseExpr(ts[1..], Prio(op))
      case Bad(f) => Bad(f)
      case Ok(e, rest) => Climb(Binary(op, l, e), rest, limit)
    else Ok(l, ts)
  }

  function LiteralOf(t: Token): Option<Literal> {
    match t
    case TNil => Some(NilLit)
    case TTrue => Some(BoolLit(true))
    case TFalse => Some(BoolLit(false))
    case TInt(n) => Some(IntLit(n))
    case TStr(Some(z)) => Some(StrLit(z))
    case _ => None
  }

  /** An array literal is closed by whatever token follows its last element. */
  function ParseSimple(ts: seq<Token>): (r: Parsed<Expr>)
    ensures r.Ok? ==> |r.rest| < |ts|
    decreases |ts|, 4
  {
    if ts == [] then Bad(Reject)
    else if ts[0] == TStr(None) then Bad(Reject)
    else if LiteralOf(ts[0]).Some? then Ok(Lit(LiteralOf(ts[0]).value), ts[1..])
    else if ts[0] == LBrace || ts[0] == TSkls || ts[0] == TFunc then Bad(Outside)
    else if ts[0] == LBrack then
      match ParseElems(ts[1..])
      case Bad(f) => Bad(f)
      case Ok(es, rest) => Ok(Array(es), Skip(rest))
    else
      match ParsePrimary(ts)
      case Bad(f) => Bad(f)
      case Ok(e, rest) => Suffix(e, rest)
  }

  /** The elements of an array literal, up to a token that cannot go on. */
  function ParseElems(ts: seq<Token>): (r: Parsed<Exprs>)
    ensures r.Ok? ==> |r.rest| <= |ts|
    decreases |ts|, 8
  {
    if Sees(ts, RBrack) then Ok(Empty, ts)
    else
      match ParseExpr(ts, 0)
      case Bad(f) => Bad(f)
      case Ok(e, rest) =>
        if Sees(rest, Comma) then Prefix(e, ParseElems(rest[1..])) else Ok(More(e, Empty), rest)
  }

  function Prefix(e: Expr, r: Parsed<Exprs>): Parsed<Exprs> {
    match r
    case Bad(f) => Bad(f)
    case Ok(es, rest) => Ok(More(e, es), rest)
  }

  function ParsePrimary(ts: seq<Token>): (r: Parsed<Expr>)
    ensures r.Ok? ==> |r.rest| < |ts|
    decreases |ts|, 3
  {
    if Sees(ts, LPar) then
      match ParseExpr(ts[1..], 0)
      case Bad(f) => Bad(f)
      case Ok(e, rest) => if Sees(rest, RPar) then Ok(e, rest[1..]) else Bad(Reject)
    else if SeesSym(ts) then Ok(Sym(ts[0].name), ts[1..])
    else Bad(Reject)
  }

  /** Fields, indices and calls that follow `e`. */
  function Suffix(e: Expr, ts: seq<Token>): (r: Parsed<Expr>)
    ensures r.Ok? ==> |r.rest| <= |ts|
    decreases |ts|, 2
  {
    if !SeesSuffix(ts) then Ok(e, ts)
    else if ts[0] == Dot then
      if SeesSym(ts[1..]) then Suffix(Field(e, ts[1].name), ts[2..]) else Bad(Reject)
    else if ts[0] == LBrack then
      match ParseKey(ts)
      case Bad(f) => Bad(f)
      case Ok(key, rest) => Suffix(Index(e, key), rest)
    else if ts[0] == Colon then
      if !SeesSym(ts[1..]) then Bad(Reject)
      else
        match ParseCallArgs(ts[2..])
        case Bad(f) => Bad(f)
        case Ok(args, rest) => Suffix(Method(e, ts[1].name, args), rest)
    else
      match ParseCallArgs(ts)
      case Bad(f) => Bad(f)
      case Ok(args, rest) => Suffix(Call(e, args), rest)
  }

  /** `[key]`. */
  function ParseKey(ts: seq<Token>): (r: Parsed<Expr>)
    requires Sees(ts, LBrack)
    ensures r.Ok? ==> |r.rest| < |ts|
    decreases |ts|, 1
  {
    match ParseExpr(ts[1..], 0)
    case Bad(f) => Bad(f)
    case Ok(e, rest) => if Sees(rest, RBrack) then Ok(e, rest[1..]) else Bad(Reject)
  }

  /** The arguments of a call: a list in parentheses, or one string. */
  function ParseCallArgs(ts: seq<Token>): (r: Parsed<Exprs>)
    ensures r.Ok? ==> |r.rest| < |ts|
    decreases |ts|, 1
  {
    if Sees(ts, LPar) then
      if Sees(ts[1..], RPar) then Ok(Empty, ts[2..])
      else
        match ParseArgs(ts[1..])
        case Bad(f) => Bad(f)
        case Ok(es, rest) => if Sees(rest, RPar) then Ok(es, rest[1..]) else Bad(Reject)
    else if ts != [] && ts[0].TStr? && ts[0].text.Some? then
      Ok(More(Lit(StrLit(ts[0].text.value)), Empty), ts[1..])
    else Bad(Reject)
  }

  function ParseArgs(ts: seq<Token>): (r: Parsed<Exprs>)
    ensures r.Ok? ==> |r.rest| < |ts|
    decreases |ts|, 8
  {
    match ParseExpr(ts, 0)
    case Bad(f) => Bad(f)
    case Ok(e, rest) =>
      if Sees(rest, Comma) then Prefix(e, ParseArgs(rest[1..])) else Ok(More(e, Empty), rest)
  }

  // ------------------------------------------------------------------
  // Statements
  // ------------------------------------------------------------------

  /** What the start of an expression statement comes to: a target, or a call. */
  datatype Lval = Place(target: Target) | Called(call: Expr)

  predicate IsCall(e: Expr) {
    e.Call? || e.Method?
  }

  function DoOf(e: Expr): Stmt
    requires IsCall(e)
  {
    if e.Call? then DoCall(e.func, e.args) else DoMethod(e.self, e.method_, e.args)
  }

  function ParseLval(ts: seq<Token>): (r: Parsed<Lval>)
    ensures r.Ok? ==> |r.rest| < |ts| && (r.tree.Called? ==> IsCall(r.tree.call))
  {
    if SeesSym(ts) then ParseTarget(ToSym(ts[0].name), ts[1..]) else Bad(Reject)
  }

  /** What follows the target `t`; a call is the last suffix, because the values of one in the middle are dropped. */
  function ParseTarget(t: Target, ts: seq<Token>): (r: Parsed<Lval>)
    ensures r.Ok? ==> |r.rest| <= |ts| && (r.tree.Called? ==> IsCall(r.tree.call))
    decreases |ts|
  {
    if !SeesSuffix(ts) then Ok(Place(t), ts)
    else if ts[0] == Dot then
      if SeesSym(ts[1..]) then ParseTarget(ToField(Read(t), ts[1].name), ts[2..]) else Bad(Reject)
    else if ts[0] == LBrack then
      match ParseKey(ts)
      case Bad(f) => Bad(f)
      case Ok(key, rest) => ParseTarget(ToIndex(Read(t), key), rest)
    else if ts[0] == Colon then
      if !SeesSym(ts[1..]) then Bad(Reject)
      else
        match ParseCallArgs(ts[2..])
        case Bad(f) => Bad(f)
        case Ok(args, rest) => LastCall(Method(Read(t), ts[1].name, args), rest)
    else
      match ParseCallArgs(ts)
      case Bad(f) => Bad(f)
      case Ok(args, rest) => LastCall(Call(Read(t), args), rest)
  }

  function LastCall(e: Expr, rest: seq<Token>): (r: Parsed<Lval>)
    ensures r.Ok? ==> r.rest == rest && r.tree == Called(e)
  {
    if SeesSuffix(rest) then Bad(Outside) else Ok(Called(e), rest)
  }

  function ParseExprStmt(ts: seq<Token>): (r: Parsed<Stmt>)
    ensures r.Ok? ==> |r.rest| < |ts|
    ensures r.Ok? ==> r.tree.Assign? || r.tree.DoCall? || r.tree.DoMethod?
  {
    match ParseLval(ts)
    case Bad(f) => Bad(f)
    case Ok(lval, rest) =>
      if Sees(rest, Assigns) then
        match ParseExpr(rest[1..], 0)
        case Bad(f) => Bad(f)
        case Ok(e, rest1) => if lval.Place? then Ok(Assign(lval.target, e), rest1) else Bad(Reject)
      else if lval.Called? then Ok(DoOf(lval.call), rest)
      else Bad(Reject)
  }

  /** Declarations; each name is new. */
  function ParseDecls(ts: seq<Token>, locals: seq<Name>): (r: Parsed<Decls>)
    ensures r.Ok? ==> |r.rest| < |ts| && r.tree.Decl? && DeclsNew(r.tree, locals)
    decreases |ts|
  {
    if !SeesSym(ts) || ts[0].name in locals then Bad(Reject)
    else
      match ParseInit(ts[1..])
      case Bad(f) => Bad(f)
      case Ok(init, rest) =>
        if !Sees(rest, Comma) then Ok(Decl(ts[0].name, init, NoDecl), rest)
        else
          match ParseDecls(rest[1..], locals + [ts[0].name])
          case Bad(f) => Bad(f)
          case Ok(ds, rest1) => Ok(Decl(ts[0].name, init, ds), rest1)
  }

  function ParseInit(ts: seq<Token>): (r: Parsed<Option<Expr>>)
    ensures r.Ok? ==> |r.rest| <= |ts|
  {
    if !Sees(ts, Assigns) then Ok(None, ts)
    else
      match ParseExpr(ts[1..], 0)
      case Bad(f) => Bad(f)
      case Ok(e, rest) => Ok(Some(e), rest)
  }

  function ParseStmt(ts: seq<Token>, sc: Scope, inside: bool): (r: Parsed<Stmt>)
    ensures r.Ok? ==> |r.rest| < |ts| && StmtEnclosed(r.tree, inside) && StmtNew(r.tree, sc)
    decreases |ts|, 0
  {
    if ts == [] then Bad(Reject)
    else
      match ts[0]
      case Semi => Ok(Nop, ts[1..])
      case TIf => (
        match ParseGuard(ts[1..], sc, inside)
        case Bad(f) => Bad(f)
        case Ok(g, rest) => Ok(If(g), rest))
      case TWith => Bad(Outside)
      case TFor => ParseFor(ts[1..], sc)
      case TFunc => Bad(Outside)
      case TVar => (
        if Sees(ts[1..], TFunc) then Bad(Outside)
        else
          match ParseDecls(ts[1..], sc.locals)
          case Bad(f) => Bad(f)
          case Ok(ds, rest) => Ok(Var(ds), rest))
      case TReturn => (
        match ParseExpr(ts[1..], 0)
        case Bad(f) => Bad(f)
        case Ok(e, rest) => Ok(Return(e), rest))
      case TBreak => if inside then Ok(Break, ts[1..]) else Bad(Outside)
      case TContinue => if inside then Ok(Continue, ts[1..]) else Bad(Outside)
      case _ => ParseExprStmt(ts)
  }

  /** `{ block }`. */
  function ParseBlock(ts: seq<Token>, sc: Scope, inside: bool): (r: Parsed<Block>)
    ensures r.Ok? ==> |r.rest| < |ts| && BlockEnclosed(r.tree, inside) && BlockNew(r.tree, sc)
    decreases |ts|, 0
  {
    if Sees(ts, LBrace) then ParseStmts(ts[1..], sc, inside) else Bad(Reject)
  }

  /** Statements up to the closing brace. */
  function ParseStmts(ts: seq<Token>, sc: Scope, inside: bool): (r: Parsed<Block>)
    ensures r.Ok? ==> |r.rest| < |ts| && BlockEnclosed(r.tree, inside) && BlockNew(r.tree, sc)
    decreases |ts|, 1
  {
    if Sees(ts, RBrace) then Ok(Done, ts[1..])
    else
      match ParseStmt(ts, sc, inside)
      case Bad(f) => Bad(f)
      case Ok(s, rest) =>
        match ParseStmts(rest, StmtScope(s, sc), inside)
        case Bad(f) => Bad(f)
        case Ok(b, rest1) => Ok(Then(s, b), rest1)
  }

  /** A condition, its block, and what follows. */
  function ParseGuard(ts: seq<Token>, sc: Scope, inside: bool): (r: Parsed<Guard>)
    ensures r.Ok? ==> |r.rest| < |ts| && GuardEnclosed(r.tree, inside) && GuardNew(r.tree, sc)
    decreases |ts|, 1
  {
    match ParseExpr(ts, 0)
    case Bad(f) => Bad(f)
    case Ok(e, rest) =>
      match ParseBlock(rest, sc, inside)
      case Bad(f) => Bad(f)
      case Ok(b, rest1) =>
        match ParseChain(rest1, BlockScope(b, sc), inside)
        case Bad(f) => Bad(f)
        case Ok(ch, rest2) => Ok(Guard(e, b, ch), rest2)
  }

  function ParseChain(ts: seq<Token>, sc: Scope, inside: bool): (r: Parsed<Chain>)
    ensures r.Ok? ==> |r.rest| <= |ts| && ChainEnclosed(r.tree, inside) && ChainNew(r.tree, sc)
    decreases |ts|, 0
  {
    if Sees(ts, TElif) then
      match ParseGuard(ts[1..], sc, inside)
      case Bad(f) => Bad(f)
      case Ok(g, rest) => Ok(Elif(g), rest)
    else if Sees(ts, TElse) then
      match ParseBlock(ts[1..], sc, inside)
      case Bad(f) => Bad(f)
      case Ok(b, rest) => Ok(Else(b), rest)
    else Ok(Fi, ts)
  }

  /** What follows `for`. */
  function ParseFor(ts: seq<Token>, sc: Scope): (r: Parsed<Stmt>)
    ensures r.Ok? ==> |r.rest| < |ts| && StmtNew(r.tree, sc) && forall inside :: StmtEnclosed(r.tree, inside)
    decreases |ts|, 1
  {
    if Sees(ts, LBrace) then
      match ParseBlock(ts, sc, true)
      case Bad(f) => Bad(f)
      case Ok(b, rest) => Ok(Forever(b), rest)
    else
      var declare := Sees(ts, TVar);
      var ts1 := if declare then ts[1..] else ts;
      if !SeesSym(ts1) || (declare && ts1[0].name in sc.locals) then Bad(Reject)
      else ParseForIn(declare, ts1[0].name, ts1[1..], sc)
  }

  /** What follows the name in `for name in ...`. */
  function ParseForIn(declare: bool, x: Name, ts: seq<Token>, sc: Scope): (r: Parsed<Stmt>)
    ensures r.Ok? ==> |r.rest| < |ts| && forall inside :: StmtEnclosed(r.tree, inside)
    ensures r.Ok? && (declare ==> x !in sc.locals) ==> StmtNew(r.tree, sc)
    decreases |ts|, 1
  {
    var sc1 := DeclareIf(declare, sc, x);
    if !Sees(ts, TIn) then Bad(Reject)
    else
      match ParseExpr(ts[1..], 0)
      case Bad(f) => Bad(f)
      case Ok(e, rest) =>
        if IterName(sc1.fors) in sc1.locals then Bad(Reject)
        else
          match ParseBlock(rest, BodyScope(sc1), true)
          case Bad(f) => Bad(f)
          case Ok(b, rest1) => Ok(ForIn(declare, x, e, b), rest1)
  }

  /** A whole program. */
  function ParseProgram(ts: seq<Token>, sc: Scope): (r: Parsed<Block>)
    ensures r.Ok? ==> r.rest == [] && BlockEnclosed(r.tree, false) && BlockNew(r.tree, sc)
    decreases |ts|
  {
    if ts == [] then Ok(Done, ts)
    else
      match ParseStmt(ts, sc, false)
      case Bad(f) => Bad(f)
      case Ok(s, rest) =>
        match ParseProgram(rest, StmtScope(s, sc))
        case Bad(f) => Bad(f)
        case Ok(b, rest1) => Ok(Then(s, b), rest1)
  }
}
