/** Statements printed as tokens, and parsed back. */
module ScriptWrite {
  import opened Basics
  import opened ScriptSyntax
  import opened ScriptParse
  import opened ScriptPrint

  // ------------------------------------------------------------------
  // Printing
  // ------------------------------------------------------------------

  function ShowDecls(ds: Decls): seq<Token> {
    match ds
    case NoDecl => []
    case Decl(x, init, rest) =>
      [TSym(x)] + (ShowInit(init) + if rest == NoDecl then [] else [Comma] + ShowDecls(rest))
  }

  function ShowInit(init: Option<Expr>): seq<Token> {
    match init
    case None => []
    case Some(e) => [Assigns] + Show(e, 0)
  }

  function ShowStmt(s: Stmt): seq<Token>
    decreases s, 0
  {
    match s
    case Nop => [Semi]
    case Assign(t, e) => Show(Read(t), 0) + ([Assigns] + Show(e, 0))
    case DoCall(f, args) => Show(f, 0) + ShowArgs(args)
    case DoMethod(self, m, args) => Show(self, 0) + ([Colon, TSym(m)] + ShowArgs(args))
    case Var(ds) => [TVar] + ShowDecls(ds)
    case If(g) => [TIf] + ShowGuard(g)
    case Forever(body) => [TFor] + ShowBlock(body)
    case ForIn(declare, x, e, body) => [TFor] + ShowForIn(declare, x, e, body)
    case Break => [TBreak]
    case Continue => [TContinue]
    case Return(e) => [TReturn] + Show(e, 0)
  }

  function ShowForIn(declare: bool, x: Name, e: Expr, body: Block): seq<Token>
    decreases body, 2
  {
    (if declare then [TVar] else []) + ([TSym(x), TIn] + (Show(e, 0) + ShowBlock(body)))
  }

  function ShowBlock(b: Block): seq<Token>
    decreases b, 1
  {
    [LBrace] + (ShowStmts(b) + [RBrace])
  }

  function ShowStmts(b: Block): seq<Token>
    decreases b, 0
  {
    match b
    case Done => []
    case Then(s, tail) => ShowStmt(s) + ShowStmts(tail)
  }

  function ShowGuard(g: Guard): seq<Token>
    decreases g, 0
  {
    Show(g.cond, 0) + (ShowBlock(g.block) + ShowChain(g.rest))
  }

  function ShowChain(c: Chain): seq<Token>
    decreases c, 1
  {
    match c
    case Fi => []
    case Else(b) => [TElse] + ShowBlock(b)
    case Elif(g) => [TElif] + ShowGuard(g)
  }

  // ------------------------------------------------------------------
  // What can be written
  // ------------------------------------------------------------------

  /** A name with fields and indices, which a statement may begin with. */
  predicate IsPath(e: Expr) {
    e.Sym? || (e.Field? && IsPath(e.obj)) || (e.Index? && IsPath(e.obj))
  }

  /** Assignments and calls begin with a path, and a declaration declares something. */
  predicate CanWrite(s: Stmt)
    decreases s, 0
  {
    match s
    case Assign(t, _) => IsPath(Read(t))
    case DoCall(f, _) => IsPath(f)
    case DoMethod(self, _, _) => IsPath(self)
    case Var(ds) => ds.Decl?
    case If(g) => CanWriteGuard(g)
    case Forever(body) => CanWriteBlock(body)
    case ForIn(_, _, _, body) => CanWriteBlock(body)
    case Nop | Break | Continue | Return(_) => true
  }

  predicate CanWriteBlock(b: Block)
    decreases b, 0
  {
    b.Then? ==> CanWrite(b.head) && CanWriteBlock(b.tail)
  }

  predicate CanWriteGuard(g: Guard)
    decreases g, 0
  {
    CanWriteBlock(g.block) &&
    match g.rest
    case Fi => true
    case Else(b) => CanWriteBlock(b)
    case Elif(g1) => CanWriteGuard(g1)
  }

  // ------------------------------------------------------------------
  // Expressions in statements
  // ------------------------------------------------------------------

  /** Tokens that no statement goes on with. */
  predicate Apart(rest: seq<Token>) {
    rest == [] || !(rest[0].TOp? || rest[0].TStr? ||
      rest[0] in {Dot, LBrack, Colon, LPar, Assigns, Comma, TElif, TElse})
  }

  /** Tokens that no expression goes on with. */
  predicate Ends(rest: seq<Token>) {
    rest == [] || !(rest[0].TOp? || rest[0].TStr? || rest[0] in {Dot, LBrack, Colon, LPar})
  }

  lemma {:induction false} ExprWritten(e: Expr, rest: seq<Token>)
    requires Ends(rest)
    ensures ParseExpr(Show(e, 0) + rest, 0) == Ok(e, rest)
  {
    hide Show, ParseExpr;
    PrintParses(e, 0, rest);
  }

  lemma {:induction false} OneToken(t: Token, ts: seq<Token>)
    ensures var all := [t] + ts; all != [] && all[0] == t && all[1..] == ts
  {
  }

  function TargetOf(e: Expr): Target
    requires IsPath(e)
  {
    match e
    case Sym(x) => ToSym(x)
    case Field(obj, x) => ToField(obj, x)
    case Index(obj, key) => ToIndex(obj, key)
  }

  /** A path is read as the target it stands for. */
  lemma {:induction false} PathWritten(e: Expr, rest: seq<Token>)
    requires IsPath(e)
    ensures ParseLval(Show(e, 0) + rest) == ParseTarget(TargetOf(e), rest)
    ensures Show(e, 0) != [] && Show(e, 0)[0].TSym?
  {
    hide ParseTarget, ParseKey, ShowBase;
    match e {
      case Sym(x) =>
        OneToken(TSym(x), rest);
      case Field(obj, x) =>
        var ts := [Dot, TSym(x)] + rest;
        PathWritten(obj, ts);
        BaseShows(obj);
        Assoc(Show(obj, 0), [Dot, TSym(x)], rest);
        FieldTarget(TargetOf(obj), x, rest);
      case Index(obj, key) =>
        var ts := [LBrack] + Show(key, 0) + [RBrack];
        PathWritten(obj, ts + rest);
        BaseShows(obj);
        Assoc(Show(obj, 0), ts, rest);
        KeyParses(key, rest);
        KeyTarget(TargetOf(obj), key, ts + rest, rest);
    }
  }

  lemma {:induction false} BaseShows(e: Expr)
    requires IsPath(e)
    ensures ShowBase(e) == Show(e, 0) && Read(TargetOf(e)) == e
  {
    hide Show;
  }

  lemma {:induction false} FieldTarget(t: Target, x: Name, rest: seq<Token>)
    ensures ParseTarget(t, [Dot, TSym(x)] + rest) == ParseTarget(ToField(Read(t), x), rest)
  {
    var ts := [Dot, TSym(x)] + rest;
    assert ts[0] == Dot && ts[1] == TSym(x) && ts[1..][0] == TSym(x) && ts[2..] == rest;
  }

  lemma {:induction false} KeyTarget(t: Target, key: Expr, ts: seq<Token>, rest: seq<Token>)
    requires Sees(ts, LBrack) && ParseKey(ts) == Ok(key, rest)
    ensures ParseTarget(t, ts) == ParseTarget(ToIndex(Read(t), key), rest)
  {
    hide ParseKey;
  }

  lemma {:induction false} AssignWritten(t: Target, e: Expr, rest: seq<Token>)
    requires IsPath(Read(t)) && Ends(rest)
    ensures ParseExprStmt(ShowStmt(Assign(t, e)) + rest) == Ok(Assign(t, e), rest)
    ensures ShowStmt(Assign(t, e)) != [] && ShowStmt(Assign(t, e))[0].TSym?
  {
    hide ParseExpr, ParseLval, Show;
    var ts := [Assigns] + (Show(e, 0) + rest);
    Assoc([Assigns], Show(e, 0), rest);
    Assoc(Show(Read(t), 0), [Assigns] + Show(e, 0), rest);
    PathWritten(Read(t), ts);
    assert ParseTarget(TargetOf(Read(t)), ts) == Ok(Place(t), ts);
    OneToken(Assigns, Show(e, 0) + rest);
    ExprWritten(e, rest);
  }

  lemma {:induction false} CallWritten(f: Expr, args: Exprs, rest: seq<Token>)
    requires IsPath(f) && Ends(rest) && !Sees(rest, Assigns)
    ensures ParseExprStmt(ShowStmt(DoCall(f, args)) + rest) == Ok(DoCall(f, args), rest)
    ensures ShowStmt(DoCall(f, args)) != [] && ShowStmt(DoCall(f, args))[0].TSym?
  {
    hide ParseExpr, ParseLval, Show, ParseCallArgs, ShowArgs;
    var ts := ShowArgs(args) + rest;
    Assoc(Show(f, 0), ShowArgs(args), rest);
    PathWritten(f, ts);
    ArgsParse(args, rest);
    CallTarget(TargetOf(f), args, ts, rest);
    BaseShows(f);
  }

  lemma {:induction false} CallTarget(t: Target, args: Exprs, ts: seq<Token>, rest: seq<Token>)
    requires ts != [] && (ts[0] == LPar || ts[0].TStr?) && ParseCallArgs(ts) == Ok(args, rest) && Ends(rest)
    ensures ParseTarget(t, ts) == Ok(Called(Call(Read(t), args)), rest)
  {
    hide ParseCallArgs;
  }

  lemma {:induction false} MethodTarget(t: Target, m: Name, args: Exprs, ts: seq<Token>, rest: seq<Token>)
    requires ParseCallArgs(ts) == Ok(args, rest) && Ends(rest)
    ensures ParseTarget(t, [Colon, TSym(m)] + ts) == Ok(Called(Method(Read(t), m, args)), rest)
  {
    hide ParseCallArgs;
    var all := [Colon, TSym(m)] + ts;
    assert all[0] == Colon && all[1] == TSym(m) && all[1..][0] == TSym(m) && all[2..] == ts;
  }

  lemma {:induction false} MethodWritten(self: Expr, m: Name, args: Exprs, rest: seq<Token>)
    requires IsPath(self) && Ends(rest) && !Sees(rest, Assigns)
    ensures ParseExprStmt(ShowStmt(DoMethod(self, m, args)) + rest) == Ok(DoMethod(self, m, args), rest)
    ensures ShowStmt(DoMethod(self, m, args)) != [] && ShowStmt(DoMethod(self, m, args))[0].TSym?
  {
    hide ParseExpr, ParseLval, Show, ParseCallArgs, ShowArgs;
    var ts := ShowArgs(args) + rest;
    Assoc([Colon, TSym(m)], ShowArgs(args), rest);
    Assoc(Show(self, 0), [Colon, TSym(m)] + ShowArgs(args), rest);
    PathWritten(self, [Colon, TSym(m)] + ts);
    ArgsParse(args, rest);
    MethodTarget(TargetOf(self), m, args, ts, rest);
    BaseShows(self);
  }

  // ------------------------------------------------------------------
  // Declarations
  // ------------------------------------------------------------------

  lemma {:induction false} InitWritten(init: Option<Expr>, rest: seq<Token>)
    requires Ends(rest) && !Sees(rest, Assigns)
    ensures ParseInit(ShowInit(init) + rest) == Ok(init, rest)
  {
    hide ParseExpr, Show;
    if init.Some? {
      var e := init.value;
      Assoc([Assigns], Show(e, 0), rest);
      OneToken(Assigns, Show(e, 0) + rest);
      ExprWritten(e, rest);
    } else {
      assert ShowInit(init) + rest == rest;
    }
  }

  lemma {:induction false} DeclsWritten(ds: Decls, locals: seq<Name>, rest: seq<Token>)
    requires ds.Decl? && DeclsNew(ds, locals) && Apart(rest)
    ensures ParseDecls(ShowDecls(ds) + rest, locals) == Ok(ds, rest)
    decreases ds
  {
    hide ParseInit, ShowInit;
    var x, init := ds.name, ds.init;
    var more := if ds.rest == NoDecl then [] else [Comma] + ShowDecls(ds.rest);
    var ts := more + rest;
    assert ShowDecls(ds) + rest == [TSym(x)] + (ShowInit(init) + ts);
    OneToken(TSym(x), ShowInit(init) + ts);
    if ds.rest == NoDecl {
      assert ts == rest;
      InitWritten(init, rest);
    } else {
      Assoc([Comma], ShowDecls(ds.rest), rest);
      OneToken(Comma, ShowDecls(ds.rest) + rest);
      InitWritten(init, ts);
      DeclsWritten(ds.rest, locals + [x], rest);
    }
  }

  // ------------------------------------------------------------------
  // Statements
  // ------------------------------------------------------------------

  /** What is printed for a statement does not go on with the one before it. */
  lemma {:induction false} StmtStarts(s: Stmt, rest: seq<Token>)
    requires CanWrite(s)
    ensures var ts := ShowStmt(s);
      ts != [] && Apart(ts + rest) &&
      (s.Assign? || s.DoCall? || s.DoMethod? <==> ts[0].TSym?) && !Sees(ts + rest, RBrace)
  {
    hide Show, ShowArgs, ShowBlock, ShowGuard, ShowDecls;
    match s {
      case Assign(t, e) => AssignWritten(t, e, []);
      case DoCall(f, args) => PathWritten(f, []);
      case DoMethod(self, _, _) => PathWritten(self, []);
      case _ =>
    }
  }

  lemma {:induction false} BlockStarts(b: Block, rest: seq<Token>)
    requires CanWriteBlock(b) && (rest == [] || Sees(rest, RBrace))
    ensures Apart(ShowStmts(b) + rest)
  {
    hide ShowStmt;
    match b {
      case Done => assert ShowStmts(b) + rest == rest;
      case Then(s, tail) =>
        StmtStarts(s, ShowStmts(tail) + rest);
        Assoc(ShowStmt(s), ShowStmts(tail), rest);
    }
  }

  /** A statement is parsed back from the tokens printed for it, whatever statement follows. */
  lemma {:induction false} StmtWritten(s: Stmt, sc: Scope, inside: bool, rest: seq<Token>)
    requires CanWrite(s) && StmtEnclosed(s, inside) && StmtNew(s, sc) && Apart(rest)
    ensures ParseStmt(ShowStmt(s) + rest, sc, inside) == Ok(s, rest)
    decreases s, 0
  {
    hide ParseStmt, ParseExprStmt, ParseDecls, ParseExpr, ParseGuard, ParseFor, Show, ShowArgs, ShowBlock, ShowGuard,
      ShowDecls, ShowForIn;
    StmtStarts(s, rest);
    StmtCases(ShowStmt(s) + rest, sc, inside);
    match s {
      case Nop => OneToken(Semi, rest);
      case Assign(t, e) => AssignWritten(t, e, rest);
      case DoCall(f, args) => CallWritten(f, args, rest);
      case DoMethod(self, m, args) => MethodWritten(self, m, args, rest);
      case Var(ds) =>
        Assoc([TVar], ShowDecls(ds), rest);
        OneToken(TVar, ShowDecls(ds) + rest);
        DeclsWritten(ds, sc.locals, rest);
        DeclsStart(ds, rest);
      case If(g) =>
        Assoc([TIf], ShowGuard(g), rest);
        OneToken(TIf, ShowGuard(g) + rest);
        GuardWritten(g, sc, inside, rest);
      case Forever(body) =>
        Assoc([TFor], ShowBlock(body), rest);
        OneToken(TFor, ShowBlock(body) + rest);
        ForeverWritten(body, sc, rest);
      case ForIn(declare, x, e, body) =>
        Assoc([TFor], ShowForIn(declare, x, e, body), rest);
        OneToken(TFor, ShowForIn(declare, x, e, body) + rest);
        ForInWritten(declare, x, e, body, sc, rest);
      case Break => OneToken(TBreak, rest);
      case Continue => OneToken(TContinue, rest);
      case Return(e) =>
        Assoc([TReturn], Show(e, 0), rest);
        OneToken(TReturn, Show(e, 0) + rest);
        ExprWritten(e, rest);
    }
  }

  lemma {:induction false} DeclsStart(ds: Decls, rest: seq<Token>)
    requires ds.Decl?
    ensures !Sees(ShowDecls(ds) + rest, TFunc)
  {
    hide ShowInit;
  }

  /** How the first token chooses. */
  lemma {:induction false} StmtCases(ts: seq<Token>, sc: Scope, inside: bool)
    requires ts != []
    ensures ts[0] == Semi ==> ParseStmt(ts, sc, inside) == Ok(Nop, ts[1..])
    ensures ts[0] == TBreak && inside ==> ParseStmt(ts, sc, inside) == Ok(Break, ts[1..])
    ensures ts[0] == TContinue && inside ==> ParseStmt(ts, sc, inside) == Ok(Continue, ts[1..])
    ensures ts[0].TSym? ==> ParseStmt(ts, sc, inside) == ParseExprStmt(ts)
    ensures ts[0] == TFor ==> ParseStmt(ts, sc, inside) == ParseFor(ts[1..], sc)
    ensures ts[0] == TVar && !Sees(ts[1..], TFunc) && ParseDecls(ts[1..], sc.locals).Ok? ==>
      var r := ParseDecls(ts[1..], sc.locals); ParseStmt(ts, sc, inside) == Ok(Var(r.tree), r.rest)
    ensures ts[0] == TIf && ParseGuard(ts[1..], sc, inside).Ok? ==>
      var r := ParseGuard(ts[1..], sc, inside); ParseStmt(ts, sc, inside) == Ok(If(r.tree), r.rest)
    ensures ts[0] == TReturn && ParseExpr(ts[1..], 0).Ok? ==>
      var r := ParseExpr(ts[1..], 0); ParseStmt(ts, sc, inside) == Ok(Return(r.tree), r.rest)
  {
    hide ParseExprStmt, ParseDecls, ParseExpr, ParseGuard, ParseFor;
  }

  lemma {:induction false} ForeverWritten(body: Block, sc: Scope, rest: seq<Token>)
    requires CanWriteBlock(body) && BlockEnclosed(body, true) && BlockNew(body, sc)
    ensures ParseFor(ShowBlock(body) + rest, sc) == Ok(Forever(body), rest)
    decreases body, 3
  {
    hide ParseBlock, ParseForIn;
    BlockWritten(body, sc, true, rest);
    OneToken(LBrace, ShowStmts(body) + [RBrace] + rest);
    Assoc([LBrace], ShowStmts(body) + [RBrace], rest);
  }

  lemma {:induction false} ForInWritten(declare: bool, x: Name, e: Expr, body: Block, sc: Scope, rest: seq<Token>)
    requires CanWriteBlock(body) && BlockEnclosed(body, true) && StmtNew(ForIn(declare, x, e, body), sc)
    ensures ParseFor(ShowForIn(declare, x, e, body) + rest, sc) == Ok(ForIn(declare, x, e, body), rest)
    decreases body, 3
  {
    hide ParseBlock, ParseExpr, ParseForIn, ParseFor, Show, ShowBlock, ShowForIn, IterName, BlockNew, BlockEnclosed,
      CanWriteBlock;
    var ts4 := ShowBlock(body) + rest;
    var ts3 := Show(e, 0) + ts4;
    var ts2 := [TIn] + ts3;
    ForInText(declare, x, e, body, rest);
    ForChooses(declare, x, ts2, sc);
    OneToken(TIn, ts3);
    BlockBegins(body, rest);
    ExprWritten(e, ts4);
    BlockWritten(body, BodyScope(DeclareIf(declare, sc, x)), true, rest);
    ForInCases(declare, x, e, body, ts2, ts4, sc, rest);
  }

  lemma {:induction false} ForInText(declare: bool, x: Name, e: Expr, body: Block, rest: seq<Token>)
    ensures ShowForIn(declare, x, e, body) + rest ==
      (if declare then [TVar] else []) + ([TSym(x)] + ([TIn] + (Show(e, 0) + (ShowBlock(body) + rest))))
  {
    hide Show, ShowBlock;
  }

  lemma {:induction false} ForChooses(declare: bool, x: Name, ts: seq<Token>, sc: Scope)
    requires declare ==> x !in sc.locals
    ensures ParseFor((if declare then [TVar] else []) + ([TSym(x)] + ts), sc) == ParseForIn(declare, x, ts, sc)
  {
    hide ParseFor, ParseForIn;
    var ts1 := [TSym(x)] + ts;
    OneToken(TSym(x), ts);
    if declare {
      OneToken(TVar, ts1);
      ForNamed([TVar] + ts1, sc);
    } else {
      assert [] + ts1 == ts1;
      ForNamed(ts1, sc);
    }
  }

  lemma {:induction false} ForNamed(ts: seq<Token>, sc: Scope)
    requires !Sees(ts, LBrace)
    ensures var declare := Sees(ts, TVar);
      var ts1 := if declare then ts[1..] else ts;
      SeesSym(ts1) && (declare ==> ts1[0].name !in sc.locals) ==>
        ParseFor(ts, sc) == ParseForIn(declare, ts1[0].name, ts1[1..], sc)
  {
    hide ParseBlock, ParseForIn;
  }

  lemma {:induction false} ForInCases(declare: bool, x: Name, e: Expr, body: Block, ts: seq<Token>, ts1: seq<Token>,
      sc: Scope, rest: seq<Token>)
    requires var sc1 := DeclareIf(declare, sc, x);
      Sees(ts, TIn) && ParseExpr(ts[1..], 0) == Ok(e, ts1) && IterName(sc1.fors) !in sc1.locals &&
      ParseBlock(ts1, BodyScope(sc1), true) == Ok(body, rest)
    ensures ParseForIn(declare, x, ts, sc) == Ok(ForIn(declare, x, e, body), rest)
  {
    hide ParseBlock, ParseExpr, IterName;
  }

  lemma {:induction false} BlockBegins(b: Block, rest: seq<Token>)
    ensures Ends(ShowBlock(b) + rest) && Sees(ShowBlock(b) + rest, LBrace)
  {
    Assoc([LBrace], ShowStmts(b) + [RBrace], rest);
  }

  lemma {:induction false} BlockWritten(b: Block, sc: Scope, inside: bool, rest: seq<Token>)
    requires CanWriteBlock(b) && BlockEnclosed(b, inside) && BlockNew(b, sc)
    ensures ParseBlock(ShowBlock(b) + rest, sc, inside) == Ok(b, rest)
    decreases b, 2
  {
    hide ParseStmts;
    Assoc([LBrace], ShowStmts(b) + [RBrace], rest);
    Assoc(ShowStmts(b), [RBrace], rest);
    OneToken(LBrace, ShowStmts(b) + ([RBrace] + rest));
    StmtsWritten(b, sc, inside, rest);
  }

  lemma {:induction false} StmtsWritten(b: Block, sc: Scope, inside: bool, rest: seq<Token>)
    requires CanWriteBlock(b) && BlockEnclosed(b, inside) && BlockNew(b, sc)
    ensures ParseStmts(ShowStmts(b) + ([RBrace] + rest), sc, inside) == Ok(b, rest)
    decreases b, 1
  {
    hide ParseStmt, ShowStmt;
    match b {
      case Done => assert ShowStmts(b) + ([RBrace] + rest) == [RBrace] + rest; OneToken(RBrace, rest);
      case Then(s, tail) =>
        var ts := ShowStmts(tail) + ([RBrace] + rest);
        OneToken(RBrace, rest);
        BlockStarts(tail, [RBrace] + rest);
        StmtStarts(s, ts);
        Assoc(ShowStmt(s), ShowStmts(tail), [RBrace] + rest);
        StmtWritten(s, sc, inside, ts);
        StmtsWritten(tail, StmtScope(s, sc), inside, rest);
    }
  }

  lemma {:induction false} GuardWritten(g: Guard, sc: Scope, inside: bool, rest: seq<Token>)
    requires CanWriteGuard(g) && GuardEnclosed(g, inside) && GuardNew(g, sc) && Apart(rest)
    ensures ParseGuard(ShowGuard(g) + rest, sc, inside) == Ok(g, rest)
    decreases g, 1
  {
    hide ParseExpr, ParseBlock, ParseChain, Show, ShowBlock, ShowChain;
    var ts2 := ShowChain(g.rest) + rest;
    var ts1 := ShowBlock(g.block) + ts2;
    assert ShowGuard(g) + rest == Show(g.cond, 0) + ts1;
    BlockBegins(g.block, ts2);
    ExprWritten(g.cond, ts1);
    BlockWritten(g.block, sc, inside, ts2);
    ChainWritten(g.rest, BlockScope(g.block, sc), inside, rest);
  }

  lemma {:induction false} ChainWritten(c: Chain, sc: Scope, inside: bool, rest: seq<Token>)
    requires CanWriteGuard(Guard(Lit(NilLit), Done, c)) && ChainEnclosed(c, inside) && ChainNew(c, sc) && Apart(rest)
    ensures ParseChain(ShowChain(c) + rest, sc, inside) == Ok(c, rest)
    decreases c, 0
  {
    hide ParseBlock, ParseGuard, ShowBlock, ShowGuard;
    match c {
      case Fi => assert ShowChain(c) + rest == rest;
      case Else(b) =>
        Assoc([TElse], ShowBlock(b), rest);
        OneToken(TElse, ShowBlock(b) + rest);
        BlockWritten(b, sc, inside, rest);
      case Elif(g) =>
        Assoc([TElif], ShowGuard(g), rest);
        OneToken(TElif, ShowGuard(g) + rest);
        GuardWritten(g, sc, inside, rest);
    }
  }

  /** A program is parsed back from the tokens printed for it. */
  lemma {:induction false} ProgramWritten(b: Block, sc: Scope)
    requires CanWriteBlock(b) && BlockEnclosed(b, false) && BlockNew(b, sc)
    ensures ParseProgram(ShowStmts(b), sc) == Ok(b, [])
    decreases b
  {
    hide ParseStmt, ShowStmt;
    match b {
      case Done =>
      case Then(s, tail) =>
        BlockStarts(tail, []);
        assert ShowStmts(tail) + [] == ShowStmts(tail);
        StmtStarts(s, ShowStmts(tail));
        StmtWritten(s, sc, false, ShowStmts(tail));
        ProgramWritten(tail, StmtScope(s, sc));
    }
  }

  // ------------------------------------------------------------------
  // What was parsed can be written
  // ------------------------------------------------------------------

  lemma {:induction false} TargetPath(t: Target, ts: seq<Token>)
    requires IsPath(Read(t)) && ParseTarget(t, ts).Ok?
    ensures match ParseTarget(t, ts).tree
      case Place(t1) => IsPath(Read(t1))
      case Called(e) => (e.Call? ==> IsPath(e.func)) && (e.Method? ==> IsPath(e.self))
    decreases |ts|
  {
    hide ParseKey, ParseCallArgs;
    if SeesSuffix(ts) {
      if ts[0] == Dot {
        TargetPath(ToField(Read(t), ts[1].name), ts[2..]);
      } else if ts[0] == LBrack {
        TargetPath(ToIndex(Read(t), ParseKey(ts).tree), ParseKey(ts).rest);
      }
    }
  }

  /** The statements that the grammar accepts can be written. */
  lemma {:induction false} StmtParsed(ts: seq<Token>, sc: Scope, inside: bool)
    requires ParseStmt(ts, sc, inside).Ok?
    ensures CanWrite(ParseStmt(ts, sc, inside).tree)
    decreases |ts|, 0
  {
    hide ParseExpr, ParseDecls, ParseGuard, ParseFor, ParseTarget;
    if ts[0] == TIf {
      GuardParsed(ts[1..], sc, inside);
    } else if ts[0] == TFor {
      ForParsed(ts[1..], sc);
    } else if ts[0].TSym? {
      TargetPath(ToSym(ts[0].name), ts[1..]);
    }
  }

  lemma {:induction false} BlockParsed(ts: seq<Token>, sc: Scope, inside: bool)
    requires ParseBlock(ts, sc, inside).Ok?
    ensures CanWriteBlock(ParseBlock(ts, sc, inside).tree)
    decreases |ts|, 0
  {
    hide ParseStmts;
    StmtsParsed(ts[1..], sc, inside);
  }

  lemma {:induction false} StmtsParsed(ts: seq<Token>, sc: Scope, inside: bool)
    requires ParseStmts(ts, sc, inside).Ok?
    ensures CanWriteBlock(ParseStmts(ts, sc, inside).tree)
    decreases |ts|, 1
  {
    hide ParseStmt, CanWrite;
    if !Sees(ts, RBrace) {
      StmtParsed(ts, sc, inside);
      var r := ParseStmt(ts, sc, inside);
      StmtsParsed(r.rest, StmtScope(r.tree, sc), inside);
    }
  }

  lemma {:induction false} GuardParsed(ts: seq<Token>, sc: Scope, inside: bool)
    requires ParseGuard(ts, sc, inside).Ok?
    ensures CanWriteGuard(ParseGuard(ts, sc, inside).tree)
    decreases |ts|, 1
  {
    hide ParseExpr, ParseBlock, CanWriteBlock;
    var rest := ParseExpr(ts, 0).rest;
    BlockParsed(rest, sc, inside);
    var r := ParseBlock(rest, sc, inside);
    if Sees(r.rest, TElif) {
      GuardParsed(r.rest[1..], BlockScope(r.tree, sc), inside);
    } else if Sees(r.rest, TElse) {
      BlockParsed(r.rest[1..], BlockScope(r.tree, sc), inside);
    }
  }

  lemma {:induction false} ForParsed(ts: seq<Token>, sc: Scope)
    requires ParseFor(ts, sc).Ok?
    ensures CanWrite(ParseFor(ts, sc).tree)
    decreases |ts|, 1
  {
    hide ParseBlock, ParseForIn, CanWriteBlock;
    if Sees(ts, LBrace) {
      BlockParsed(ts, sc, true);
    } else {
      var declare := Sees(ts, TVar);
      var ts1 := if declare then ts[1..] else ts;
      ForInParsed(declare, ts1[0].name, ts1[1..], sc);
    }
  }

  lemma {:induction false} ForInParsed(declare: bool, x: Name, ts: seq<Token>, sc: Scope)
    requires ParseForIn(declare, x, ts, sc).Ok?
    ensures CanWrite(ParseForIn(declare, x, ts, sc).tree)
    decreases |ts|, 1
  {
    hide ParseExpr, ParseBlock, CanWriteBlock, IterName;
    BlockParsed(ParseExpr(ts[1..], 0).rest, BodyScope(DeclareIf(declare, sc, x)), true);
  }

  /** Whatever program the grammar accepts, the tokens printed for it are parsed as the same program. */
  lemma {:induction false} ProgramAgain(ts: seq<Token>, sc: Scope)
    requires ParseProgram(ts, sc).Ok?
    ensures ParseProgram(ShowStmts(ParseProgram(ts, sc).tree), sc) == Ok(ParseProgram(ts, sc).tree, [])
  {
    hide ParseProgram, CanWriteBlock, ShowStmts;
    ProgramParsed(ts, sc);
    ProgramWritten(ParseProgram(ts, sc).tree, sc);
  }

  lemma {:induction false} ProgramParsed(ts: seq<Token>, sc: Scope)
    requires ParseProgram(ts, sc).Ok?
    ensures CanWriteBlock(ParseProgram(ts, sc).tree)
    decreases |ts|
  {
    hide ParseStmt, CanWrite;
    if ts != [] {
      StmtParsed(ts, sc, false);
      var r := ParseStmt(ts, sc, false);
      ProgramParsed(r.rest, StmtScope(r.tree, sc));
    }
  }
}
