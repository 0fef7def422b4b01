/** Blocks and declarations grow at their end while they are compiled. */
module VmLists {
  import opened Basics
  import opened ScriptSyntax
  import opened ScriptParse
  import opened Runtime
  import opened VmCode
  import opened VmSize

  // ------------------------------------------------------------------
  // Blocks
  // ------------------------------------------------------------------

  function BlockSnoc(b: Block, s: Stmt): Block {
    match b
    case Done => Then(s, Done)
    case Then(x, tail) => Then(x, BlockSnoc(tail, s))
  }

  function BlockJoin(b: Block, c: Block): Block {
    match b
    case Done => c
    case Then(x, tail) => Then(x, BlockJoin(tail, c))
  }

  function OntoBlock(b: Block, r: Parsed<Block>): Parsed<Block> {
    match r
    case Bad(f) => Bad(f)
    case Ok(c, rest) => Ok(BlockJoin(b, c), rest)
  }

  lemma {:induction false} BlockJoinSnoc(b: Block, s: Stmt, c: Block)
    ensures BlockJoin(BlockSnoc(b, s), c) == BlockJoin(b, Then(s, c))
    ensures BlockJoin(b, Done) == b
    decreases b
  {
    if b.Then? { BlockJoinSnoc(b.tail, s, c); }
  }

  lemma {:induction false} SnocTables(b: Block, s: Stmt, k: seq<Value>, sc: Scope)
    ensures BlockK(BlockSnoc(b, s), k, sc) == StmtK(s, BlockK(b, k, sc), BlockScope(b, sc))
    ensures BlockScope(BlockSnoc(b, s), sc) == StmtScope(s, BlockScope(b, sc))
    decreases b
  {
    hide StmtK, StmtScope;
    if b.Then? { SnocTables(b.tail, s, StmtK(b.head, k, sc), StmtScope(b.head, sc)); }
  }

  lemma {:induction false} DoneShape(k: seq<Value>, sc: Scope, at: nat, loop: Loop)
    ensures BlockCode(Done, k, sc, at, loop) == [] && BlockBreaks(Done, k, sc, at, loop) == []
    ensures BlockK(Done, k, sc) == k && BlockScope(Done, sc) == sc
  {
  }

  lemma {:induction false} SnocCode(b: Block, s: Stmt, k: seq<Value>, sc: Scope, at: nat, loop: Loop)
    ensures var n := at + |BlockCode(b, k, sc, at, loop)|;
      BlockCode(BlockSnoc(b, s), k, sc, at, loop) ==
        BlockCode(b, k, sc, at, loop) + StmtCode(s, BlockK(b, k, sc), BlockScope(b, sc), n, loop) &&
      BlockBreaks(BlockSnoc(b, s), k, sc, at, loop) ==
        BlockBreaks(b, k, sc, at, loop) + StmtBreaks(s, BlockK(b, k, sc), BlockScope(b, sc), n, loop)
    decreases b
  {
    hide StmtCode, StmtK, StmtScope, StmtBreaks, BlockCode, BlockBreaks, BlockK, BlockScope;
    match b {
      case Done =>
        DoneShape(k, sc, at, loop);
        OneShape(s, k, sc, at, loop);
      case Then(x, tail) =>
        var a, k1, sc1 := StmtCode(x, k, sc, at, loop), StmtK(x, k, sc), StmtScope(x, sc);
        ThenTables(x, tail, k, sc);
        ThenCode(x, tail, k, sc, at, loop);
        ThenBreaks(x, tail, k, sc, at, loop);
        ThenCode(x, BlockSnoc(tail, s), k, sc, at, loop);
        ThenBreaks(x, BlockSnoc(tail, s), k, sc, at, loop);
        SnocCode(tail, s, k1, sc1, at + |a|, loop);
        var n := at + |a| + |BlockCode(tail, k1, sc1, at + |a|, loop)|;
        Assoc(a, BlockCode(tail, k1, sc1, at + |a|, loop),
          StmtCode(s, BlockK(tail, k1, sc1), BlockScope(tail, sc1), n, loop));
        Assoc(StmtBreaks(x, k, sc, at, loop), BlockBreaks(tail, k1, sc1, at + |a|, loop),
          StmtBreaks(s, BlockK(tail, k1, sc1), BlockScope(tail, sc1), n, loop));
    }
  }

  lemma {:induction false} ThenTables(s: Stmt, tail: Block, k: seq<Value>, sc: Scope)
    ensures BlockK(Then(s, tail), k, sc) == BlockK(tail, StmtK(s, k, sc), StmtScope(s, sc))
    ensures BlockScope(Then(s, tail), sc) == BlockScope(tail, StmtScope(s, sc))
  {
    hide StmtK, StmtScope;
  }

  lemma {:induction false} OneShape(s: Stmt, k: seq<Value>, sc: Scope, at: nat, loop: Loop)
    ensures BlockCode(Then(s, Done), k, sc, at, loop) == StmtCode(s, k, sc, at, loop)
    ensures BlockBreaks(Then(s, Done), k, sc, at, loop) == StmtBreaks(s, k, sc, at, loop)
  {
    hide StmtCode, StmtBreaks, BlockCode, BlockBreaks, StmtK, StmtScope;
    ThenCode(s, Done, k, sc, at, loop);
    ThenBreaks(s, Done, k, sc, at, loop);
    DoneShape(StmtK(s, k, sc), StmtScope(s, sc), at + |StmtCode(s, k, sc, at, loop)|, loop);
  }

  lemma {:induction false} StmtsParts(b: Block, ts: seq<Token>, sc: Scope, inside: bool)
    ensures OntoBlock(b, ParseStmts(ts, sc, inside)) ==
      if Sees(ts, RBrace) then Ok(b, ts[1..])
      else
        match ParseStmt(ts, sc, inside)
        case Bad(f) => Bad(f)
        case Ok(s, rest) => OntoBlock(BlockSnoc(b, s), ParseStmts(rest, StmtScope(s, sc), inside))
  {
    hide ParseStmt, StmtScope;
    var r := ParseStmt(ts, sc, inside);
    BlockJoinSnoc(b, Nop, Done);
    if r.Ok? {
      var q := ParseStmts(r.rest, StmtScope(r.tree, sc), inside);
      if q.Ok? { BlockJoinSnoc(b, r.tree, q.tree); }
    }
  }

  lemma {:induction false} ProgramParts(b: Block, ts: seq<Token>, sc: Scope)
    ensures OntoBlock(b, ParseProgram(ts, sc)) ==
      if ts == [] then Ok(b, ts)
      else
        match ParseStmt(ts, sc, false)
        case Bad(f) => Bad(f)
        case Ok(s, rest) => OntoBlock(BlockSnoc(b, s), ParseProgram(rest, StmtScope(s, sc)))
  {
    hide ParseStmt, StmtScope;
    var r := ParseStmt(ts, sc, false);
    BlockJoinSnoc(b, Nop, Done);
    if r.Ok? {
      var q := ParseProgram(r.rest, StmtScope(r.tree, sc));
      if q.Ok? { BlockJoinSnoc(b, r.tree, q.tree); }
    }
  }

  // ------------------------------------------------------------------
  // Declarations
  // ------------------------------------------------------------------

  function DeclSnoc(ds: Decls, x: Name, init: Option<Expr>): Decls {
    match ds
    case NoDecl => Decl(x, init, NoDecl)
    case Decl(y, i, rest) => Decl(y, i, DeclSnoc(rest, x, init))
  }

  function DeclJoin(ds: Decls, es: Decls): Decls {
    match ds
    case NoDecl => es
    case Decl(y, i, rest) => Decl(y, i, DeclJoin(rest, es))
  }

  function OntoDecls(ds: Decls, r: Parsed<Decls>): Parsed<Decls> {
    match r
    case Bad(f) => Bad(f)
    case Ok(es, rest) => Ok(DeclJoin(ds, es), rest)
  }

  lemma {:induction false} DeclJoinSnoc(ds: Decls, x: Name, init: Option<Expr>, es: Decls)
    ensures DeclJoin(DeclSnoc(ds, x, init), es) == DeclJoin(ds, Decl(x, init, es))
    ensures DeclJoin(ds, NoDecl) == ds
    decreases ds
  {
    if ds.Decl? { DeclJoinSnoc(ds.rest, x, init, es); }
  }

  function DeclsLocals(ds: Decls, locals: seq<Name>): seq<Name>
    decreases ds
  {
    match ds
    case NoDecl => locals
    case Decl(x, _, rest) => DeclsLocals(rest, locals + [x])
  }

  lemma {:induction false} DeclsLocalsScope(ds: Decls, sc: Scope)
    ensures DeclsScope(ds, sc) == Scope(DeclsLocals(ds, sc.locals), sc.fors)
    decreases ds
  {
    if ds.Decl? { DeclsLocalsScope(ds.rest, Declare(sc, ds.name)); }
  }

  function InitK(x: Name, init: Option<Expr>, k: seq<Value>, locals: seq<Name>): seq<Value> {
    match init
    case None => k
    case Some(e) => ExprK(e, k, locals + [x])
  }

  function InitCode(x: Name, init: Option<Expr>, k: seq<Value>, locals: seq<Name>): Code {
    match init
    case None => []
    case Some(e) => ExprCode(e, k, locals + [x]) + [IStoreLocal(U16(|locals|))]
  }

  lemma {:induction false} DeclShape(x: Name, init: Option<Expr>, rest: Decls, k: seq<Value>, locals: seq<Name>)
    ensures var k1 := InitK(x, init, k, locals);
      DeclsK(Decl(x, init, rest), k, locals) == DeclsK(rest, k1, locals + [x]) &&
      DeclsCode(Decl(x, init, rest), k, locals) == InitCode(x, init, k, locals) + DeclsCode(rest, k1, locals + [x])
  {
    hide ExprCode, ExprK;
    var k1 := InitK(x, init, k, locals);
    if init == None {
      assert [] + DeclsCode(rest, k1, locals + [x]) == DeclsCode(rest, k1, locals + [x]);
    }
  }

  lemma {:induction false} NoDeclShape(k: seq<Value>, locals: seq<Name>)
    ensures DeclsK(NoDecl, k, locals) == k && DeclsCode(NoDecl, k, locals) == [] &&
      DeclsLocals(NoDecl, locals) == locals
  {
  }

  lemma {:induction false} DeclSnocShape(ds: Decls, x: Name, init: Option<Expr>, k: seq<Value>, locals: seq<Name>)
    ensures var k1 := DeclsK(ds, k, locals);
      var l1 := DeclsLocals(ds, locals);
      DeclsK(DeclSnoc(ds, x, init), k, locals) == InitK(x, init, k1, l1) &&
      DeclsLocals(DeclSnoc(ds, x, init), locals) == l1 + [x] &&
      DeclsCode(DeclSnoc(ds, x, init), k, locals) == DeclsCode(ds, k, locals) + InitCode(x, init, k1, l1)
    decreases ds
  {
    hide InitK, InitCode, DeclsK, DeclsCode;
    match ds {
      case NoDecl =>
        NoDeclShape(k, locals);
        NoDeclShape(InitK(x, init, k, locals), locals + [x]);
        DeclShape(x, init, NoDecl, k, locals);
        assert [] + InitCode(x, init, k, locals) == InitCode(x, init, k, locals) + [];
      case Decl(y, i, rest) =>
        DeclShape(y, i, rest, k, locals);
        DeclShape(y, i, DeclSnoc(rest, x, init), k, locals);
        var k1, l1 := InitK(y, i, k, locals), locals + [y];
        DeclSnocShape(rest, x, init, k1, l1);
        Assoc(InitCode(y, i, k, locals), DeclsCode(rest, k1, l1),
          InitCode(x, init, DeclsK(rest, k1, l1), DeclsLocals(rest, l1)));
    }
  }

  lemma {:induction false} DeclsParts(ds: Decls, ts: seq<Token>, locals: seq<Name>)
    ensures OntoDecls(ds, ParseDecls(ts, locals)) ==
      if !SeesSym(ts) || ts[0].name in locals then Bad(Reject)
      else
        match ParseInit(ts[1..])
        case Bad(f) => Bad(f)
        case Ok(init, rest) =>
          if Sees(rest, Comma) then
            OntoDecls(DeclSnoc(ds, ts[0].name, init), ParseDecls(rest[1..], locals + [ts[0].name]))
          else Ok(DeclSnoc(ds, ts[0].name, init), rest)
  {
    hide ParseInit;
    if SeesSym(ts) {
      var r := ParseInit(ts[1..]);
      if r.Ok? {
        DeclJoinSnoc(ds, ts[0].name, r.tree, NoDecl);
        DeclJoinSnoc(DeclSnoc(ds, ts[0].name, r.tree), ts[0].name, r.tree, NoDecl);
        if Sees(r.rest, Comma) {
          var q := ParseDecls(r.rest[1..], locals + [ts[0].name]);
          if q.Ok? { DeclJoinSnoc(ds, ts[0].name, r.tree, q.tree); }
        }
      }
    }
  }
}
