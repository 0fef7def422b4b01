/** How many entries the compiler's tables get: one for each break of a loop, and one for each exit of a chain. */
module VmLimits {
  import opened Basics
  import opened ScriptSyntax
  import opened ScriptParse
  import opened Runtime
  import opened VmCode
  import opened VmSize
  import opened VmChains
  import opened VmLists

  lemma {:induction false} StmtBreaksCounted(s: Stmt, k: seq<Value>, sc: Scope, at: nat, loop: Loop)
    ensures |StmtBreaks(s, k, sc, at, loop)| == StmtBreakCount(s)
    decreases s, 0
  {
    hide GuardBreaks;
    if s.If? { GuardBreaksCounted(s.guard, k, sc, at, loop); }
  }

  /** The places that the breaks of a block leave in the table of the loop around it. */
  lemma {:induction false} BlockBreaksCounted(b: Block, k: seq<Value>, sc: Scope, at: nat, loop: Loop)
    ensures |BlockBreaks(b, k, sc, at, loop)| == BlockBreakCount(b)
    decreases b, 0
  {
    hide StmtCode, BlockCode, BlockBreaks, StmtK, StmtScope, StmtBreaks;
    match b {
      case Done => DoneShape(k, sc, at, loop);
      case Then(_, _) => ThenBreaks(b.head, b.tail, k, sc, at, loop);
    }
    if b.Then? {
      StmtBreaksCounted(b.head, k, sc, at, loop);
      BlockBreaksCounted(b.tail, StmtK(b.head, k, sc), StmtScope(b.head, sc),
        at + |StmtCode(b.head, k, sc, at, loop)|, loop);
    }
  }

  lemma {:induction false} ChainBreaksCounted(c: Chain, k: seq<Value>, sc: Scope, at: nat, loop: Loop)
    ensures |ChainBreaks(c, k, sc, at, loop)| == ChainBreakCount(c)
    decreases c, 0
  {
    match c {
      case Fi =>
      case Else(b) => BlockBreaksCounted(b, k, sc, at, loop);
      case Elif(g) => GuardBreaksCounted(g, k, sc, at, loop);
    }
  }

  lemma {:induction false} GuardBreaksCounted(g: Guard, k: seq<Value>, sc: Scope, at: nat, loop: Loop)
    ensures |GuardBreaks(g, k, sc, at, loop)| == GuardBreakCount(g)
    decreases g, 0
  {
    hide ExprCode, ExprK, BlockCode, BlockK, BlockScope, BlockBreaks, ChainBreaks;
    var c, k1 := ExprCode(g.cond, k, sc.locals), ExprK(g.cond, k, sc.locals);
    var b := BlockCode(g.block, k1, sc, at + |c| + 1, loop);
    BlockBreaksCounted(g.block, k1, sc, at + |c| + 1, loop);
    ChainBreaksCounted(g.rest, BlockK(g.block, k1, sc), BlockScope(g.block, sc), at + |c| + |b| + 2, loop);
  }

  /** The places that a chain leaves in its table of exits. */
  lemma {:induction false} ExitsCounted(g: Guard, k: seq<Value>, sc: Scope, at: nat, loop: Loop)
    ensures |OutHoles(g, k, sc, at, loop)| == Exits(g.rest)
    decreases g
  {
    hide RestTable, RestScope, RestPos;
    if g.rest.Elif? {
      ExitsCounted(g.rest.guard, RestTable(g, k, sc), RestScope(g, sc), RestPos(g, k, sc, at, loop), loop);
    }
  }

  // ------------------------------------------------------------------
  // What fits the tables
  // ------------------------------------------------------------------

  lemma {:induction false} DoneRoomy()
    ensures BlockRoomy(Done)
  {
  }

  lemma {:induction false} PlainRoomy(s: Stmt)
    ensures !s.If? && !s.Forever? && !s.ForIn? ==> StmtRoomy(s)
  {
  }

  lemma {:induction false} PartRoomy(e: Expr, b: Block)
    ensures GuardRoomy(Guard(e, b, Fi)) <==> BlockRoomy(b)
  {
  }

  lemma {:induction false} ElifRoomy(g: Guard)
    ensures ChainRoomy(Elif(g)) <==> GuardRoomy(g)
  {
  }

  lemma {:induction false} ElseRoomy(b: Block)
    ensures ChainRoomy(Else(b)) <==> BlockRoomy(b)
  {
  }

  lemma {:induction false} SnocRoomy(b: Block, s: Stmt)
    ensures BlockRoomy(BlockSnoc(b, s)) <==> BlockRoomy(b) && StmtRoomy(s)
  {
    hide StmtRoomy;
    if b.Then? { SnocRoomy(b.tail, s); }
  }

  lemma {:induction false} AppendRoomy(g: Guard, ch: Chain)
    requires IsOpen(g)
    ensures GuardRoomy(Append(g, ch)) <==> GuardRoomy(g) && ChainRoomy(ch)
    decreases g
  {
    hide BlockRoomy;
    if g.rest.Elif? { AppendRoomy(g.rest.guard, ch); }
  }

  /** The chunk of a body that the grammar accepts and that fits the tables. */
  function Compiled(tokens: seq<Token>, params: seq<Name>, fors: nat): Option<Chunk> {
    match ParseProgram(tokens, Scope(params, fors))
    case Bad(_) => None
    case Ok(b, _) => if BlockRoomy(b) then Some(ChunkOf(b, params, fors)) else None
  }

  // ------------------------------------------------------------------
  // A program that overruns a table
  // ------------------------------------------------------------------

  function Breaks(n: nat): Block {
    if n == 0 then Done else Then(Break, Breaks(n - 1))
  }

  function BreakTokens(n: nat): seq<Token> {
    if n == 0 then [RBrace] else [TBreak] + BreakTokens(n - 1)
  }

  /** `for { break ... break }`. */
  function Leaving(n: nat): Block {
    Then(Forever(Breaks(n)), Done)
  }

  function LeavingTokens(n: nat): seq<Token> {
    [TFor, LBrace] + BreakTokens(n)
  }

  lemma {:induction false} BreakParses(ts: seq<Token>, sc: Scope)
    requires ts != [] && ts[0] == TBreak
    ensures ParseStmts(ts, sc, true) ==
      match ParseStmts(ts[1..], sc, true)
      case Bad(f) => Bad(f)
      case Ok(b, rest) => Ok(Then(Break, b), rest)
  {
    hide ParseGuard, ParseFor, ParseDecls, ParseExpr, ParseExprStmt;
    assert ParseStmt(ts, sc, true) == Ok(Break, ts[1..]);
  }

  lemma {:induction false} BraceParses(sc: Scope)
    ensures ParseStmts([RBrace], sc, true) == Ok(Done, [])
  {
    hide ParseStmt;
    assert Sees([RBrace], RBrace) && [RBrace][1..] == [];
  }

  lemma {:induction false} BreaksParse(n: nat, sc: Scope)
    ensures ParseStmts(BreakTokens(n), sc, true) == Ok(Breaks(n), [])
  {
    hide ParseStmt, ParseStmts;
    if n == 0 {
      BraceParses(sc);
    } else {
      var ts := BreakTokens(n);
      assert ts[0] == TBreak && ts[1..] == BreakTokens(n - 1);
      BreakParses(ts, sc);
      BreaksParse(n - 1, sc);
    }
  }

  lemma {:induction false} BreaksFit(n: nat)
    ensures BlockBreakCount(Breaks(n)) == n && BlockRoomy(Breaks(n))
  {
    if n > 0 { BreaksFit(n - 1); }
  }

  /** The grammar accepts any number of breaks in a loop, the table takes only so many. */
  lemma {:induction false} LeavingParses(n: nat)
    ensures ParseProgram(LeavingTokens(n), Scope([], 0)) == Ok(Leaving(n), [])
    ensures BlockRoomy(Leaving(n)) <==> n <= 128
  {
    hide ParseStmts, ParseGuard, ParseForIn, ParseDecls, ParseExpr, ParseExprStmt, BlockRoomy, Breaks;
    var ts, sc := LeavingTokens(n), Scope([], 0);
    BreaksParse(n, sc);
    BreaksFit(n);
    LeavingFits(n);
    assert ts[1..][1..] == BreakTokens(n) && ts[1..][0] == LBrace;
    assert ParseBlock(ts[1..], sc, true) == Ok(Breaks(n), []);
    assert ParseStmt(ts, sc, false) == Ok(Forever(Breaks(n)), []);
  }

  lemma {:induction false} LeavingFits(n: nat)
    ensures BlockRoomy(Leaving(n)) <==> BlockBreakCount(Breaks(n)) <= TABLE && BlockRoomy(Breaks(n))
  {
    hide Breaks;
  }
}
