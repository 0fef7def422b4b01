/** The script language: tokens and syntax trees. */
module ScriptSyntax {
  import opened Basics

  type Name = string

  datatype UnaryOp = Minus | Not | NotNil | TypeOf

  datatype BinaryOp = Add | Sub | Mul | Div | Mod | Eq | Ne | Match | Lt | Le | Gt | Ge | And | Or

  /** A lexeme; `TStr(None)` is a string literal with a bad escape sequence, `TOther` whatever starts nothing. */
  datatype Token =
    | TSym(name: Name) | TStr(text: Option<string>) | TInt(value: int)
    | TNil | TTrue | TFalse
    | TOp(op: BinaryOp) | TNot | TBang | TTypeof
    | LPar | RPar | LBrack | RBrack | LBrace | RBrace
    | Dot | Comma | Colon | Semi | Assigns
    | TIf | TElif | TElse | TFor | TIn | TVar | TReturn | TBreak | TContinue
    | TFunc | TSkls | TWith | TOther

  datatype Literal = NilLit | BoolLit(b: bool) | IntLit(n: int) | StrLit(z: string)

  datatype Expr =
    | Lit(literal: Literal)
    | Sym(name: Name)
    | Unary(unary: UnaryOp, arg: Expr)
    | Binary(binary: BinaryOp, left: Expr, right: Expr)
    | Field(obj: Expr, field: Name)
    | Index(obj: Expr, key: Expr)
    | Call(func: Expr, args: Exprs)
    | Method(self: Expr, method_: Name, args: Exprs)
    | Array(elems: Exprs)

  datatype Exprs = Empty | More(head: Expr, tail: Exprs)

  function Count(es: Exprs): nat {
    match es
    case Empty => 0
    case More(_, tail) => 1 + Count(tail)
  }

  datatype Target =
    | ToSym(name: Name)
    | ToField(obj: Expr, field: Name)
    | ToIndex(obj: Expr, key: Expr)

  /** The target read as an expression. */
  function Read(t: Target): Expr {
    match t
    case ToSym(x) => Sym(x)
    case ToField(obj, x) => Field(obj, x)
    case ToIndex(obj, key) => Index(obj, key)
  }

  datatype Decls = NoDecl | Decl(name: Name, init: Option<Expr>, rest: Decls)

  datatype Stmt =
    | Nop
    | Assign(target: Target, value: Expr)
    | DoCall(func: Expr, args: Exprs)
    | DoMethod(self: Expr, method_: Name, args: Exprs)
    | Var(decls: Decls)
    | If(guard: Guard)
    | Forever(body: Block)
    | ForIn(declare: bool, name: Name, iter: Expr, body: Block)
    | Break
    | Continue
    | Return(value: Expr)

  datatype Block = Done | Then(head: Stmt, tail: Block)

  /** A condition, the block it guards, and what follows. */
  datatype Guard = Guard(cond: Expr, block: Block, rest: Chain)

  datatype Chain = Fi | Else(block: Block) | Elif(guard: Guard)

  /** `break` and `continue` stand inside loops only. */
  predicate StmtEnclosed(s: Stmt, inside: bool) {
    match s
    case Break | Continue => inside
    case If(g) => GuardEnclosed(g, inside)
    case Forever(body) => BlockEnclosed(body, true)
    case ForIn(_, _, _, body) => BlockEnclosed(body, true)
    case Nop | Assign(_, _) | DoCall(_, _) | DoMethod(_, _, _) | Var(_) | Return(_) => true
  }

  predicate BlockEnclosed(b: Block, inside: bool) {
    match b
    case Done => true
    case Then(s, tail) => StmtEnclosed(s, inside) && BlockEnclosed(tail, inside)
  }

  predicate ChainEnclosed(c: Chain, inside: bool) {
    match c
    case Fi => true
    case Else(b) => BlockEnclosed(b, inside)
    case Elif(g) => GuardEnclosed(g, inside)
  }

  predicate GuardEnclosed(g: Guard, inside: bool) {
    BlockEnclosed(g.block, inside) && ChainEnclosed(g.rest, inside)
  }

  /** An `else` stands after the last `elif` of every chain. */
  predicate StmtClosed(s: Stmt) {
    match s
    case If(g) => GuardClosed(g, true)
    case Forever(body) => BlockClosed(body)
    case ForIn(_, _, _, body) => BlockClosed(body)
    case Nop | Assign(_, _) | DoCall(_, _) | DoMethod(_, _, _) | Var(_) | Break | Continue | Return(_) => true
  }

  predicate BlockClosed(b: Block) {
    match b
    case Done => true
    case Then(s, tail) => StmtClosed(s) && BlockClosed(tail)
  }

  predicate ChainClosed(c: Chain) {
    match c
    case Fi => true
    case Else(b) => BlockClosed(b)
    case Elif(g) => GuardClosed(g, false)
  }

  predicate GuardClosed(g: Guard, first: bool) {
    (g.rest.Fi? ==> first) && BlockClosed(g.block) && ChainClosed(g.rest)
  }

  // ------------------------------------------------------------------
  // Counts
  // ------------------------------------------------------------------

  /** The breaks out of the loop around a statement. */
  function StmtBreakCount(s: Stmt): nat {
    match s
    case Break => 1
    case If(g) => GuardBreakCount(g)
    case Nop | Assign(_, _) | DoCall(_, _) | DoMethod(_, _, _) | Var(_) | Continue | Return(_) => 0
    case Forever(_) | ForIn(_, _, _, _) => 0
  }

  function BlockBreakCount(b: Block): nat {
    match b
    case Done => 0
    case Then(s, tail) => StmtBreakCount(s) + BlockBreakCount(tail)
  }

  function ChainBreakCount(c: Chain): nat {
    match c
    case Fi => 0
    case Else(b) => BlockBreakCount(b)
    case Elif(g) => GuardBreakCount(g)
  }

  function GuardBreakCount(g: Guard): nat {
    BlockBreakCount(g.block) + ChainBreakCount(g.rest)
  }

  /** The blocks of a chain that something follows. */
  function Exits(c: Chain): nat {
    match c
    case Fi => 0
    case Else(_) => 1
    case Elif(g) => 1 + Exits(g.rest)
  }

  /** The entries of the compiler's tables for the breaks of a loop and for the exits of a chain. */
  const TABLE: nat := 128

  /** The breaks of each loop and the exits of each chain fit the compiler's tables. */
  predicate StmtRoomy(s: Stmt) {
    match s
    case If(g) => Exits(g.rest) <= TABLE && GuardRoomy(g)
    case Forever(body) => BlockBreakCount(body) <= TABLE && BlockRoomy(body)
    case ForIn(_, _, _, body) => BlockBreakCount(body) <= TABLE && BlockRoomy(body)
    case Nop | Assign(_, _) | DoCall(_, _) | DoMethod(_, _, _) | Var(_) | Break | Continue | Return(_) => true
  }

  predicate BlockRoomy(b: Block) {
    match b
    case Done => true
    case Then(s, tail) => StmtRoomy(s) && BlockRoomy(tail)
  }

  predicate ChainRoomy(c: Chain) {
    match c
    case Fi => true
    case Else(b) => BlockRoomy(b)
    case Elif(g) => GuardRoomy(g)
  }

  predicate GuardRoomy(g: Guard) {
    BlockRoomy(g.block) && ChainRoomy(g.rest)
  }

  // ------------------------------------------------------------------
  // Scopes
  // ------------------------------------------------------------------

  /** The local names declared so far in the text of a function, and the number of `for`s counted. */
  datatype Scope = Scope(locals: seq<Name>, fors: nat)

  function Digits(n: nat): string {
    if n < 10 then [('0' as int + n) as char] else Digits(n / 10) + [('0' as int + n % 10) as char]
  }

  /** The hidden local that holds the iterator of a `for`. */
  function IterName(n: nat): Name {
    "__loop_iter_" + Digits(n) + "__"
  }

  function Declare(sc: Scope, x: Name): Scope {
    sc.(locals := sc.locals + [x])
  }

  function DeclareIf(declare: bool, sc: Scope, x: Name): Scope {
    if declare then Declare(sc, x) else sc
  }

  /** The scope of the body of a `for`. */
  function BodyScope(sc: Scope): Scope {
    Scope(sc.locals + [IterName(sc.fors)], sc.fors + 1)
  }

  function DeclsScope(ds: Decls, sc: Scope): Scope {
    match ds
    case NoDecl => sc
    case Decl(x, _, rest) => DeclsScope(rest, Declare(sc, x))
  }

  function StmtScope(s: Stmt, sc: Scope): Scope {
    match s
    case Var(ds) => DeclsScope(ds, sc)
    case If(g) => GuardScope(g, sc)
    case Forever(body) => BlockScope(body, sc)
    case ForIn(declare, x, _, body) => BlockScope(body, BodyScope(DeclareIf(declare, sc, x)))
    case Nop | Assign(_, _) | DoCall(_, _) | DoMethod(_, _, _) | Break | Continue | Return(_) => sc
  }

  function BlockScope(b: Block, sc: Scope): Scope {
    match b
    case Done => sc
    case Then(s, tail) => BlockScope(tail, StmtScope(s, sc))
  }

  function ChainScope(c: Chain, sc: Scope): Scope {
    match c
    case Fi => sc
    case Else(b) => BlockScope(b, sc)
    case Elif(g) => GuardScope(g, sc)
  }

  function GuardScope(g: Guard, sc: Scope): Scope {
    ChainScope(g.rest, BlockScope(g.block, sc))
  }

  // ------------------------------------------------------------------
  // Every name is declared once
  // ------------------------------------------------------------------

  predicate DeclsNew(ds: Decls, locals: seq<Name>) {
    match ds
    case NoDecl => true
    case Decl(x, _, rest) => x !in locals && DeclsNew(rest, locals + [x])
  }

  /** Every declaration is of a name that was not declared before. */
  predicate StmtNew(s: Stmt, sc: Scope) {
    match s
    case Var(ds) => DeclsNew(ds, sc.locals)
    case If(g) => GuardNew(g, sc)
    case Forever(body) => BlockNew(body, sc)
    case ForIn(declare, x, _, body) =>
      var sc1 := DeclareIf(declare, sc, x);
      (declare ==> x !in sc.locals) && IterName(sc1.fors) !in sc1.locals && BlockNew(body, BodyScope(sc1))
    case Nop | Assign(_, _) | DoCall(_, _) | DoMethod(_, _, _) | Break | Continue | Return(_) => true
  }

  predicate BlockNew(b: Block, sc: Scope) {
    match b
    case Done => true
    case Then(s, tail) => StmtNew(s, sc) && BlockNew(tail, StmtScope(s, sc))
  }

  predicate ChainNew(c: Chain, sc: Scope) {
    match c
    case Fi => true
    case Else(b) => BlockNew(b, sc)
    case Elif(g) => GuardNew(g, sc)
  }

  predicate GuardNew(g: Guard, sc: Scope) {
    BlockNew(g.block, sc) && ChainNew(g.rest, BlockScope(g.block, sc))
  }

  ghost predicate Distinct(xs: seq<Name>) {
    forall i, j | 0 <= i < j < |xs| :: xs[i] != xs[j]
  }

  /** Scopes only grow. */
  lemma {:induction false} DeclsGrow(ds: Decls, sc: Scope)
    ensures sc.locals <= DeclsScope(ds, sc).locals
  {
    match ds {
      case NoDecl =>
      case Decl(x, _, rest) => DeclsGrow(rest, Declare(sc, x));
    }
  }

  lemma {:induction false} StmtGrows(s: Stmt, sc: Scope)
    ensures sc.locals <= StmtScope(s, sc).locals
  {
    match s {
      case Var(ds) => DeclsGrow(ds, sc);
      case If(g) => GuardGrows(g, sc);
      case Forever(body) => BlockGrows(body, sc);
      case ForIn(declare, x, _, body) => BlockGrows(body, BodyScope(DeclareIf(declare, sc, x)));
      case Nop | Assign(_, _) | DoCall(_, _) | DoMethod(_, _, _) | Break | Continue | Return(_) =>
    }
  }

  lemma {:induction false} BlockGrows(b: Block, sc: Scope)
    ensures sc.locals <= BlockScope(b, sc).locals
  {
    match b {
      case Done =>
      case Then(s, tail) =>
        StmtGrows(s, sc);
        BlockGrows(tail, StmtScope(s, sc));
    }
  }

  lemma {:induction false} ChainGrows(c: Chain, sc: Scope)
    ensures sc.locals <= ChainScope(c, sc).locals
  {
    match c {
      case Fi =>
      case Else(b) => BlockGrows(b, sc);
      case Elif(g) => GuardGrows(g, sc);
    }
  }

  lemma {:induction false} GuardGrows(g: Guard, sc: Scope)
    ensures sc.locals <= GuardScope(g, sc).locals
  {
    BlockGrows(g.block, sc);
    ChainGrows(g.rest, BlockScope(g.block, sc));
  }

  lemma {:induction false} DistinctMore(xs: seq<Name>, x: Name)
    requires Distinct(xs) && x !in xs
    ensures Distinct(xs + [x])
  {
  }

  lemma {:induction false} DeclsDistinct(ds: Decls, sc: Scope)
    requires DeclsNew(ds, sc.locals) && Distinct(sc.locals)
    ensures Distinct(DeclsScope(ds, sc).locals)
  {
    match ds {
      case NoDecl =>
      case Decl(x, _, rest) =>
        DistinctMore(sc.locals, x);
        DeclsDistinct(rest, Declare(sc, x));
    }
  }

  /** No name is twice in the table of locals. */
  lemma {:induction false} StmtDistinct(s: Stmt, sc: Scope)
    requires StmtNew(s, sc) && Distinct(sc.locals)
    ensures Distinct(StmtScope(s, sc).locals)
  {
    match s {
      case Var(ds) => DeclsDistinct(ds, sc);
      case If(g) => GuardDistinct(g, sc);
      case Forever(body) => BlockDistinct(body, sc);
      case ForIn(declare, x, _, body) =>
        var sc1 := DeclareIf(declare, sc, x);
        if declare { DistinctMore(sc.locals, x); }
        DistinctMore(sc1.locals, IterName(sc1.fors));
        BlockDistinct(body, BodyScope(sc1));
      case Nop | Assign(_, _) | DoCall(_, _) | DoMethod(_, _, _) | Break | Continue | Return(_) =>
    }
  }

  lemma {:induction false} BlockDistinct(b: Block, sc: Scope)
    requires BlockNew(b, sc) && Distinct(sc.locals)
    ensures Distinct(BlockScope(b, sc).locals)
  {
    match b {
      case Done =>
      case Then(s, tail) =>
        StmtDistinct(s, sc);
        BlockDistinct(tail, StmtScope(s, sc));
    }
  }

  lemma {:induction false} ChainDistinct(c: Chain, sc: Scope)
    requires ChainNew(c, sc) && Distinct(sc.locals)
    ensures Distinct(ChainScope(c, sc).locals)
  {
    match c {
      case Fi =>
      case Else(b) => BlockDistinct(b, sc);
      case Elif(g) => GuardDistinct(g, sc);
    }
  }

  lemma {:induction false} GuardDistinct(g: Guard, sc: Scope)
    requires GuardNew(g, sc) && Distinct(sc.locals)
    ensures Distinct(GuardScope(g, sc).locals)
  {
    BlockDistinct(g.block, sc);
    ChainDistinct(g.rest, BlockScope(g.block, sc));
  }
}
