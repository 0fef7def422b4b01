/** Expressions printed with as few parentheses as the priorities of the operators allow parse back to themselves. */
module ScriptPrint {
  import opened Basics
  import opened ScriptSyntax
  import opened ScriptParse

  function LiteralToken(c: Literal): Token {
    match c
    case NilLit => TNil
    case BoolLit(b) => if b then TTrue else TFalse
    case IntLit(n) => TInt(n)
    case StrLit(z) => TStr(Some(z))
  }

  function UnaryToken(op: UnaryOp): Token {
    match op
    case Minus => TOp(Sub)
    case Not => TNot
    case NotNil => TBang
    case TypeOf => TTypeof
  }

  function Parens(ts: seq<Token>): seq<Token> {
    [LPar] + ts + [RPar]
  }

  /** Fields, indices and calls may follow without parentheses. */
  predicate Suffixable(e: Expr) {
    e.Sym? || e.Field? || e.Index? || e.Call? || e.Method?
  }

  /** The tokens of an expression where only operators that bind tighter than `limit` need no parentheses. */
  function Show(e: Expr, limit: nat): seq<Token>
    decreases e, 1
  {
    match e
    case Lit(c) => [LiteralToken(c)]
    case Sym(x) => [TSym(x)]
    case Unary(op, a) => [UnaryToken(op)] + Show(a, PRIO_UNARY)
    case Binary(op, _, _) => if Prio(op) > limit then Infix(e) else Parens(Infix(e))
    case Field(obj, x) => ShowBase(obj) + [Dot, TSym(x)]
    case Index(obj, key) => ShowBase(obj) + ([LBrack] + Show(key, 0) + [RBrack])
    case Call(f, args) => ShowBase(f) + ShowArgs(args)
    case Method(self, m, args) => ShowBase(self) + ([Colon, TSym(m)] + ShowArgs(args))
    case Array(es) => [LBrack] + ShowAll(es) + [RBrack]
  }

  /** The operator between its operands; operators of one priority associate to the left. */
  function Infix(e: Expr): seq<Token>
    requires e.Binary?
    decreases e, 0
  {
    Show(e.left, Prio(e.binary) - 1) + ([TOp(e.binary)] + Show(e.right, Prio(e.binary)))
  }

  /** An expression that a suffix follows. */
  function ShowBase(e: Expr): seq<Token>
    decreases e, 2
  {
    if Suffixable(e) then Show(e, 0) else Parens(Show(e, 0))
  }

  /** The arguments of a call; one string needs no parentheses. */
  function ShowArgs(args: Exprs): seq<Token>
    decreases args, 1
  {
    if LoneString(args) then [LiteralToken(args.head.literal)] else Parens(ShowAll(args))
  }

  predicate LoneString(args: Exprs) {
    args.More? && args.tail == Empty && args.head.Lit? && args.head.literal.StrLit?
  }

  function ShowAll(es: Exprs): seq<Token>
    decreases es, 0
  {
    match es
    case Empty => []
    case More(e, tail) => if tail == Empty then Show(e, 0) else Show(e, 0) + ([Comma] + ShowAll(tail))
  }

  // ------------------------------------------------------------------
  // The first token
  // ------------------------------------------------------------------

  /** A token that may begin an expression that is not a unary operator. */
  predicate Begins(t: Token) {
    LiteralOf(t).Some? || t.TSym? || t == LPar || t == LBrack
  }

  lemma {:induction false} ShowBegins(e: Expr, limit: nat)
    ensures Show(e, limit) != []
    ensures var t := Show(e, limit)[0]; Begins(t) || UnaryOf([t]).Some?
    ensures Suffixable(e) ==> Show(e, limit)[0].TSym? || Show(e, limit)[0] == LPar
    decreases e, 0
  {
    match e {
      case Lit(_) =>
      case Sym(_) =>
      case Unary(_, _) =>
      case Binary(op, l, _) => ShowBegins(l, Prio(op) - 1);
      case Field(obj, _) => BaseBegins(obj);
      case Index(obj, _) => BaseBegins(obj);
      case Call(f, _) => BaseBegins(f);
      case Method(self, _, _) => BaseBegins(self);
      case Array(_) =>
    }
  }

  lemma {:induction false} BaseBegins(e: Expr)
    ensures ShowBase(e) != [] && (ShowBase(e)[0].TSym? || ShowBase(e)[0] == LPar)
    decreases e, 1
  {
    hide Show;
    ShowBegins(e, 0);
  }

  // ------------------------------------------------------------------
  // Parsing what was printed
  // ------------------------------------------------------------------

  /** Tokens that do not go on with an expression printed for `limit`. */
  predicate Stops(ts: seq<Token>, limit: nat) {
    !Climbs(ts, limit) && !SeesSuffix(ts)
  }

  lemma {:induction false} ClimbStops(e: Expr, ts: seq<Token>, limit: nat)
    requires !Climbs(ts, limit)
    ensures Climb(e, ts, limit) == Ok(e, ts)
  {
  }

  lemma {:induction false} NoClimb(ts: seq<Token>)
    ensures !Climbs(ts, PRIO_UNARY)
  {
  }

  lemma {:induction false} OperandOnly(ts: seq<Token>, limit: nat)
    requires UnaryOf(ts) == None
    ensures ParseExpr(ts, limit) ==
      match ParseSimple(ts)
      case Bad(f) => Bad(f)
      case Ok(e, rest) => Climb(e, rest, limit)
  {
    hide ParseSimple, Climb;
  }

  lemma {:induction false} UnaryShows(op: UnaryOp, a: Expr, ts: seq<Token>, rest: seq<Token>, limit: nat)
    requires ParseExpr(ts, PRIO_UNARY) == Ok(a, rest)
    ensures ParseExpr([UnaryToken(op)] + ts, limit) == Climb(Unary(op, a), rest, limit)
  {
    var all := [UnaryToken(op)] + ts;
    assert all[1..] == ts;
    hide Climb;
  }

  lemma {:induction false} BinaryShows(op: BinaryOp, l: Expr, r: Expr, ts: seq<Token>, rest: seq<Token>, limit: nat)
    requires Prio(op) > limit && ParseExpr(ts, Prio(op)) == Ok(r, rest)
    ensures Climb(l, [TOp(op)] + ts, limit) == Climb(Binary(op, l, r), rest, limit)
  {
    hide ParseExpr;
    var all := [TOp(op)] + ts;
    assert all[1..] == ts;
  }

  lemma {:induction false} ParensShow(e: Expr, ts: seq<Token>, rest: seq<Token>)
    requires ParseExpr(ts + ([RPar] + rest), 0) == Ok(e, [RPar] + rest)
    ensures ParseSimple(Parens(ts) + rest) == Suffix(e, rest)
  {
    hide ParseExpr, Suffix;
    var all := Parens(ts) + rest;
    assert all[0] == LPar && all[1..] == ts + ([RPar] + rest);
    assert ([RPar] + rest)[1..] == rest;
  }

  lemma {:induction false} SuffixStops(e: Expr, ts: seq<Token>)
    requires !SeesSuffix(ts)
    ensures Suffix(e, ts) == Ok(e, ts)
  {
  }

  /** What was printed for `limit` parses, where operators bind tighter than `low`, as an operand after which
      the climbing goes on. */
  lemma {:induction false} ShownParses(e: Expr, limit: nat, low: nat, rest: seq<Token>)
    requires low <= limit && Stops(rest, limit + 1)
    ensures ParseExpr(Show(e, limit) + rest, low) == Climb(e, rest, low)
    decreases e, 1
  {
    hide ParseExpr, Climb, Show, ParseSimple, Suffix;
    match e {
      case Lit(c) => LitParses(c, limit, low, rest);
      case Unary(op, a) => UnaryParses(op, a, limit, low, rest);
      case Binary(_, _, _) => BinaryParses(e, limit, low, rest);
      case Array(es) => ArrayParses(es, limit, low, rest);
      case Sym(_) => BaseShown(e, limit, low, rest);
      case Field(_, _) => BaseShown(e, limit, low, rest);
      case Index(_, _) => BaseShown(e, limit, low, rest);
      case Call(_, _) => BaseShown(e, limit, low, rest);
      case Method(_, _, _) => BaseShown(e, limit, low, rest);
    }
  }

  lemma {:induction false} LitParses(c: Literal, limit: nat, low: nat, rest: seq<Token>)
    ensures ParseExpr(Show(Lit(c), limit) + rest, low) == Climb(Lit(c), rest, low)
  {
    var ts := [LiteralToken(c)] + rest;
    assert Show(Lit(c), limit) == [LiteralToken(c)];
    assert ts[0] == LiteralToken(c) && ts[1..] == rest;
    assert LiteralOf(LiteralToken(c)) == Some(c);
    OperandOnly(ts, low);
    hide Climb;
  }

  lemma {:induction false} UnaryParses(op: UnaryOp, a: Expr, limit: nat, low: nat, rest: seq<Token>)
    requires !SeesSuffix(rest)
    ensures ParseExpr(Show(Unary(op, a), limit) + rest, low) == Climb(Unary(op, a), rest, low)
    decreases a, 2
  {
    hide ParseExpr, Climb;
    NoClimb(rest);
    NoClimbMore(rest, PRIO_UNARY);
    ShownParses(a, PRIO_UNARY, PRIO_UNARY, rest);
    ClimbStops(a, rest, PRIO_UNARY);
    UnaryShows(op, a, Show(a, PRIO_UNARY) + rest, rest, low);
    Assoc([UnaryToken(op)], Show(a, PRIO_UNARY), rest);
  }

  lemma {:induction false} NoClimbMore(ts: seq<Token>, limit: nat)
    requires !Climbs(ts, limit)
    ensures !Climbs(ts, limit + 1)
  {
  }

  /** Two operands and the operator between them, without parentheses around them. */
  lemma {:induction false} InfixParses(e: Expr, low: nat, rest: seq<Token>)
    requires e.Binary? && low < Prio(e.binary) && Stops(rest, Prio(e.binary))
    ensures ParseExpr(Infix(e) + rest, low) == Climb(e, rest, low)
    decreases e, 0, 0
  {
    hide ParseExpr, Climb, Show;
    var op, l, r, p := e.binary, e.left, e.right, Prio(e.binary);
    var ts := [TOp(op)] + (Show(r, p) + rest);
    NoClimbMore(rest, p);
    ShownParses(r, p, p, rest);
    ClimbStops(r, rest, p);
    OpStops(op, Show(r, p) + rest);
    ShownParses(l, p - 1, low, ts);
    BinaryShows(op, l, r, Show(r, p) + rest, rest, low);
    Assoc([TOp(op)], Show(r, p), rest);
    Assoc(Show(l, p - 1), [TOp(op)] + Show(r, p), rest);
  }

  lemma {:induction false} OpStops(op: BinaryOp, ts: seq<Token>)
    ensures Stops([TOp(op)] + ts, Prio(op))
  {
  }

  lemma {:induction false} BinaryParses(e: Expr, limit: nat, low: nat, rest: seq<Token>)
    requires e.Binary? && low <= limit && Stops(rest, limit + 1)
    ensures ParseExpr(Show(e, limit) + rest, low) == Climb(e, rest, low)
    decreases e, 0, 1
  {
    hide ParseExpr, Climb, ParseSimple, Suffix, Infix;
    InfixText(e, limit);
    hide Show;
    if Prio(e.binary) > limit {
      InfixParses(e, low, rest);
    } else {
      ParStops(rest);
      InfixParses(e, 0, [RPar] + rest);
      ClimbStops(e, [RPar] + rest, 0);
      ParensShow(e, Infix(e), rest);
      SuffixStops(e, rest);
      OperandOnly(Parens(Infix(e)) + rest, low);
    }
  }

  lemma {:induction false} InfixText(e: Expr, limit: nat)
    requires e.Binary?
    ensures Show(e, limit) == if Prio(e.binary) > limit then Infix(e) else Parens(Infix(e))
  {
  }

  lemma {:induction false} ParStops(rest: seq<Token>)
    ensures forall n: nat :: Stops([RPar] + rest, n)
  {
  }

  /** An expression in parentheses. */
  lemma {:induction false} ParensParses(e: Expr, rest: seq<Token>)
    ensures ParseSimple(Parens(Show(e, 0)) + rest) == Suffix(e, rest)
    decreases e, 2
  {
    hide ParseExpr, Climb, Show, ParseSimple, Suffix;
    ParStops(rest);
    ShownParses(e, 0, 0, [RPar] + rest);
    ClimbStops(e, [RPar] + rest, 0);
    ParensShow(e, Show(e, 0), rest);
  }

  lemma {:induction false} BaseParses(e: Expr, rest: seq<Token>)
    ensures ParseSimple(ShowBase(e) + rest) == Suffix(e, rest)
    decreases e, 3
  {
    hide ParseExpr, Climb, Show, ParseSimple, Suffix;
    if Suffixable(e) {
      SuffixParses(e, 0, rest);
    } else {
      ParensParses(e, rest);
    }
  }

  lemma {:induction false} BaseShown(e: Expr, limit: nat, low: nat, rest: seq<Token>)
    requires Suffixable(e) && !SeesSuffix(rest)
    ensures ParseExpr(Show(e, limit) + rest, low) == Climb(e, rest, low)
    decreases e, 0, 1
  {
    hide ParseExpr, Climb, Show, ParseSimple, Suffix;
    SuffixParses(e, limit, rest);
    ShowBegins(e, limit);
    SuffixStops(e, rest);
    OperandOnly(Show(e, limit) + rest, low);
  }

  /** Suffixes are taken one after the other. */
  lemma {:induction false} SuffixParses(e: Expr, limit: nat, rest: seq<Token>)
    requires Suffixable(e)
    ensures ParseSimple(Show(e, limit) + rest) == Suffix(e, rest)
    decreases e, 0, 0
  {
    hide ParseExpr, Climb, ParseSimple, Suffix, ShowBase, ShowArgs;
    match e {
      case Sym(x) => SymParses(x, rest);
      case Field(obj, x) =>
        BaseParses(obj, [Dot, TSym(x)] + rest);
        Assoc(ShowBase(obj), [Dot, TSym(x)], rest);
        FieldSuffix(obj, x, rest);
      case Index(obj, key) =>
        var ts := [LBrack] + Show(key, 0) + [RBrack];
        BaseParses(obj, ts + rest);
        Assoc(ShowBase(obj), ts, rest);
        KeyParses(key, rest);
        IndexSuffix(obj, key, ts + rest, rest);
      case Call(f, args) =>
        var ts := ShowArgs(args);
        BaseParses(f, ts + rest);
        Assoc(ShowBase(f), ts, rest);
        ArgsParse(args, rest);
        CallSuffix(f, args, ts + rest, rest);
      case Method(self, m, args) =>
        var ts := ShowArgs(args);
        BaseParses(self, [Colon, TSym(m)] + (ts + rest));
        Assoc([Colon, TSym(m)], ts, rest);
        Assoc(ShowBase(self), [Colon, TSym(m)] + ts, rest);
        ArgsParse(args, rest);
        MethodSuffix(self, m, args, ts + rest, rest);
    }
  }

  lemma {:induction false} SymParses(x: Name, rest: seq<Token>)
    ensures ParseSimple([TSym(x)] + rest) == Suffix(Sym(x), rest)
  {
    hide Suffix;
    var ts := [TSym(x)] + rest;
    assert ts[0] == TSym(x) && ts[1..] == rest;
  }

  lemma {:induction false} FieldSuffix(e: Expr, x: Name, rest: seq<Token>)
    ensures Suffix(e, [Dot, TSym(x)] + rest) == Suffix(Field(e, x), rest)
  {
    var ts := [Dot, TSym(x)] + rest;
    assert ts[0] == Dot && ts[1] == TSym(x) && ts[1..][0] == TSym(x) && ts[2..] == rest;
  }

  lemma {:induction false} KeyParses(key: Expr, rest: seq<Token>)
    ensures ParseKey([LBrack] + Show(key, 0) + [RBrack] + rest) == Ok(key, rest)
    decreases key, 2
  {
    hide ParseExpr, Climb, Show;
    var ts := [LBrack] + Show(key, 0) + [RBrack] + rest;
    assert ts[0] == LBrack && ts[1..] == Show(key, 0) + ([RBrack] + rest);
    BrackStops(rest);
    ShownParses(key, 0, 0, [RBrack] + rest);
    ClimbStops(key, [RBrack] + rest, 0);
    assert ([RBrack] + rest)[1..] == rest;
  }

  lemma {:induction false} BrackStops(rest: seq<Token>)
    ensures forall n: nat :: Stops([RBrack] + rest, n)
  {
  }

  lemma {:induction false} IndexSuffix(e: Expr, key: Expr, ts: seq<Token>, rest: seq<Token>)
    requires Sees(ts, LBrack) && ParseKey(ts) == Ok(key, rest)
    ensures Suffix(e, ts) == Suffix(Index(e, key), rest)
  {
    hide ParseKey;
  }

  lemma {:induction false} CallSuffix(e: Expr, args: Exprs, ts: seq<Token>, rest: seq<Token>)
    requires ts != [] && (ts[0] == LPar || ts[0].TStr?) && ParseCallArgs(ts) == Ok(args, rest)
    ensures Suffix(e, ts) == Suffix(Call(e, args), rest)
  {
    hide ParseCallArgs;
  }

  lemma {:induction false} MethodSuffix(e: Expr, m: Name, args: Exprs, ts: seq<Token>, rest: seq<Token>)
    requires ParseCallArgs(ts) == Ok(args, rest)
    ensures Suffix(e, [Colon, TSym(m)] + ts) == Suffix(Method(e, m, args), rest)
  {
    hide ParseCallArgs;
    var all := [Colon, TSym(m)] + ts;
    assert all[0] == Colon && all[1..][0] == TSym(m) && all[1] == TSym(m) && all[2..] == ts;
  }

  lemma {:induction false} ArgsParse(args: Exprs, rest: seq<Token>)
    ensures var ts := ShowArgs(args) + rest;
      (ts[0] == LPar || ts[0].TStr?) && ParseCallArgs(ts) == Ok(args, rest)
    decreases args, 1
  {
    hide ParseExpr, ParseArgs, Climb, Show;
    var ts := ShowArgs(args) + rest;
    if LoneString(args) {
      assert ts[0] == LiteralToken(args.head.literal) && ts[1..] == rest;
    } else {
      assert ts[0] == LPar && ts[1..] == ShowAll(args) + ([RPar] + rest);
      assert ([RPar] + rest)[1..] == rest;
      if args == Empty {
        assert ts[1..] == [RPar] + rest && ts[2..] == rest;
      } else {
        ListParses(args, rest);
        ShowBegins(args.head, 0);
      }
    }
  }

  lemma {:induction false} ListParses(args: Exprs, rest: seq<Token>)
    requires args.More?
    ensures ParseArgs(ShowAll(args) + ([RPar] + rest)) == Ok(args, [RPar] + rest)
    decreases args, 0
  {
    hide ParseExpr, Climb, Show;
    var e, end := args.head, [RPar] + rest;
    ParStops(rest);
    if args.tail == Empty {
      ShownParses(e, 0, 0, end);
      ClimbStops(e, end, 0);
    } else {
      var ts := [Comma] + (ShowAll(args.tail) + end);
      ListParses(args.tail, rest);
      CommaStops(ShowAll(args.tail) + end);
      ShownParses(e, 0, 0, ts);
      ClimbStops(e, ts, 0);
      assert ts[1..] == ShowAll(args.tail) + end;
      Assoc([Comma], ShowAll(args.tail), end);
      Assoc(Show(e, 0), [Comma] + ShowAll(args.tail), end);
    }
  }

  lemma {:induction false} CommaStops(rest: seq<Token>)
    ensures forall n: nat :: Stops([Comma] + rest, n)
  {
  }

  lemma {:induction false} ElemsParse(es: Exprs, rest: seq<Token>)
    ensures ParseElems(ShowAll(es) + ([RBrack] + rest)) == Ok(es, [RBrack] + rest)
    decreases es, 0
  {
    hide ParseExpr, Climb, Show;
    var end := [RBrack] + rest;
    BrackStops(rest);
    match es {
      case Empty => assert ShowAll(es) + end == end;
      case More(e, tail) =>
        ShowBegins(e, 0);
        if tail == Empty {
          ShownParses(e, 0, 0, end);
          ClimbStops(e, end, 0);
          ElemsEnd(e, Show(e, 0) + end, end);
        } else {
          var ts := [Comma] + (ShowAll(tail) + end);
          ElemsParse(tail, rest);
          CommaStops(ShowAll(tail) + end);
          ShownParses(e, 0, 0, ts);
          ClimbStops(e, ts, 0);
          assert ts[1..] == ShowAll(tail) + end;
          Assoc([Comma], ShowAll(tail), end);
          Assoc(Show(e, 0), [Comma] + ShowAll(tail), end);
        }
    }
  }

  lemma {:induction false} ElemsEnd(e: Expr, ts: seq<Token>, end: seq<Token>)
    requires ParseExpr(ts, 0) == Ok(e, end) && !Sees(end, Comma)
    ensures ParseElems(ts) == if Sees(ts, RBrack) then Ok(Empty, ts) else Ok(More(e, Empty), end)
  {
    hide ParseExpr;
  }

  lemma {:induction false} ArrayParses(es: Exprs, limit: nat, low: nat, rest: seq<Token>)
    ensures ParseExpr(Show(Array(es), limit) + rest, low) == Climb(Array(es), rest, low)
    decreases es, 1
  {
    hide Climb, ParseElems, ShowAll;
    var ts := [LBrack] + ShowAll(es) + [RBrack] + rest;
    assert ts[0] == LBrack && ts[1..] == ShowAll(es) + ([RBrack] + rest);
    ElemsParse(es, rest);
    assert Skip([RBrack] + rest) == rest;
    OperandOnly(ts, low);
  }

  /** Every expression, printed for a context that takes operators binding tighter than `limit`, is parsed back,
      and nothing of what follows is taken. */
  lemma {:induction false} PrintParses(e: Expr, limit: nat, rest: seq<Token>)
    requires Stops(rest, limit)
    ensures ParseExpr(Show(e, limit) + rest, limit) == Ok(e, rest)
  {
    hide ParseExpr, Climb, Show;
    NoClimbMore(rest, limit);
    ShownParses(e, limit, limit, rest);
    ClimbStops(e, rest, limit);
  }

  /** Different expressions print differently. */
  lemma {:induction false} PrintInjective(e: Expr, f: Expr)
    requires Show(e, 0) == Show(f, 0)
    ensures e == f
  {
    hide ParseExpr, Show;
    PrintParses(e, 0, []);
    PrintParses(f, 0, []);
  }
}
