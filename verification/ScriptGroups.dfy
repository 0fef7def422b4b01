/** How operators group, written out for the five levels of the binary operators and for the unary ones. */
module ScriptGroups {
  import opened Basics
  import opened ScriptSyntax
  import opened ScriptParse

  /** How tightly a binary operator binds. */
  function Level(op: BinaryOp): nat {
    if op in {Or} then 1
    else if op in {And} then 2
    else if op in {Eq, Ne, Match, Lt, Le, Gt, Ge} then 3
    else if op in {Add, Sub} then 4
    else 5
  }

  /** A token that is an operand by itself: a literal or a symbol. */
  predicate IsOperand(t: Token) {
    t == TNil || t == TTrue || t == TFalse || t.TInt? || (t.TStr? && t.text.Some?) || t.TSym?
  }

  function Operand(t: Token): Expr
    requires IsOperand(t)
  {
    match t
    case TNil => Lit(NilLit)
    case TTrue => Lit(BoolLit(true))
    case TFalse => Lit(BoolLit(false))
    case TInt(n) => Lit(IntLit(n))
    case TStr(z) => Lit(StrLit(z.value))
    case TSym(x) => Sym(x)
  }

  /** Tokens that no expression goes on with: neither an operator nor a suffix. */
  predicate Ends(rest: seq<Token>) {
    rest == [] || !(rest[0].TOp? || rest[0] in {Dot, LBrack, Colon, LPar} || rest[0].TStr?)
  }

  lemma {:induction false} OperandParses(t: Token, rest: seq<Token>, limit: nat)
    requires IsOperand(t) && (Ends(rest) || (rest != [] && rest[0].TOp?))
    ensures ParseExpr([t] + rest, limit) == Climb(Operand(t), rest, limit)
  {
    hide Climb;
    var ts := [t] + rest;
    assert ts[0] == t && ts[1..] == rest;
    assert ParseSimple(ts) == Ok(Operand(t), rest);
  }

  lemma {:induction false} ClimbsOn(l: Expr, op: BinaryOp, ts: seq<Token>, limit: nat)
    ensures Climb(l, [TOp(op)] + ts, limit) ==
      if Prio(op) > limit then
        match ParseExpr(ts, Prio(op))
        case Bad(f) => Bad(f)
        case Ok(e, rest) => Climb(Binary(op, l, e), rest, limit)
      else Ok(l, [TOp(op)] + ts)
  {
    hide ParseExpr;
    assert ([TOp(op)] + ts)[1..] == ts;
  }

  lemma {:induction false} ClimbEnds(l: Expr, rest: seq<Token>, limit: nat)
    requires Ends(rest)
    ensures Climb(l, rest, limit) == Ok(l, rest)
  {
  }

  lemma {:induction false} Levels(op: BinaryOp, op': BinaryOp)
    ensures Prio(op) > 0 && (Prio(op') > Prio(op) <==> Level(op') > Level(op)) && Prio(op) < PRIO_UNARY
  {
  }

  /** Of two operators the one that binds tighter takes the operand between them, and the first one if neither does:
      a tighter operator groups before a looser one, and operators of one level group from the left. */
  lemma {:induction false} TwoOperators(a: Token, op: BinaryOp, b: Token, op': BinaryOp, c: Token, rest: seq<Token>)
    requires IsOperand(a) && IsOperand(b) && IsOperand(c) && Ends(rest)
    ensures ParseExpr([a, TOp(op), b, TOp(op'), c] + rest, 0) ==
      Ok(if Level(op') > Level(op) then Binary(op, Operand(a), Binary(op', Operand(b), Operand(c)))
         else Binary(op', Binary(op, Operand(a), Operand(b)), Operand(c)), rest)
  {
    hide ParseExpr, Climb, Prio, Level, IsOperand, Operand, Ends;
    var ts3 := [c] + rest;
    var ts2 := [TOp(op')] + ts3;
    var ts1 := [b] + ts2;
    var ts0 := [TOp(op)] + ts1;
    assert [a, TOp(op), b, TOp(op'), c] + rest == [a] + ts0;
    OperandParses(a, ts0, 0);
    ClimbsOn(Operand(a), op, ts1, 0);
    OperandParses(b, ts2, Prio(op));
    ClimbsOn(Operand(b), op', ts3, Prio(op));
    OperandParses(c, rest, Prio(op'));
    ClimbEnds(Operand(c), rest, Prio(op'));
    ClimbEnds(Binary(op', Operand(b), Operand(c)), rest, Prio(op));
    ClimbEnds(Binary(op, Operand(a), Binary(op', Operand(b), Operand(c))), rest, 0);
    ClimbsOn(Binary(op, Operand(a), Operand(b)), op', ts3, 0);
    ClimbEnds(Binary(op', Binary(op, Operand(a), Operand(b)), Operand(c)), rest, 0);
    Levels(op, op');
    Levels(op', op);
  }

  /** A unary operator takes its operand before any binary operator does, and after another unary operator. */
  lemma {:induction false} UnaryFirst(u: Token, un: UnaryOp, a: Token, op: BinaryOp, b: Token, rest: seq<Token>)
    requires (u, un) in {(TOp(Sub), Minus), (TNot, Not), (TBang, NotNil), (TTypeof, TypeOf)}
    requires IsOperand(a) && IsOperand(b) && Ends(rest)
    ensures ParseExpr([u, a, TOp(op), b] + rest, 0) == Ok(Binary(op, Unary(un, Operand(a)), Operand(b)), rest)
    ensures ParseExpr([b, TOp(op), u, a] + rest, 0) == Ok(Binary(op, Operand(b), Unary(un, Operand(a))), rest)
  {
    hide ParseExpr, Climb, Prio, IsOperand, Operand, Ends;
    Levels(op, op);
    var ts := [TOp(op)] + ([b] + rest);
    assert [u, a, TOp(op), b] + rest == [u] + ([a] + ts);
    OperandParses(a, ts, PRIO_UNARY);
    ClimbsOn(Operand(a), op, [b] + rest, PRIO_UNARY);
    UnaryTakes(u, un, [a] + ts, ts, Operand(a), 0);
    ClimbsOn(Unary(un, Operand(a)), op, [b] + rest, 0);
    OperandParses(b, rest, Prio(op));
    ClimbEnds(Operand(b), rest, Prio(op));
    ClimbEnds(Binary(op, Unary(un, Operand(a)), Operand(b)), rest, 0);
    var us := [u] + ([a] + rest);
    assert [b, TOp(op), u, a] + rest == [b] + ([TOp(op)] + us);
    OperandParses(b, [TOp(op)] + us, 0);
    ClimbsOn(Operand(b), op, us, 0);
    OperandParses(a, rest, PRIO_UNARY);
    ClimbEnds(Operand(a), rest, PRIO_UNARY);
    UnaryTakes(u, un, [a] + rest, rest, Operand(a), Prio(op));
    ClimbEnds(Unary(un, Operand(a)), rest, Prio(op));
    ClimbEnds(Binary(op, Operand(b), Unary(un, Operand(a))), rest, 0);
  }

  lemma {:induction false} UnaryTakes(u: Token, un: UnaryOp, ts: seq<Token>, rest: seq<Token>, e: Expr, limit: nat)
    requires (u, un) in {(TOp(Sub), Minus), (TNot, Not), (TBang, NotNil), (TTypeof, TypeOf)}
    requires ParseExpr(ts, PRIO_UNARY) == Ok(e, rest)
    ensures ParseExpr([u] + ts, limit) == Climb(Unary(un, e), rest, limit)
  {
    hide Climb;
    var all := [u] + ts;
    assert all[1..] == ts && UnaryOf(all) == Some(un);
  }
}
