/** No tokens with fewer parentheses than the printed ones are parsed as the same expression. */
module ScriptParens {
  import opened ScriptSyntax
  import opened ScriptParse
  import opened ScriptPrint

  function Opens(ts: seq<Token>): nat {
    if ts == [] then 0 else (if ts[0] == LPar then 1 else 0) + Opens(ts[1..])
  }

  lemma {:induction false} OpensJoin(x: seq<Token>, y: seq<Token>)
    ensures Opens(x + y) == Opens(x) + Opens(y)
  {
    if x == [] {
      assert x + y == y;
    } else {
      assert (x + y)[1..] == x[1..] + y;
      OpensJoin(x[1..], y);
    }
  }

  lemma {:induction false} OpensRest(ts: seq<Token>, n: nat)
    requires n <= |ts|
    ensures Opens(ts[n..]) <= Opens(ts)
  {
    OpensJoin(ts[..n], ts[n..]);
    assert ts[..n] + ts[n..] == ts;
  }

  // ------------------------------------------------------------------
  // The parentheses that are printed
  // ------------------------------------------------------------------

  /** The pairs of parentheses printed where only operators that bind tighter than `limit` need none. */
  function Pairs(e: Expr, limit: nat): nat
    decreases e, 1
  {
    match e
    case Lit(_) | Sym(_) => 0
    case Unary(_, a) => Pairs(a, PRIO_UNARY)
    case Binary(op, l, r) => (if Prio(op) > limit then 0 else 1) + Pairs(l, Prio(op) - 1) + Pairs(r, Prio(op))
    case Field(obj, _) => BasePairs(obj)
    case Index(obj, key) => BasePairs(obj) + Pairs(key, 0)
    case Call(f, args) => BasePairs(f) + ArgsPairs(args)
    case Method(self, _, args) => BasePairs(self) + ArgsPairs(args)
    case Array(es) => AllPairs(es)
  }

  function BasePairs(e: Expr): nat
    decreases e, 2
  {
    Pairs(e, 0) + if Suffixable(e) then 0 else 1
  }

  function ArgsPairs(args: Exprs): nat
    decreases args, 1
  {
    if LoneString(args) then 0 else 1 + AllPairs(args)
  }

  function AllPairs(es: Exprs): nat
    decreases es, 0
  {
    match es
    case Empty => 0
    case More(e, tail) => Pairs(e, 0) + AllPairs(tail)
  }

  lemma {:induction false} ParensOpen(ts: seq<Token>)
    ensures Opens(Parens(ts)) == 1 + Opens(ts)
  {
    OpensJoin([LPar] + ts, [RPar]);
    OpensJoin([LPar], ts);
    assert Opens([LPar]) == 1 + Opens([LPar][1..]) && Opens([RPar]) == Opens([RPar][1..]);
  }

  lemma {:induction false} OpensOne(t: Token)
    ensures Opens([t]) == if t == LPar then 1 else 0
  {
    assert [t][1..] == [];
  }

  lemma {:induction false} PairsShown(e: Expr, limit: nat)
    ensures Opens(Show(e, limit)) == Pairs(e, limit)
    decreases e, 1
  {
    hide Opens, ShowBase, ShowArgs, ShowAll, BasePairs, ArgsPairs, AllPairs;
    match e {
      case Lit(c) => OpensOne(LiteralToken(c));
      case Sym(x) => OpensOne(TSym(x));
      case Unary(op, a) =>
        OpensOne(UnaryToken(op));
        OpensJoin([UnaryToken(op)], Show(a, PRIO_UNARY));
        PairsShown(a, PRIO_UNARY);
      case Binary(op, l, r) =>
        var x, y := Show(l, Prio(op) - 1), Show(r, Prio(op));
        PairsShown(l, Prio(op) - 1);
        PairsShown(r, Prio(op));
        OpensOne(TOp(op));
        OpensJoin([TOp(op)], y);
        OpensJoin(x, [TOp(op)] + y);
        ParensOpen(Infix(e));
      case Field(obj, x) =>
        BaseShown(obj);
        NoneOpen([Dot, TSym(x)]);
        OpensJoin(ShowBase(obj), [Dot, TSym(x)]);
      case Index(obj, key) =>
        BaseShown(obj);
        PairsShown(key, 0);
        BrackOpen(Show(key, 0));
        OpensJoin(ShowBase(obj), [LBrack] + Show(key, 0) + [RBrack]);
      case Call(f, args) =>
        BaseShown(f);
        ArgsShown(args);
        OpensJoin(ShowBase(f), ShowArgs(args));
      case Method(self, m, args) =>
        BaseShown(self);
        ArgsShown(args);
        NoneOpen([Colon, TSym(m)]);
        OpensJoin([Colon, TSym(m)], ShowArgs(args));
        OpensJoin(ShowBase(self), [Colon, TSym(m)] + ShowArgs(args));
      case Array(es) =>
        AllShown(es);
        BrackOpen(ShowAll(es));
    }
  }

  lemma {:induction false} NoneOpen(ts: seq<Token>)
    requires LPar !in ts
    ensures Opens(ts) == 0
  {
    if ts != [] { NoneOpen(ts[1..]); }
  }

  lemma {:induction false} BrackOpen(ts: seq<Token>)
    ensures Opens([LBrack] + ts + [RBrack]) == Opens(ts)
  {
    hide Opens;
    OpensJoin([LBrack] + ts, [RBrack]);
    OpensJoin([LBrack], ts);
    OpensOne(LBrack);
    OpensOne(RBrack);
  }

  lemma {:induction false} BaseShown(e: Expr)
    ensures Opens(ShowBase(e)) == BasePairs(e)
    decreases e, 2
  {
    hide Opens, Show, Pairs;
    PairsShown(e, 0);
    ParensOpen(Show(e, 0));
  }

  lemma {:induction false} ArgsShown(args: Exprs)
    ensures Opens(ShowArgs(args)) == ArgsPairs(args)
    decreases args, 1
  {
    hide Opens, ShowAll, AllPairs;
    if LoneString(args) {
      OpensOne(LiteralToken(args.head.literal));
    } else {
      AllShown(args);
      ParensOpen(ShowAll(args));
    }
  }

  lemma {:induction false} AllShown(es: Exprs)
    ensures Opens(ShowAll(es)) == AllPairs(es)
    decreases es, 0
  {
    hide Show, Pairs;
    if es.More? {
      PairsShown(es.head, 0);
      AllShown(es.tail);
      OpensOne(Comma);
      OpensJoin([Comma], ShowAll(es.tail));
      OpensJoin(Show(es.head, 0), [Comma] + ShowAll(es.tail));
    }
  }

  /** Within an operator, and as what suffixes follow, an expression needs no fewer pairs, and at most one more. */
  lemma {:induction false} PairsGrow(e: Expr, low: nat, limit: nat)
    requires low <= limit || limit == PRIO_UNARY
    ensures Pairs(e, low) <= Pairs(e, limit) <= BasePairs(e) <= 1 + Pairs(e, low)
    ensures Suffixable(e) ==> Pairs(e, limit) == BasePairs(e)
  {
    hide BasePairs, ArgsPairs, AllPairs;
    BaseIs(e);
  }

  lemma {:induction false} BaseIs(e: Expr)
    ensures BasePairs(e) == Pairs(e, 0) + if Suffixable(e) then 0 else 1
  {
  }

  // ------------------------------------------------------------------
  // The parentheses that are parsed
  // ------------------------------------------------------------------

  /** What is parsed had at least as many opening parentheses as are printed, and no operator that could have been
      taken follows. */
  lemma {:induction false} ExprPays(ts: seq<Token>, limit: nat)
    requires ParseExpr(ts, limit).Ok?
    ensures var r := ParseExpr(ts, limit);
      Opens(r.rest) + Pairs(r.tree, limit) <= Opens(ts) && !Climbs(r.rest, limit)
    decreases |ts|, 7
  {
    hide ParseOperand, Climb, Opens, Pairs;
    OperandPays(ts);
    var r := ParseOperand(ts);
    var n := Pairs(r.tree, PRIO_UNARY);
    PairsGrow(r.tree, limit, PRIO_UNARY);
    if Climbs(r.rest, limit) { PairsGrow(r.tree, Prio(r.rest[0].op) - 1, PRIO_UNARY); }
    ClimbPays(r.tree, r.rest, limit, n);
  }

  lemma {:induction false} OperandPays(ts: seq<Token>)
    requires ParseOperand(ts).Ok?
    ensures var r := ParseOperand(ts); Opens(r.rest) + Pairs(r.tree, PRIO_UNARY) <= Opens(ts)
    decreases |ts|, 6
  {
    hide ParseExpr, ParseSimple, Opens;
    if UnaryOf(ts).Some? {
      ExprPays(ts[1..], PRIO_UNARY);
      OpensRest(ts, 1);
    } else {
      SimplePays(ts);
    }
  }

  /** The left operand was parsed with `n` opening parentheses, which is enough for it as an operand too. */
  lemma {:induction false} ClimbPays(l: Expr, ts: seq<Token>, limit: nat, n: nat)
    requires Climb(l, ts, limit).Ok? && Pairs(l, limit) <= n
    requires Climbs(ts, limit) ==> Pairs(l, Prio(ts[0].op) - 1) <= n
    ensures var r := Climb(l, ts, limit);
      Opens(r.rest) + Pairs(r.tree, limit) <= Opens(ts) + n && !Climbs(r.rest, limit)
    decreases |ts|, 5
  {
    hide ParseExpr, Opens;
    if Climbs(ts, limit) {
      var op, r := ts[0].op, ParseExpr(ts[1..], Prio(ts[0].op));
      ExprPays(ts[1..], Prio(op));
      OpensRest(ts, 1);
      ClimbPays(Binary(op, l, r.tree), r.rest, limit, n + Pairs(r.tree, Prio(op)));
    }
  }

  lemma {:induction false} SimplePays(ts: seq<Token>)
    requires ParseSimple(ts).Ok?
    ensures var r := ParseSimple(ts); Opens(r.rest) + Pairs(r.tree, PRIO_UNARY) <= Opens(ts)
    decreases |ts|, 4
  {
    hide ParseElems, ParsePrimary, Suffix, Opens, BasePairs, AllPairs;
    OpensRest(ts, 1);
    if LiteralOf(ts[0]).Some? {
    } else if ts[0] == LBrack {
      ElemsPay(ts[1..]);
      var rest := ParseElems(ts[1..]).rest;
      if rest != [] { OpensRest(rest, 1); }
    } else {
      PrimaryPays(ts);
      var r := ParsePrimary(ts);
      SuffixPays(r.tree, r.rest, BasePairs(r.tree));
      PairsGrow(ParseSimple(ts).tree, 0, PRIO_UNARY);
    }
  }

  lemma {:induction false} PrimaryPays(ts: seq<Token>)
    requires ParsePrimary(ts).Ok?
    ensures var r := ParsePrimary(ts); Opens(r.rest) + BasePairs(r.tree) <= Opens(ts)
    decreases |ts|, 3
  {
    hide ParseExpr, Pairs;
    OpensRest(ts, 1);
    if Sees(ts, LPar) {
      ExprPays(ts[1..], 0);
      var r := ParseExpr(ts[1..], 0);
      OpensRest(r.rest, 1);
    } else {
      SymPairs(ts[0].name);
    }
  }

  lemma {:induction false} SymPairs(x: Name)
    ensures BasePairs(Sym(x)) == 0
  {
  }

  lemma {:induction false} SuffixPays(e: Expr, ts: seq<Token>, n: nat)
    requires Suffix(e, ts).Ok? && BasePairs(e) <= n
    ensures var r := Suffix(e, ts); Opens(r.rest) + BasePairs(r.tree) <= Opens(ts) + n
    decreases |ts|, 2
  {
    hide ParseKey, ParseCallArgs, Opens, ArgsPairs;
    if SeesSuffix(ts) {
      if ts[0] == Dot {
        OpensRest(ts, 2);
        SuffixPays(Field(e, ts[1].name), ts[2..], n);
      } else if ts[0] == LBrack {
        KeyPays(ts);
        var r := ParseKey(ts);
        SuffixPays(Index(e, r.tree), r.rest, n + Pairs(r.tree, 0));
      } else if ts[0] == Colon {
        OpensRest(ts, 2);
        ArgsPay(ts[2..]);
        var r := ParseCallArgs(ts[2..]);
        SuffixPays(Method(e, ts[1].name, r.tree), r.rest, n + ArgsPairs(r.tree));
      } else {
        ArgsPay(ts);
        var r := ParseCallArgs(ts);
        SuffixPays(Call(e, r.tree), r.rest, n + ArgsPairs(r.tree));
      }
    }
  }

  lemma {:induction false} KeyPays(ts: seq<Token>)
    requires Sees(ts, LBrack) && ParseKey(ts).Ok?
    ensures var r := ParseKey(ts); Opens(r.rest) + Pairs(r.tree, 0) <= Opens(ts)
    decreases |ts|, 1
  {
    hide ParseExpr, Opens, Pairs;
    OpensRest(ts, 1);
    ExprPays(ts[1..], 0);
    OpensRest(ParseExpr(ts[1..], 0).rest, 1);
  }

  lemma {:induction false} ArgsPay(ts: seq<Token>)
    requires ParseCallArgs(ts).Ok?
    ensures var r := ParseCallArgs(ts); Opens(r.rest) + ArgsPairs(r.tree) <= Opens(ts)
    decreases |ts|, 1
  {
    hide ParseArgs, AllPairs;
    OpensRest(ts, 1);
    if Sees(ts, LPar) {
      OpensRest(ts[1..], 1);
      NoPairs();
      if !Sees(ts[1..], RPar) {
        ListPays(ts[1..]);
        OpensRest(ParseArgs(ts[1..]).rest, 1);
      } else {
        assert ts[1..][1..] == ts[2..];
      }
    }
  }

  lemma {:induction false} NoPairs()
    ensures AllPairs(Empty) == 0
  {
  }

  lemma {:induction false} ListPays(ts: seq<Token>)
    requires ParseArgs(ts).Ok?
    ensures var r := ParseArgs(ts); Opens(r.rest) + AllPairs(r.tree) <= Opens(ts)
    decreases |ts|, 8
  {
    hide ParseExpr, Opens, Pairs;
    ExprPays(ts, 0);
    var rest := ParseExpr(ts, 0).rest;
    if Sees(rest, Comma) {
      OpensRest(rest, 1);
      ListPays(rest[1..]);
    }
  }

  lemma {:induction false} ElemsPay(ts: seq<Token>)
    requires ParseElems(ts).Ok?
    ensures var r := ParseElems(ts); Opens(r.rest) + AllPairs(r.tree) <= Opens(ts)
    decreases |ts|, 8
  {
    hide ParseExpr, Opens, Pairs;
    if !Sees(ts, RBrack) {
      ExprPays(ts, 0);
      var rest := ParseExpr(ts, 0).rest;
      if Sees(rest, Comma) {
        OpensRest(rest, 1);
        ElemsPay(rest[1..]);
      }
    }
  }

  /** Tokens that are parsed as an expression have at least the parentheses that are printed for it, so that none of
      these can be left out. */
  lemma {:induction false} FewestParens(ts: seq<Token>, limit: nat)
    requires ParseExpr(ts, limit).Ok?
    ensures var r := ParseExpr(ts, limit); Opens(Show(r.tree, limit)) + Opens(r.rest) <= Opens(ts)
  {
    hide ParseExpr, Opens, Show, Pairs;
    ExprPays(ts, limit);
    PairsShown(ParseExpr(ts, limit).tree, limit);
  }
}
