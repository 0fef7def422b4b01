/** The one-pass compiler: it emits instructions while it parses, leaves placeholders for jumps forwards, and
    goes back to fill them in. The places of breaks and exits go into tables of `TABLE` entries that it does not
    check; `over` tells that an entry was written past the end of one. */
module ScriptCompile {
  import opened Basics
  import opened ScriptSyntax
  import opened ScriptParse
  import opened Runtime
  import opened VmCode
  import opened VmSize
  import opened VmChains
  import opened VmLimits
  import opened VmLists
  import opened ScriptRules

  /** Failure leaves the compiler at once, from any depth. */
  datatype Status = Okay | Failed(fault: Fault) {
    predicate IsFailure() {
      Failed?
    }

    function PropagateFailure(): Status
      requires IsFailure()
    {
      this
    }
  }

  class Parser {
    const tokens: seq<Token>
    var next: nat
    var inst: Code
    var kval: seq<Value>
    var locals: seq<Name>
    var fors: nat
    var loop: Option<LoopInfo>
    var over: bool

    ghost predicate Valid()
      reads this`next
    {
      next <= |tokens|
    }

    /** The tokens from the one looked at. */
    function Rest(): seq<Token>
      requires Valid()
      reads this`next
    {
      tokens[next..]
    }

    function Sc(): Scope
      reads this`locals, this`fors
    {
      Scope(locals, fors)
    }

    constructor (tokens: seq<Token>, params: seq<Name>, fors: nat)
      ensures Valid() && Rest() == tokens && inst == [] && kval == [] && Sc() == Scope(params, fors) && loop == None
      ensures !over
    {
      this.tokens := tokens;
      next, inst, kval, locals, this.fors, loop, over := 0, [], [], params, fors, None, false;
    }

    // ------------------------------------------------------------------
    // Scanning
    // ------------------------------------------------------------------

    method Next()
      requires Valid()
      modifies this`next
      ensures Valid() && Rest() == Skip(old(Rest())) && next >= old(next)
    {
      if next < |tokens| { next := next + 1; }
    }

    /** Takes the next token if it is `t`. */
    method Test(t: Token) returns (seen: bool)
      requires Valid()
      modifies this`next
      ensures Valid() && next >= old(next) && seen == Sees(old(Rest()), t)
      ensures Rest() == if seen then old(Rest())[1..] else old(Rest())
    {
      seen := Sees(Rest(), t);
      if seen { next := next + 1; }
    }

    method MatchToken(t: Token) returns (s: Status)
      requires Valid()
      modifies this`next
      ensures Valid() && next >= old(next)
      ensures if Sees(old(Rest()), t) then s == Okay && Rest() == old(Rest())[1..] else s == Failed(Reject)
    {
      if !Sees(Rest(), t) { return Failed(Reject); }
      next := next + 1;
      return Okay;
    }

    method Symbol() returns (s: Status, name: Name)
      requires Valid()
      modifies this`next
      ensures Valid() && next >= old(next)
      ensures if SeesSym(old(Rest())) then s == Okay && name == old(Rest())[0].name && Rest() == old(Rest())[1..]
              else s == Failed(Reject)
    {
      if !SeesSym(Rest()) { return Failed(Reject), ""; }
      name := Rest()[0].name;
      next := next + 1;
      return Okay, name;
    }

    // ------------------------------------------------------------------
    // Tables
    // ------------------------------------------------------------------

    /** The last index of an equal integer, or a new constant at the end. */
    method IntConstant(n: int) returns (i: nat)
      modifies this`kval
      ensures i == Find(old(kval), Int(n)) && kval == Added(old(kval), Int(n))
    {
      i := |kval|;
      assert kval[..i] == kval;
      while i > 0
        invariant i <= |kval| && kval == old(kval)
        invariant Find(kval, Int(n)) == (if Find(kval[..i], Int(n)) == i then |kval| else Find(kval[..i], Int(n)))
      {
        assert kval[..i][..i - 1] == kval[..i - 1];
        i := i - 1;
        if kval[i] == Int(n) { return; }
      }
      kval := kval + [Int(n)];
      return |kval| - 1;
    }

    /** The same for a string of length `k`; no constant has the length -1 that is given with a name, so that a
        name is always new. */
    method StringConstant(z: string, k: int) returns (i: nat)
      requires k == |z| || k == -1
      modifies this`kval
      ensures if k == -1 then i == |old(kval)| && kval == old(kval) + [Str(z)]
              else i == Find(old(kval), Str(z)) && kval == Added(old(kval), Str(z))
    {
      i := |kval|;
      assert kval[..i] == kval;
      while i > 0
        invariant i <= |kval| && kval == old(kval)
        invariant k != -1 ==>
          Find(kval, Str(z)) == (if Find(kval[..i], Str(z)) == i then |kval| else Find(kval[..i], Str(z)))
      {
        assert kval[..i][..i - 1] == kval[..i - 1];
        i := i - 1;
        if kval[i].Str? && |kval[i].z| == k && kval[i].z == z { return; }
      }
      kval := kval + [Str(z)];
      return |kval| - 1;
    }

    /** The index of a local, or -1. */
    method FindLocal(x: Name) returns (i: int)
      ensures i == if x in locals then Slot(locals, x) else -1
    {
      i := 0;
      while i < |locals|
        invariant 0 <= i <= |locals| && forall j | 0 <= j < i :: locals[j] != x
      {
        if locals[i] == x {
          SlotAt(locals, x, i);
          return;
        }
        i := i + 1;
      }
      return -1;
    }

    /** The index of a new local, or -1 if there is one of that name. */
    method AddLocal(x: Name) returns (i: int)
      modifies this`locals
      ensures if x in old(locals) then i == -1 && locals == old(locals)
              else i == |old(locals)| && locals == old(locals) + [x]
    {
      var found := FindLocal(x);
      if found >= 0 { return -1; }
      locals := locals + [x];
      return |locals| - 1;
    }

    // ------------------------------------------------------------------
    // Emitting
    // ------------------------------------------------------------------

    method Emit(i: Inst)
      modifies this`inst
      ensures inst == old(inst) + [i]
    {
      inst := inst + [i];
    }

    /** A placeholder for a jump. */
    method Hold() returns (i: nat)
      modifies this`inst
      ensures i == |old(inst)| && inst == old(inst) + [IPanic]
    {
      i := |inst|;
      Emit(IPanic);
    }

    /** Fills a placeholder with a jump to the end of the code. */
    method Hack(i: nat, kind: Kind)
      requires i < |inst|
      modifies this`inst
      ensures inst == old(inst)[i := Jumping(kind, Ahead(|old(inst)| - i))]
    {
      inst := inst[i := Jumping(kind, Ahead(|inst| - i))];
    }

    method EmitBack(target: nat)
      requires target <= |inst|
      modifies this`inst
      ensures inst == old(inst) + [IJmp(Back(|old(inst)| - target))]
    {
      Emit(IJmp(Back(|inst| - target)));
    }

    method EmitPush(x: Name)
      modifies this`inst, this`kval
      ensures inst == old(inst) + [SymCode(x, old(kval), locals)] && kval == SymK(x, old(kval), locals)
    {
      var i := FindLocal(x);
      if i < 0 {
        i := StringConstant(x, -1);
        Emit(IPushGlobal(U16(i)));
      } else {
        Emit(IPushLocal(U16(i)));
      }
    }

    method EmitStore(x: Name)
      modifies this`inst, this`kval
      ensures inst == old(inst) + [StoreCode(x, old(kval), locals)] && kval == SymK(x, old(kval), locals)
    {
      var i := FindLocal(x);
      if i < 0 {
        i := StringConstant(x, -1);
        Emit(IStoreGlobal(U16(i)));
      } else {
        Emit(IStoreLocal(U16(i)));
      }
    }

    method EmitLiteral(c: Literal)
      modifies this`inst, this`kval
      ensures inst == old(inst) + LitCode(c, old(kval)) && kval == LitK(c, old(kval))
    {
      match c {
        case NilLit => Emit(IPushNil);
        case BoolLit(b) => Emit(IPushBool(b));
        case IntLit(n) =>
          var i := IntConstant(n);
          Emit(IPushConst(U16(i)));
        case StrLit(z) =>
          var i := StringConstant(z, |z|);
          Emit(IPushConst(U16(i)));
      }
    }
  
    // ------------------------------------------------------------------
    // Expressions
    // ------------------------------------------------------------------

    /** The parser stands behind an expression and has emitted its code, or has failed as the grammar does. */
    ghost predicate DidExpr(r: Parsed<Expr>, s: Status, inst0: Code, k0: seq<Value>)
      reads this`next, this`inst, this`kval, this`locals
    {
      Valid() &&
      match r
      case Bad(f) => s == Failed(f)
      case Ok(e, rest) =>
        s == Okay && Rest() == rest && inst == inst0 + ExprCode(e, k0, locals) && kval == ExprK(e, k0, locals)
    }

    ghost predicate DidExprs(r: Parsed<Exprs>, s: Status, inst0: Code, k0: seq<Value>)
      reads this`next, this`inst, this`kval, this`locals
    {
      Valid() &&
      match r
      case Bad(f) => s == Failed(f)
      case Ok(es, rest) =>
        s == Okay && Rest() == rest && inst == inst0 + ExprsCode(es, k0, locals) && kval == ExprsK(es, k0, locals)
    }

    /** An expression whose operators bind tighter than `limit`; `op` is the operator that follows. */
    method Expr(limit: nat) returns (s: Status, op: Option<BinaryOp>)
      requires Valid()
      modifies this`next, this`inst, this`kval
      ensures DidExpr(ParseExpr(old(Rest()), limit), s, old(inst), old(kval))
      ensures s == Okay ==> op == BinaryOf(Rest())
      decreases |Rest()|, 7
    {
      hide Valid, Rest, ParseExpr, ParseOperand, Climb, ExprCode, ExprK, BinaryCode, LogicHole;
      ghost var ts, code, k := Rest(), inst, kval;
      ExprParts(ts, limit);
      op := None;
      :- Operand();
      ghost var all, l := ParseExpr(ts, limit), ParseOperand(ts).tree;
      op := BinaryOf(Rest());
      while op.Some? && Prio(op.value) > limit
        invariant Valid() && all == Climb(l, Rest(), limit) && op == BinaryOf(Rest())
        invariant inst == code + ExprCode(l, k, locals) && kval == ExprK(l, k, locals)
        invariant |Rest()| < |ts|
        decreases |Rest()|
      {
        hide Valid, Rest, ParseExpr, ParseOperand, Climb, ExprCode, ExprK, BinaryCode, LogicHole;
        ghost var rest, x := Rest(), inst;
        ClimbParts(l, rest, limit);
        var op1 := op.value;
        Next();
        var i := HoldLogic(op1);
        var next_op;
        next_op :- Expr(Prio(op1));
        ghost var r := ParseExpr(rest[1..], Prio(op1)).tree;
        EmitBinary(op1, i, code, ExprCode(l, k, locals), ExprCode(r, ExprK(l, k, locals), locals));
        BinaryShape(op1, l, r, k, locals);
        l := Binary(op1, l, r);
        op := next_op;
      }
      ClimbParts(l, Rest(), limit);
      return Okay, op;
    }

    method Operand() returns (s: Status)
      requires Valid()
      modifies this`next, this`inst, this`kval
      ensures DidExpr(ParseOperand(old(Rest())), s, old(inst), old(kval))
      decreases |Rest()|, 6
    {
      hide Valid, Rest, ParseExpr, ParseOperand, ParseSimple, ExprCode, ExprK;
      OperandParts(Rest());
      var op := UnaryOf(Rest());
      if op == None {
        s := Simple();
      } else {
        ghost var ts := Rest();
        Next();
        var after :- Expr(PRIO_UNARY);
        Emit(IApply(op.value));
        UnaryShape(op.value, ParseExpr(ts[1..], PRIO_UNARY).tree, old(kval), locals);
        return Okay;
      }
    }

    method Simple() returns (s: Status)
      requires Valid()
      modifies this`next, this`inst, this`kval
      ensures DidExpr(ParseSimple(old(Rest())), s, old(inst), old(kval))
      decreases |Rest()|, 5
    {
      hide Valid, Rest, ParseSimple, ParsePrimary, Suffix, ExprCode, ExprK, LiteralOf, LitCode, LitK;
      SimpleParts(Rest());
      if Rest() == [] {
        s := Suffixed();
        return;
      }
      var t := Rest()[0];
      if t == TStr(None) {
        return Failed(Reject);
      } else if LiteralOf(t).Some? {
        EmitLiteral(LiteralOf(t).value);
        LitShape(LiteralOf(t).value, old(kval), locals);
        Next();
        return Okay;
      } else if t == LBrace || t == TSkls || t == TFunc {
        return Failed(Outside);
      } else if t == LBrack {
        :- ArrayLiteral();
        Next();
        return Okay;
      } else {
        s := Suffixed();
      }
    }

    /** An array literal up to the token that closes it. */
    method ArrayLiteral() returns (s: Status)
      requires Valid()
      modifies this`next, this`inst, this`kval
      ensures Valid() &&
        if !Sees(old(Rest()), LBrack) then s == Failed(Reject)
        else
          match ParseElems(old(Rest())[1..])
          case Bad(f) => s == Failed(f)
          case Ok(es, rest) =>
            s == Okay && Rest() == rest && inst == old(inst) + ExprCode(Array(es), old(kval), locals) &&
            kval == ExprK(Array(es), old(kval), locals)
      decreases |Rest()|, 4
    {
      hide Valid, Rest, ParseElems, ExprCode, ExprsCode, ExprK, ExprsK, Snoc, Onto;
      ghost var code, k := inst, kval;
      :- MatchToken(LBrack);
      ghost var ts := Rest();
      ghost var es := Empty;
      EmptyShape(k, locals);
      OntoEmpty(ParseElems(ts));
      assert inst == code + [];
      var count, more := 0, true;
      while more
        invariant Valid() && count == Count(es)
        invariant ParseElems(ts) == if more then Onto(es, ParseElems(Rest())) else Ok(es, Rest())
        invariant inst == code + ExprsCode(es, k, locals) && kval == ExprsK(es, k, locals)
        invariant |Rest()| <= |ts|
        decreases more, |Rest()|
      {
        hide Valid, Rest, ParseElems, ExprCode, ExprsCode, ExprK, ExprsK, Snoc, Onto;
        ghost var rest := Rest();
        ElemsParts(es, rest);
        if Sees(Rest(), RBrack) { break; }
        var after :- Expr(0);
        ghost var e := ParseExpr(rest, 0).tree;
        SnocShape(es, e, k, locals);
        Assoc(code, ExprsCode(es, k, locals), ExprCode(e, ExprsK(es, k, locals), locals));
        es := Snoc(es, e);
        count := count + 1;
        more := Test(Comma);
      }
      Emit(INewArray(U16(count)));
      ArrayShape(es, k, locals);
      return Okay;
    }

    /** One argument or more. */
    method Args() returns (s: Status, nargs: nat)
      requires Valid()
      modifies this`next, this`inst, this`kval
      ensures DidExprs(ParseArgs(old(Rest())), s, old(inst), old(kval))
      ensures s == Okay ==> nargs == Count(ParseArgs(old(Rest())).tree)
      decreases |Rest()|, 8
    {
      hide Valid, Rest, ParseArgs, ExprCode, ExprsCode, ExprK, ExprsK, Snoc, Onto;
      ghost var ts, code, k := Rest(), inst, kval;
      EmptyShape(k, locals);
      OntoEmpty(ParseArgs(ts));
      ArgsParts(Empty, ts);
      nargs := 1;
      var after :- Expr(0);
      ghost var es := Snoc(Empty, ParseExpr(ts, 0).tree);
      SnocShape(Empty, ParseExpr(ts, 0).tree, k, locals);
      assert code + ([] + ExprCode(ParseExpr(ts, 0).tree, k, locals)) == inst;
      var more := Test(Comma);
      while more
        invariant Valid() && nargs == Count(es)
        invariant ParseArgs(ts) == if more then Onto(es, ParseArgs(Rest())) else Ok(es, Rest())
        invariant inst == code + ExprsCode(es, k, locals) && kval == ExprsK(es, k, locals)
        invariant |Rest()| < |ts|
        decreases |Rest()|
      {
        hide Valid, Rest, ParseArgs, ExprCode, ExprsCode, ExprK, ExprsK, Snoc, Onto;
        ghost var rest := Rest();
        ArgsParts(es, rest);
        after :- Expr(0);
        ghost var e := ParseExpr(rest, 0).tree;
        SnocShape(es, e, k, locals);
        Assoc(code, ExprsCode(es, k, locals), ExprCode(e, ExprsK(es, k, locals), locals));
        es := Snoc(es, e);
        nargs := nargs + 1;
        more := Test(Comma);
      }
      return Okay, nargs;
    }

    /** The arguments of a call and the call, which keeps `adjust` values. */
    method CallArgs(adjust: nat, method_: Option<Name>) returns (s: Status)
      requires Valid()
      modifies this`next, this`inst, this`kval
      ensures Valid() &&
        match ParseCallArgs(old(Rest()))
        case Bad(f) => s == Failed(f)
        case Ok(args, rest) =>
          s == Okay && Rest() == rest &&
          inst == old(inst) + ExprsCode(args, old(kval), locals) +
            [CallInst(adjust, method_, args, old(kval), locals)] &&
          kval == CallK(method_, args, old(kval), locals)
      decreases |Rest()|, 2
    {
      hide Valid, Rest, ParseCallArgs, ExprsCode, ExprsK;
      var nargs :- ArgList();
      match method_ {
        case None => Emit(ICall(adjust, U8(nargs)));
        case Some(m) =>
          var i := StringConstant(m, -1);
          Emit(ISelfCall(adjust, U8(nargs), U12(i)));
      }
      return Okay;
    }

    /** A list in parentheses, or one string. */
    method ArgList() returns (s: Status, nargs: nat)
      requires Valid()
      modifies this`next, this`inst, this`kval
      ensures DidExprs(ParseCallArgs(old(Rest())), s, old(inst), old(kval))
      ensures s == Okay ==> nargs == Count(ParseCallArgs(old(Rest())).tree)
      decreases |Rest()|, 1
    {
      hide Valid, Rest, ParseArgs, ParseCallArgs, ExprsCode, ExprsK, LitCode, LitK;
      ghost var ts, code, k := Rest(), inst, kval;
      CallArgsParts(ts);
      EmptyShape(k, locals);
      nargs := 0;
      if Sees(Rest(), LPar) {
        Next();
        var none := Test(RPar);
        if !none {
          nargs :- Args();
          :- MatchToken(RPar);
        } else {
          assert inst == code + [];
        }
      } else if Rest() != [] && Rest()[0].TStr? {
        if Rest()[0].text == None { return Failed(Reject), 0; }
        EmitLiteral(StrLit(Rest()[0].text.value));
        OneArgShape(ts[0].text.value, k, locals);
        Next();
        nargs := 1;
      } else {
        return Failed(Reject), 0;
      }
      return Okay, nargs;
    }

    method Primary() returns (s: Status)
      requires Valid()
      modifies this`next, this`inst, this`kval
      ensures DidExpr(ParsePrimary(old(Rest())), s, old(inst), old(kval))
      decreases |Rest()|, 2
    {
      hide Valid, Rest, ParsePrimary, ParseExpr, ExprCode, ExprK, SymCode, SymK, Slot;
      PrimaryParts(Rest());
      if Sees(Rest(), LPar) {
        Next();
        var after :- Expr(0);
        s := MatchToken(RPar);
      } else if SeesSym(Rest()) {
        SymShape(Rest()[0].name, kval, locals);
        var found, x := Symbol();
        EmitPush(x);
        return Okay;
      } else {
        return Failed(Reject);
      }
    }

    method Suffixed() returns (s: Status)
      requires Valid()
      modifies this`next, this`inst, this`kval
      ensures Valid() &&
        match ParsePrimary(old(Rest()))
        case Bad(f) => s == Failed(f)
        case Ok(e, rest) => DidExpr(Suffix(e, rest), s, old(inst), old(kval))
      decreases |Rest()|, 3
    {
      hide Valid, Rest, ParsePrimary, Suffix, ParseKey, ParseCallArgs, ExprCode, ExprK, ExprsCode, ExprsK, CallInst,
        CallK;
      ghost var code, k := inst, kval;
      ghost var first := ParsePrimary(Rest());
      :- Primary();
      ghost var all, e := Suffix(first.tree, first.rest), first.tree;
      while SeesSuffix(Rest())
        invariant Valid() && all == Suffix(e, Rest())
        invariant inst == code + ExprCode(e, k, locals) && kval == ExprK(e, k, locals)
        invariant |Rest()| <= |first.rest|
        decreases |Rest()|
      {
        hide Valid, Rest, ParsePrimary, Suffix, ExprCode, ExprK;
        ghost var next_e;
        next_e :- OneSuffix(e, code, k);
        e := next_e;
      }
      SuffixParts(e, Rest());
      return Okay;
    }

    /** A field, an index, or a call of what was computed by the code of `e`. */
    method OneSuffix(ghost e: Expr, ghost code: Code, ghost k: seq<Value>) returns (s: Status, ghost e1: Expr)
      requires Valid() && SeesSuffix(Rest())
      requires inst == code + ExprCode(e, k, locals) && kval == ExprK(e, k, locals)
      modifies this`next, this`inst, this`kval
      ensures Valid()
      ensures s.Failed? ==> Suffix(e, old(Rest())) == Bad(s.fault)
      ensures s == Okay ==>
        |Rest()| < |old(Rest())| && Suffix(e, old(Rest())) == Suffix(e1, Rest()) &&
        inst == code + ExprCode(e1, k, locals) && kval == ExprK(e1, k, locals)
      decreases |Rest()|, 4
    {
      hide Valid, Rest, ParsePrimary, Suffix, ParseKey, ExprCode, ExprK, CallCode, CallOf;
      ghost var rest := Rest();
      SuffixParts(e, rest);
      e1 := e;
      if Sees(Rest(), Dot) {
        Next();
        var x :- Symbol();
        EmitGet(x);
        FieldShape(e, x, k, locals);
        e1 := Field(e, x);
      } else if Sees(Rest(), LBrack) {
        :- Key();
        Emit(IGetStack);
        ghost var key := ParseKey(rest).tree;
        IndexShape(e, key, k, locals);
        e1 := Index(e, key);
      } else {
        SuffixCallParts(e, rest);
        :- CallTail(1, e, code, k);
        e1 := CallOf(e, rest).tree;
        CallExprCode(e1, k, locals);
      }
      return Okay, e1;
    }

    /** A call, or a call of a method, of what was computed by the code of `e`; it keeps `adjust` values. */
    method CallTail(adjust: nat, ghost e: Expr, ghost code: Code, ghost k: seq<Value>) returns (s: Status)
      requires Valid() && SeesSuffix(Rest()) && !Sees(Rest(), Dot) && !Sees(Rest(), LBrack)
      requires inst == code + ExprCode(e, k, locals) && kval == ExprK(e, k, locals)
      modifies this`next, this`inst, this`kval
      ensures Valid()
      ensures match CallOf(e, old(Rest()))
              case Bad(f) => s == Failed(f)
              case Ok(c, rest) =>
                s == Okay && Rest() == rest && inst == code + CallCode(c, k, locals, adjust) &&
                  kval == ExprK(c, k, locals)
      decreases |Rest()|, 3
    {
      hide Valid, Rest, ParseCallArgs, ExprCode, ExprsCode, ExprK, ExprsK, CallInst, CallK, CallCode, SymK, Find;
      ghost var rest, x, k1 := Rest(), ExprCode(e, k, locals), kval;
      var method_ := None;
      if Sees(Rest(), Colon) {
        Next();
        var m :- Symbol();
        method_ := Some(m);
      }
      ghost var ts := Rest();
      :- CallArgs(adjust, method_);
      ghost var args := ParseCallArgs(ts).tree;
      CallShape(e, method_, args, adjust, k, locals);
      Assoc4(code, x, ExprsCode(args, k1, locals), [CallInst(adjust, method_, args, k1, locals)]);
      return Okay;
    }

    method EmitGet(x: Name)
      modifies this`inst, this`kval
      ensures inst == old(inst) + [IGetConst(U16(|old(kval)|))] && kval == old(kval) + [Str(x)]
    {
      var i := StringConstant(x, -1);
      Emit(IGetConst(U16(i)));
    }

    /** `[key]`. */
    method Key() returns (s: Status)
      requires Valid() && Sees(Rest(), LBrack)
      modifies this`next, this`inst, this`kval
      ensures DidExpr(ParseKey(old(Rest())), s, old(inst), old(kval))
      decreases |Rest()|, 1
    {
      hide Valid, Rest, ParseExpr, ExprCode, ExprK;
      Next();
      var after :- Expr(0);
      s := MatchToken(RBrack);
    }

    /** The place of the jump of `and` and `or`. */
    method HoldLogic(op: BinaryOp) returns (i: nat)
      modifies this`inst
      ensures IsLogic(op) ==> i == |old(inst)|
      ensures inst == old(inst) + LogicHole(op)
    {
      i := 0;
      if op == And || op == Or { i := Hold(); }
    }

    /** The operator itself, once the code `x` and `y` of both operands is there. */
    method EmitBinary(op: BinaryOp, i: nat, ghost code: Code, ghost x: Code, ghost y: Code)
      requires inst == code + x + LogicHole(op) + y && (IsLogic(op) ==> i == |code + x|)
      modifies this`inst
      ensures inst == code + BinaryCode(op, x, y)
    {
      hide Valid, Rest, Find, Slot;
      if IsLogic(op) {
        UpdateMiddle(code + x, [IPanic], y, 0, Jumping(if op == And then JNT else JNN, Ahead(|y| + 1)));
      }
      Assoc4(code, x, y, [IOperate(op)]);
      Assoc4(code, x, [Jumping(if op == And then JNT else JNN, Ahead(|y| + 1))], y);
      if op == And {
        Hack(i, JNT);
      } else if op == Or {
        Hack(i, JNN);
      } else {
        Emit(IOperate(op));
      }
    }
  
    // ------------------------------------------------------------------
    // Expression statements
    // ------------------------------------------------------------------

    /** Reads the target so far, because more follows. */
    method LvalPartial(desc: Desc)
      modifies this`inst, this`kval
      ensures inst == old(inst) + PartialCode(desc, old(kval), locals) && kval == PartialK(desc, old(kval), locals)
    {
      match desc {
        case VSymbol(x) => EmitPush(x);
        case VIndex => Emit(IGetStack);
        case VDot(x) => EmitGet(x);
        case VCall => assert inst + [] == inst;
      }
    }

    /** Stores the value on top into the target. */
    method LvalFinish(desc: Desc) returns (s: Status)
      modifies this`inst, this`kval
      ensures if desc == VCall then s == Failed(Reject)
              else s == Okay && inst == old(inst) + [FinishInst(desc, old(kval), locals)] &&
                   kval == FinishK(desc, old(kval), locals)
    {
      match desc {
        case VSymbol(x) => EmitStore(x);
        case VIndex => Emit(ISetStack);
        case VDot(x) =>
          var i := StringConstant(x, -1);
          Emit(ISetConst(U16(i)));
        case VCall => return Failed(Reject);
      }
      return Okay;
    }

    /** The parser stands behind what may be assigned to, all but its last part read, or behind a call. */
    ghost predicate DidLval(r: Parsed<Lval>, s: Status, desc: Desc, inst0: Code, k0: seq<Value>)
      requires r.Ok? && r.tree.Called? ==> IsCall(r.tree.call)
      reads this`next, this`inst, this`kval, this`locals
    {
      Valid() &&
      match r
      case Bad(f) => s == Failed(f)
      case Ok(lval, rest) =>
        s == Okay && Rest() == rest &&
        match lval
        case Place(t) =>
          desc == DescOf(t) && inst == inst0 + TargetCode(t, k0, locals) && kval == TargetK(t, k0, locals)
        case Called(e) =>
          desc == VCall && inst == inst0 + CallCode(e, k0, locals, 0) && kval == ExprK(e, k0, locals)
    }

    method Lval() returns (s: Status, desc: Desc)
      requires Valid()
      modifies this`next, this`inst, this`kval
      ensures DidLval(ParseLval(old(Rest())), s, desc, old(inst), old(kval))
    {
      hide Valid, Rest, ParseTarget, TargetCode, TargetK, CallCode, ExprK;
      ghost var ts, code, k := Rest(), inst, kval;
      desc := VCall;
      var x :- Symbol();
      desc := VSymbol(x);
      ghost var t := ToSym(x);
      ToSymShape(x, k, locals);
      assert code + [] == code;
      ghost var all := ParseTarget(t, Rest());
      while SeesSuffix(Rest())
        invariant Valid() && all == ParseTarget(t, Rest()) && desc == DescOf(t)
        invariant inst == code + TargetCode(t, k, locals) && kval == TargetK(t, k, locals)
        decreases |Rest()|
      {
        hide Valid, Rest, ParseTarget, TargetCode, TargetK, CallCode, ExprK;
        if Sees(Rest(), Dot) || Sees(Rest(), LBrack) {
          ghost var t1;
          desc, t1 :- OneTarget(desc, t, code, k);
          t := t1;
        } else {
          s := TargetCall(desc, t, code, k);
          return s, VCall;
        }
      }
      TargetParts(t, Rest());
      return Okay, desc;
    }

    /** A field or an index of the target so far. */
    method OneTarget(desc: Desc, ghost t: Target, ghost code: Code, ghost k: seq<Value>)
      returns (s: Status, desc1: Desc, ghost t1: Target)
      requires Valid() && (Sees(Rest(), Dot) || Sees(Rest(), LBrack)) && desc == DescOf(t)
      requires inst == code + TargetCode(t, k, locals) && kval == TargetK(t, k, locals)
      modifies this`next, this`inst, this`kval
      ensures Valid()
      ensures s.Failed? ==> ParseTarget(t, old(Rest())) == Bad(s.fault)
      ensures s == Okay ==>
        |Rest()| < |old(Rest())| && ParseTarget(t, old(Rest())) == ParseTarget(t1, Rest()) && desc1 == DescOf(t1) &&
        inst == code + TargetCode(t1, k, locals) && kval == TargetK(t1, k, locals)
    {
      hide Valid, Rest, ParseTarget, ParseKey, TargetCode, TargetK, ExprCode, ExprK, PartialCode, PartialK;
      ghost var rest := Rest();
      TargetParts(t, rest);
      ReadShape(t, k, locals);
      desc1, t1 := desc, t;
      LvalPartial(desc);
      Assoc(code, TargetCode(t, k, locals), PartialCode(desc, TargetK(t, k, locals), locals));
      if Sees(Rest(), Dot) {
        Next();
        var x :- Symbol();
        ToFieldTarget(Read(t), x, k, locals);
        return Okay, VDot(x), ToField(Read(t), x);
      } else {
        :- Key();
        ghost var key := ParseKey(rest).tree;
        ToIndexTarget(Read(t), key, k, locals);
        return Okay, VIndex, ToIndex(Read(t), key);
      }
    }

    /** A call of the target so far, whose values are dropped. */
    method TargetCall(desc: Desc, ghost t: Target, ghost code: Code, ghost k: seq<Value>) returns (s: Status)
      requires Valid() && SeesSuffix(Rest()) && !Sees(Rest(), Dot) && !Sees(Rest(), LBrack) && desc == DescOf(t)
      requires inst == code + TargetCode(t, k, locals) && kval == TargetK(t, k, locals)
      modifies this`next, this`inst, this`kval
      ensures DidLval(ParseTarget(t, old(Rest())), s, VCall, code, k)
    {
      hide Valid, Rest, ParseTarget, TargetCode, TargetK, ExprCode, ExprK, PartialCode, PartialK, CallCode, CallOf;
      ghost var rest := Rest();
      TargetCallParts(t, rest);
      ReadShape(t, k, locals);
      LvalPartial(desc);
      Assoc(code, TargetCode(t, k, locals), PartialCode(desc, TargetK(t, k, locals), locals));
      :- CallTail(0, Read(t), code, k);
      if SeesSuffix(Rest()) { return Failed(Outside); }
      return Okay;
    }

    // ------------------------------------------------------------------
    // Statements
    // ------------------------------------------------------------------

    /** The rounds of the loop around the next instruction began before it, and if it has more breaks than its
        table has entries, one was written past the end. */
    ghost predicate LoopOk()
      reads this`loop, this`inst, this`over
    {
      (loop.Some? ==> loop.value.retry <= |inst|) && (Spilt(loop) ==> over)
    }

    /** The parser stands behind a statement and has emitted its code, with holes for its breaks, or has failed. An
        entry was written past the end of a table exactly if that happened before or the statement or the loop
        around it needs more entries than there are. */
    ghost predicate DidStmt(r: Parsed<Stmt>, s: Status, inst0: Code, k0: seq<Value>, sc0: Scope,
        loop0: Option<LoopInfo>, over0: bool)
      reads this
    {
      Valid() &&
      match r
      case Bad(f) => s == Failed(f)
      case Ok(t, rest) =>
        var l := Around(loop0);
        s == Okay && Rest() == rest && inst == inst0 + StmtCode(t, k0, sc0, |inst0|, l) && kval == StmtK(t, k0, sc0) &&
        Sc() == StmtScope(t, sc0) && loop == WithBreaks(loop0, StmtBreaks(t, k0, sc0, |inst0|, l)) &&
        over == (over0 || !StmtRoomy(t) || Spilt(loop))
    }

    ghost predicate DidBlock(r: Parsed<Block>, s: Status, inst0: Code, k0: seq<Value>, sc0: Scope,
        loop0: Option<LoopInfo>, over0: bool)
      reads this
    {
      Valid() &&
      match r
      case Bad(f) => s == Failed(f)
      case Ok(b, rest) =>
        var l := Around(loop0);
        s == Okay && Rest() == rest && inst == inst0 + BlockCode(b, k0, sc0, |inst0|, l) &&
          kval == BlockK(b, k0, sc0) &&
        Sc() == BlockScope(b, sc0) && loop == WithBreaks(loop0, BlockBreaks(b, k0, sc0, |inst0|, l)) &&
        over == (over0 || !BlockRoomy(b) || Spilt(loop))
    }

    /** Nothing changed but the code and the constants. */
    method ExprStat() returns (s: Status)
      requires Valid() && LoopOk()
      modifies this`next, this`inst, this`kval
      ensures DidStmt(ParseExprStmt(old(Rest())), s, old(inst), old(kval), old(Sc()), old(loop), old(over))
    {
      hide Valid, Rest, ParseLval, ParseExpr, TargetCode, TargetK, AssignCode, AssignK, CallCode, ExprCode, ExprK,
        FinishInst, FinishK;
      ghost var ts, code, k := Rest(), inst, kval;
      ExprStmtParts(ts);
      var desc :- Lval();
      ghost var lval := ParseLval(ts).tree;
      var assigns := Test(Assigns);
      if assigns {
        ghost var rest := Rest();
        var after :- Expr(0);
        :- LvalFinish(desc);
        ghost var t, e := lval.target, ParseExpr(rest, 0).tree;
        AssignShape(t, e, k, Sc(), |code|, Around(loop));
        Assoc(code, TargetCode(t, k, locals), ExprCode(e, TargetK(t, k, locals), locals));
      } else {
        if desc != VCall { return Failed(Reject); }
        DoShape(lval.call, k, Sc(), |code|, Around(loop));
      }
      NoBreaks(loop);
      return Okay;
    }
  
    // ------------------------------------------------------------------
    // Declarations
    // ------------------------------------------------------------------

    /** One declared name, and its value if it is given one. */
    method Declaration() returns (s: Status)
      requires Valid()
      modifies this`next, this`inst, this`kval, this`locals
      ensures Valid() &&
        if !SeesSym(old(Rest())) || old(Rest())[0].name in old(locals) then s == Failed(Reject)
        else
          match ParseInit(old(Rest())[1..])
          case Bad(f) => s == Failed(f)
          case Ok(init, rest) =>
            var x := old(Rest())[0].name;
            s == Okay && Rest() == rest && locals == old(locals) + [x] &&
            inst == old(inst) + InitCode(x, init, old(kval), old(locals)) &&
              kval == InitK(x, init, old(kval), old(locals))
    {
      hide Valid, Rest, ParseExpr, ExprCode, ExprK;
      var x :- Symbol();
      var i := AddLocal(x);
      if i < 0 { return Failed(Reject); }
      if !Sees(Rest(), Assigns) {
        assert inst + [] == inst;
        return Okay;
      }
      Next();
      var after :- Expr(0);
      Emit(IStoreLocal(U16(i)));
      return Okay;
    }

    /** What follows `var`. */
    method LocalStat() returns (s: Status)
      requires Valid()
      modifies this`next, this`inst, this`kval, this`locals
      ensures Valid() &&
        match ParseDecls(old(Rest()), old(locals))
        case Bad(f) => s == Failed(f)
        case Ok(ds, rest) =>
          s == Okay && Rest() == rest && locals == DeclsLocals(ds, old(locals)) &&
          inst == old(inst) + DeclsCode(ds, old(kval), old(locals)) && kval == DeclsK(ds, old(kval), old(locals))
    {
      hide Valid, Rest, ParseDecls, ParseInit, DeclsCode, DeclsK, DeclsLocals, InitCode, InitK, DeclSnoc, OntoDecls;
      ghost var all, code, k, l := ParseDecls(Rest(), locals), inst, kval, locals;
      ghost var ds := NoDecl;
      NoDeclShape(k, l);
      OntoNoDecl(all);
      assert code + [] == code;
      var more := true;
      while more
        invariant Valid() && locals == DeclsLocals(ds, l)
        invariant all == if more then OntoDecls(ds, ParseDecls(Rest(), locals)) else Ok(ds, Rest())
        invariant inst == code + DeclsCode(ds, k, l) && kval == DeclsK(ds, k, l)
        decreases more, |Rest()|
      {
        hide Valid, Rest, ParseDecls, ParseInit, DeclsCode, DeclsK, DeclsLocals, InitCode, InitK, DeclSnoc, OntoDecls;
        ghost var rest, l1 := Rest(), locals;
        DeclsParts(ds, rest, locals);
        :- Declaration();
        ghost var x, init := rest[0].name, ParseInit(rest[1..]).tree;
        DeclSnocShape(ds, x, init, k, l);
        Assoc(code, DeclsCode(ds, k, l), InitCode(x, init, DeclsK(ds, k, l), l1));
        ds := DeclSnoc(ds, x, init);
        more := Test(Comma);
      }
      return Okay;
    }

    // ------------------------------------------------------------------
    // Blocks
    // ------------------------------------------------------------------

    method Block_() returns (s: Status)
      requires Valid() && LoopOk()
      modifies this
      ensures DidBlock(ParseBlock(old(Rest()), old(Sc()), old(loop).Some?), s, old(inst), old(kval), old(Sc()),
        old(loop), old(over))
      decreases |Rest()|, 1
    {
      hide Valid, Rest, ParseStmt, ParseStmts, StmtCode, StmtK, StmtScope, StmtBreaks, BlockCode, BlockK, BlockScope,
        BlockBreaks, BlockSnoc, OntoBlock, BlockJoin, BlockRoomy, Spilt;
      ghost var inside, code, k, sc, loop0, over0 := loop.Some?, inst, kval, Sc(), loop, over;
      ghost var l, at := Around(loop), |inst|;
      :- MatchToken(LBrace);
      ghost var all, b := ParseStmts(Rest(), sc, inside), Done;
      OntoDone(all);
      DoneShape(k, sc, at, l);
      DoneRoomy();
      NoBreaks(loop0);
      assert code + [] == code;
      while !Sees(Rest(), RBrace)
        invariant Valid() && LoopOk() && loop.Some? == inside && Around(loop) == l
        invariant |Rest()| < |old(Rest())|
        invariant all == OntoBlock(b, ParseStmts(Rest(), Sc(), inside))
        invariant inst == code + BlockCode(b, k, sc, at, l) && kval == BlockK(b, k, sc) && Sc() == BlockScope(b, sc)
        invariant loop == WithBreaks(loop0, BlockBreaks(b, k, sc, at, l))
        invariant over == (over0 || !BlockRoomy(b) || Spilt(loop))
        decreases |Rest()|
      {
        hide Valid, Rest, ParseStmt, ParseStmts, StmtCode, StmtK, StmtScope, StmtBreaks, BlockCode, BlockK, BlockScope,
          BlockBreaks, BlockSnoc, OntoBlock, BlockJoin, BlockRoomy, Spilt;
        StmtsParts(b, Rest(), Sc(), inside);
        b :- OneStmt(b, code, k, sc, loop0, over0);
      }
      StmtsParts(b, Rest(), Sc(), inside);
      Next();
      return Okay;
    }

    /** One more statement of the block `b`. */
    method OneStmt(ghost b: Block, ghost code: Code, ghost k: seq<Value>, ghost sc: Scope,
        ghost loop0: Option<LoopInfo>, ghost over0: bool) returns (s: Status, ghost b1: Block)
      requires Valid() && LoopOk() && loop.Some? == loop0.Some? && Around(loop) == Around(loop0)
      requires inst == code + BlockCode(b, k, sc, |code|, Around(loop0)) && kval == BlockK(b, k, sc) &&
        Sc() == BlockScope(b, sc)
      requires loop == WithBreaks(loop0, BlockBreaks(b, k, sc, |code|, Around(loop0)))
      requires over == (over0 || !BlockRoomy(b) || Spilt(loop))
      modifies this
      ensures Valid()
      ensures s.Failed? ==> ParseStmt(old(Rest()), old(Sc()), loop0.Some?) == Bad(s.fault)
      ensures s == Okay ==>
        var r := ParseStmt(old(Rest()), old(Sc()), loop0.Some?);
        r.Ok? && r.rest == Rest() && b1 == BlockSnoc(b, r.tree) && |Rest()| < |old(Rest())| && LoopOk() &&
        loop.Some? == loop0.Some? && Around(loop) == Around(loop0) &&
        Sc() == StmtScope(r.tree, old(Sc())) &&
        inst == code + BlockCode(b1, k, sc, |code|, Around(loop0)) && kval == BlockK(b1, k, sc) &&
          Sc() == BlockScope(b1, sc) &&
        loop == WithBreaks(loop0, BlockBreaks(b1, k, sc, |code|, Around(loop0))) &&
        over == (over0 || !BlockRoomy(b1) || Spilt(loop))
      decreases |Rest()|, 5
    {
      hide Valid, Rest, ParseStmt, StmtCode, StmtK, StmtScope, StmtBreaks, BlockCode, BlockK, BlockScope, BlockBreaks,
        BlockSnoc, StmtRoomy, BlockRoomy, Spilt;
      ghost var l, at, n := Around(loop0), |code|, |inst|;
      ghost var sc1 := Sc();
      b1 := b;
      :- Stmt_();
      ghost var t := ParseStmt(old(Rest()), sc1, loop0.Some?).tree;
      SnocTables(b, t, k, sc);
      SnocCode(b, t, k, sc, at, l);
      Assoc(code, BlockCode(b, k, sc, at, l), StmtCode(t, BlockK(b, k, sc), sc1, n, l));
      MoreBreaks(loop0, BlockBreaks(b, k, sc, at, l), StmtBreaks(t, BlockK(b, k, sc), sc1, n, l));
      SnocRoomy(b, t);
      StaysSpilt(old(loop), StmtBreaks(t, BlockK(b, k, sc), sc1, n, l));
      return Okay, BlockSnoc(b, t);
    }

    // ------------------------------------------------------------------
    // Choices
    // ------------------------------------------------------------------

    /** Fills the placeholders, the last first, with jumps to the end of the code. */
    method FillJumps(holes: seq<nat>)
      requires forall h | h in holes :: h < |inst|
      modifies this`inst
      ensures inst == Filled(old(inst), 0, holes, |old(inst)|)
    {
      var i := |holes|;
      while i > 0
        invariant 0 <= i <= |holes| && |inst| == |old(inst)|
        invariant forall j | 0 <= j < |inst| ::
          inst[j] == if j in holes[i..] then IJmp(Ahead(|inst| - j)) else old(inst)[j]
      {
        i := i - 1;
        assert holes[i..] == [holes[i]] + holes[i + 1..];
        assert holes[i] in holes;
        Hack(holes[i], JMP);
      }
      assert holes[0..] == holes;
    }

    /** A condition and its block; `hole` is the place of the jump between them. */
    method Part() returns (s: Status, hole: nat)
      requires Valid() && LoopOk()
      modifies this
      ensures Valid() &&
        match ParsePart(old(Rest()), old(Sc()), old(loop).Some?)
        case Bad(f) => s == Failed(f)
        case Ok(g, rest) =>
          s == Okay && Rest() == rest && LoopOk() &&
          inst == old(inst) + OpenCode(g, old(kval), old(Sc()), |old(inst)|, Around(old(loop))) &&
          hole == BlockPos(g, old(kval), old(Sc()), |old(inst)|) - 1 &&
          kval == GuardK(g, old(kval), old(Sc())) && Sc() == GuardScope(g, old(Sc())) &&
          loop == WithBreaks(old(loop), GuardBreaks(g, old(kval), old(Sc()), |old(inst)|, Around(old(loop)))) &&
          over == (old(over) || !GuardRoomy(g) || Spilt(loop))
      decreases |Rest()|, 1
    {
      hide Valid, Rest, ParseExpr, ParseBlock, ExprCode, ExprK, BlockCode, BlockK, BlockScope, BlockBreaks, BlockRoomy,
        GuardRoomy, Spilt;
      ghost var ts, code, k, sc, loop0 := Rest(), inst, kval, Sc(), loop;
      hole := 0;
      var after :- Expr(0);
      ghost var rest := Rest();
      hole := Hold();
      :- Block_();
      ghost var e, b := ParseExpr(ts, 0).tree, ParseBlock(rest, sc, loop0.Some?).tree;
      PartShape(e, b, k, sc, |code|, Around(loop0));
      Assoc4(code, ExprCode(e, k, sc.locals), [IPanic],
        BlockCode(b, ExprK(e, k, sc.locals), sc, |code| + |ExprCode(e, k, sc.locals)| + 1, Around(loop0)));
      BreaksKeepLoop(loop0, BlockBreaks(b, ExprK(e, k, sc.locals), sc, hole + 1, Around(loop0)));
      PartRoomy(e, b);
      return Okay, hole;
    }

    /** What was compiled so far of an `if`: the chain `g`, with its holes. */
    ghost predicate Chaining(g: Guard, code: Code, k: seq<Value>, sc: Scope, loop0: Option<LoopInfo>, over0: bool,
        hole: nat, outs: seq<nat>)
      reads this
    {
      var at := |code|;
      var l := Around(loop0);
      Valid() && LoopOk() && IsOpen(g) &&
      inst == code + OpenCode(g, k, sc, at, l) && kval == GuardK(g, k, sc) && Sc() == GuardScope(g, sc) &&
      loop == WithBreaks(loop0, GuardBreaks(g, k, sc, at, l)) &&
      hole == LastHole(g, k, sc, at, l) && outs == OutHoles(g, k, sc, at, l) &&
      over == (over0 || !GuardRoomy(g) || Spilt(loop) || |outs| > TABLE)
    }

    /** The next part of the chain begins: the jump over what follows gets its place, and the jump over the
        block is filled. */
    method NextPart(ghost g: Guard, ghost code: Code, ghost k: seq<Value>, ghost sc: Scope,
        ghost loop0: Option<LoopInfo>, ghost over0: bool, hole: nat, outs: seq<nat>) returns (outs1: seq<nat>)
      requires Chaining(g, code, k, sc, loop0, over0, hole, outs)
      modifies this`next, this`inst, this`over
      ensures Valid() && Rest() == Skip(old(Rest())) && LoopOk() && over == (old(over) || |outs1| > TABLE)
      ensures outs1 == outs + [|code| + |OpenCode(g, k, sc, |code|, Around(loop0))|]
      ensures |code| <= LastHole(g, k, sc, |code|, Around(loop0)) < |code| + |OpenCode(g, k, sc, |code|, Around(loop0))|
      ensures inst == code + Closed(g, k, sc, |code|, Around(loop0)) + [IPanic]
    {
      hide Valid, Rest, OpenCode, LastHole, OutHoles, IsOpen, GuardK, GuardScope, GuardBreaks, OpenRest, GuardRoomy,
        Spilt;
      LastHoleInside(g, k, sc, |code|, Around(loop0));
      Next();
      var out := Hold();
      Hack(hole, JNE);
      ghost var x := OpenCode(g, k, sc, |code|, Around(loop0));
      UpdateMiddle(code, x, [IPanic], hole - |code|, IJne(Ahead(|code| + |x| + 1 - hole)));
      over := over || |outs| >= TABLE;
      return outs + [out];
    }

    /** `elif`, its condition and its block. */
    method ElifPart(ghost g: Guard, ghost code: Code, ghost k: seq<Value>, ghost sc: Scope,
        ghost loop0: Option<LoopInfo>, ghost over0: bool, hole: nat, outs: seq<nat>)
      returns (s: Status, ghost g1: Guard, hole1: nat, outs1: seq<nat>)
      requires Chaining(g, code, k, sc, loop0, over0, hole, outs) && Sees(Rest(), TElif)
      modifies this
      ensures Valid()
      ensures s.Failed? ==> ParsePart(old(Rest())[1..], old(Sc()), loop0.Some?) == Bad(s.fault)
      ensures s == Okay ==>
        var r := ParsePart(old(Rest())[1..], old(Sc()), loop0.Some?);
        r.Ok? && Rest() == r.rest && Sc() == GuardScope(r.tree, old(Sc())) && g1 == Append(g, Elif(r.tree)) &&
        Chaining(g1, code, k, sc, loop0, over0, hole1, outs1)
      decreases |Rest()|, 2
    {
      hide Valid, Rest, OpenCode, LastHole, OutHoles, IsOpen, GuardK, GuardScope, GuardBreaks, ChainBreaks, OpenRest,
        ParsePart, Append, Closed, GuardRoomy, ChainRoomy, Spilt;
      ghost var at, l, k1, sc1 := |code|, Around(loop0), kval, Sc();
      ghost var ts := Rest();
      BreaksKeepLoop(loop0, GuardBreaks(g, k, sc, at, l));
      s, g1, hole1 := Failed(Reject), g, 0;
      outs1 := NextPart(g, code, k, sc, loop0, over0, hole, outs);
      ghost var pre := inst;
      ghost var n := |code| + |OpenCode(g, k, sc, at, l)| + 1;
      ClosedSize(g, k, sc, at, l);
      hole1 :- Part();
      ghost var p := ParsePart(ts[1..], sc1, loop0.Some?).tree;
      g1 := Append(g, Elif(p));
      ElifExtends(g, p, code, k, sc, at, l);
      MoreBreaks(loop0, GuardBreaks(g, k, sc, at, l), GuardBreaks(p, k1, sc1, n, l));
      AppendRoomy(g, Elif(p));
      ElifRoomy(p);
      StaysSpilt(old(loop), GuardBreaks(p, k1, sc1, n, l));
      Assoc4(code, Closed(g, k, sc, at, l), [IPanic], OpenCode(p, k1, sc1, n, l));
      return Okay, g1, hole1, outs1;
    }
  
    /** `else` and its block. */
    method ElsePart(ghost g: Guard, ghost code: Code, ghost k: seq<Value>, ghost sc: Scope,
        ghost loop0: Option<LoopInfo>, ghost over0: bool, hole: nat, outs: seq<nat>)
      returns (s: Status, ghost g1: Guard, outs1: seq<nat>)
      requires Chaining(g, code, k, sc, loop0, over0, hole, outs) && Sees(Rest(), TElse)
      modifies this
      ensures Valid()
      ensures s.Failed? ==> ParseBlock(old(Rest())[1..], old(Sc()), loop0.Some?) == Bad(s.fault)
      ensures s == Okay ==>
        var r := ParseBlock(old(Rest())[1..], old(Sc()), loop0.Some?);
        r.Ok? && Rest() == r.rest && g1 == Append(g, Else(r.tree)) && !g1.rest.Fi? &&
        inst == code + OpenCode(g1, k, sc, |code|, Around(loop0)) && kval == GuardK(g1, k, sc) &&
          Sc() == GuardScope(g1, sc) &&
        loop == WithBreaks(loop0, GuardBreaks(g1, k, sc, |code|, Around(loop0))) &&
        outs1 == OutHoles(g1, k, sc, |code|, Around(loop0)) &&
        over == (over0 || !GuardRoomy(g1) || Spilt(loop) || |outs1| > TABLE)
      decreases |Rest()|, 2
    {
      hide Valid, Rest, OpenCode, LastHole, OutHoles, IsOpen, GuardK, GuardScope, GuardBreaks, ChainBreaks, OpenRest,
        ParseBlock, Append, Closed, BlockCode, BlockK, BlockScope, BlockBreaks, GuardRoomy, ChainRoomy, BlockRoomy,
        Spilt;
      ghost var at, l, k1, sc1 := |code|, Around(loop0), kval, Sc();
      ghost var ts := Rest();
      BreaksKeepLoop(loop0, GuardBreaks(g, k, sc, at, l));
      s, g1 := Failed(Reject), g;
      outs1 := NextPart(g, code, k, sc, loop0, over0, hole, outs);
      ghost var n := |code| + |OpenCode(g, k, sc, at, l)| + 1;
      ClosedSize(g, k, sc, at, l);
      :- Block_();
      ghost var b := ParseBlock(ts[1..], sc1, loop0.Some?).tree;
      g1 := Append(g, Else(b));
      ElseExtends(g, b, k, sc, at, l);
      MoreBreaks(loop0, GuardBreaks(g, k, sc, at, l), BlockBreaks(b, k1, sc1, n, l));
      AppendRoomy(g, Else(b));
      ElseRoomy(b);
      StaysSpilt(old(loop), BlockBreaks(b, k1, sc1, n, l));
      Assoc4(code, Closed(g, k, sc, at, l), [IPanic], BlockCode(b, k1, sc1, n, l));
      return Okay, g1, outs1;
    }

    /** What follows `if`. */
    method IfStat() returns (s: Status)
      requires Valid() && LoopOk()
      modifies this
      ensures Valid() &&
        match ParseGuard(old(Rest()), old(Sc()), old(loop).Some?)
        case Bad(f) => s == Failed(f)
        case Ok(g, rest) =>
          var l := Around(old(loop));
          s == Okay && Rest() == rest && inst == old(inst) + GuardCode(g, old(kval), old(Sc()), |old(inst)|, l, true) &&
          kval == GuardK(g, old(kval), old(Sc())) && Sc() == GuardScope(g, old(Sc())) &&
          loop == WithBreaks(old(loop), GuardBreaks(g, old(kval), old(Sc()), |old(inst)|, l)) &&
          over == (old(over) || !StmtRoomy(If(g)) || Spilt(loop))
      decreases |Rest()|, 2
    {
      hide Valid, Rest, ParseGuard, ParsePart, ParseChain, OpenCode, LastHole, OutHoles, IsOpen, GuardCode, GuardK,
        GuardScope, GuardBreaks, Append, OntoGuard, Filled, GuardRoomy, Spilt;
      ghost var code, k, sc, loop0, over0 := inst, kval, Sc(), loop, over;
      ghost var all := ParseGuard(Rest(), Sc(), loop.Some?);
      ghost var l, first := Around(loop), ParsePart(Rest(), Sc(), loop.Some?);
      GuardGrammar(Rest(), Sc(), loop.Some?);
      var nsub, outs := 0, [];
      var hole :- Part();
      ghost var g := first.tree;
      PartBegins(g, k, sc, |code|, l);
      while Sees(Rest(), TElif)
        invariant Chaining(g, code, k, sc, loop0, over0, hole, outs) && (nsub == 0 <==> g.rest.Fi?)
        invariant all == OntoGuard(g, ParseChain(Rest(), Sc(), loop0.Some?))
        invariant |Rest()| < |old(Rest())|
        decreases |Rest()|
      {
        hide Valid, Rest, ParseGuard, ParsePart, ParseChain, OpenCode, LastHole, OutHoles, IsOpen, GuardCode, GuardK,
          GuardScope, GuardBreaks, Append, OntoGuard, Filled, GuardRoomy, Spilt;
        ghost var rest, before, sc1 := Rest(), g, Sc();
        ElifGrammar(g, rest, Sc(), loop0.Some?);
        g, hole, outs :- ElifPart(g, code, k, sc, loop0, over0, hole, outs);
        AppendRest(before, Elif(ParsePart(rest[1..], sc1, loop0.Some?).tree));
        nsub := nsub + 1;
      }
      ElseGrammar(g, Rest(), Sc(), loop0.Some?);
      if Sees(Rest(), TElse) {
        g, outs :- ElsePart(g, code, k, sc, loop0, over0, hole, outs);
        nsub := nsub + 1;
      }
      ExitsCounted(g, k, sc, |code|, l);
      IfLeave(g, code, k, sc, l, hole, outs, nsub);
      return Okay;
    }

    /** The end of an `if`: the jumps over what follows are filled, and the first condition if nothing follows. */
    method IfLeave(ghost g: Guard, ghost code: Code, ghost k: seq<Value>, ghost sc: Scope, ghost l: Loop, hole: nat,
        outs: seq<nat>, nsub: nat)
      requires nsub == 0 <==> g.rest.Fi?
      requires inst == code + OpenCode(g, k, sc, |code|, l) && outs == OutHoles(g, k, sc, |code|, l)
      requires nsub == 0 ==> hole == LastHole(g, k, sc, |code|, l)
      modifies this`inst
      ensures inst == code + GuardCode(g, k, sc, |code|, l, true)
    {
      hide OpenCode, LastHole, OutHoles, GuardCode, Filled;
      IfEnds(g, code, k, sc, l, outs, nsub == 0);
      FillJumps(outs);
      if nsub == 0 { Hack(hole, JNE); }
    }

    // ------------------------------------------------------------------
    // Loops
    // ------------------------------------------------------------------

    /** The jump back at the end of a loop; then the breaks are filled, and the condition unless the loop is
        endless. */
    method LoopLeave()
      requires loop.Some? && loop.value.retry <= |inst| && (!loop.value.endless ==> loop.value.cond < |inst|)
      requires forall h | h in loop.value.jumps :: h < |inst|
      modifies this`inst
      ensures inst == LeftLoop(old(inst), loop.value)
    {
      hide Filled;
      var l := loop.value;
      EmitBack(l.retry);
      FillJumps(l.jumps);
      if !l.endless { Hack(l.cond, FOREACH); }
    }

    /** The iterator of a `for`, in a local of its own. */
    method Iterator() returns (s: Status, iter: Name)
      requires Valid()
      modifies this`next, this`inst, this`kval, this`locals, this`fors
      ensures Valid() &&
        if !Sees(old(Rest()), TIn) then s == Failed(Reject)
        else
          match ParseExpr(old(Rest())[1..], 0)
          case Bad(f) => s == Failed(f)
          case Ok(e, rest) =>
            if IterName(old(fors)) in old(locals) then s == Failed(Reject)
            else
              s == Okay && Rest() == rest && Sc() == BodyScope(old(Sc())) && iter == IterName(old(fors)) &&
              inst == old(inst) + ExprCode(e, old(kval), old(locals)) + [IStoreLocal(U16(|old(locals)|))] &&
              kval == ExprK(e, old(kval), old(locals))
      decreases |Rest()|, 0
    {
      hide Valid, Rest, ParseExpr, ExprCode, ExprK, IterName;
      iter := IterName(fors);
      :- MatchToken(TIn);
      var after :- Expr(0);
      fors := fors + 1;
      var i := AddLocal(iter);
      if i < 0 { return Failed(Reject), iter; }
      Emit(IStoreLocal(U16(i)));
      return Okay, iter;
    }

    /** What each round begins with: the iterator is called, and its value is stored unless it is nil. */
    method RoundHead(iter: Name, x: Name)
      requires loop.Some? && iter in locals
      modifies this`inst, this`kval, this`loop
      ensures inst == old(inst) +
        [IPushLocal(U16(Slot(locals, iter))), ICall(1, 0), IPanic, StoreCode(x, old(kval), locals)]
      ensures kval == SymK(x, old(kval), locals)
      ensures loop == Some(old(loop).value.(retry := |old(inst)|, cond := |old(inst)| + 2))
    {
      loop := Some(loop.value.(retry := |inst|));
      EmitPush(iter);
      Emit(ICall(1, 0));
      var cond := Hold();
      loop := Some(loop.value.(cond := cond));
      EmitStore(x);
    }

    /** `for x in e` up to its body. */
    method ForHead(x: Name) returns (s: Status)
      requires Valid() && loop.Some?
      modifies this`next, this`inst, this`kval, this`locals, this`fors, this`loop
      ensures Valid() &&
        if !Sees(old(Rest()), TIn) then s == Failed(Reject)
        else
          match ParseExpr(old(Rest())[1..], 0)
          case Bad(f) => s == Failed(f)
          case Ok(e, rest) =>
            if IterName(old(fors)) in old(locals) then s == Failed(Reject)
            else
              s == Okay && Rest() == rest && Sc() == BodyScope(old(Sc())) &&
              inst == old(inst) + ForHeader(e, x, old(kval), old(Sc())) &&
              kval == SymK(x, ExprK(e, old(kval), old(locals)), locals) &&
              loop == Some(old(loop).value.(retry := |inst| - 4, cond := |inst| - 2))
      decreases |Rest()|, 1
    {
      hide Valid, Rest, ParseExpr, ExprCode, ExprK, IterName, SymK, StoreCode, ForHeader, U16;
      ghost var ts, code, k, sc := Rest(), inst, kval, Sc();
      var iter :- Iterator();
      ghost var e := ParseExpr(ts[1..], 0).tree;
      SlotNew(sc.locals, iter);
      RoundHead(iter, x);
      HeaderShape(e, x, k, sc, code);
      return Okay;
    }

    /** `for { body }`. */
    method Endless() returns (s: Status)
      requires Valid() && LoopOk() && Sees(Rest(), LBrace)
      modifies this
      ensures DidStmt(ParseFor(old(Rest()), old(Sc())), s, old(inst), old(kval), old(Sc()), old(loop), old(over))
      decreases |Rest()|, 2
    {
      hide Valid, Rest, ParseFor, ParseBlock, BlockCode, BlockK, BlockScope, BlockBreaks, StmtCode, StmtK, StmtScope,
        StmtBreaks, LeftLoop, Filled, BlockRoomy, StmtRoomy;
      var outer := loop;
      ghost var ts, code, k, sc := Rest(), inst, kval, Sc();
      EndlessParts(ts, sc);
      NoBreaks(outer);
      loop := Some(LoopInfo(|inst|, 0, true, []));
      :- Block_();
      ghost var b := ParseBlock(ts, sc, true).tree;
      ForeverEnds(b, code, k, sc, Around(outer));
      LoopSpills(b, LoopInfo(|code|, 0, true, []), k, sc, |code|);
      LoopLeave();
      loop := outer;
      return Okay;
    }

    /** The body of a loop over an iterator, after the code `head` of what each round begins with. */
    method ForBody(x: Name, ghost declare: bool, ghost e: Expr, ghost code: Code, ghost k: seq<Value>, ghost sc: Scope,
        ghost outer: Loop) returns (s: Status)
      requires Valid() && Sc() == BodyScope(DeclareIf(declare, sc, x))
      requires inst == code + ForHeader(e, x, k, DeclareIf(declare, sc, x)) && |inst| >= 5
      requires kval == SymK(x, ExprK(e, k, DeclareIf(declare, sc, x).locals), locals)
      requires loop == Some(LoopInfo(|inst| - 4, |inst| - 2, false, []))
      modifies this
      ensures Valid() &&
        match ParseBlock(old(Rest()), old(Sc()), true)
        case Bad(f) => s == Failed(f)
        case Ok(b, rest) =>
          var t := ForIn(declare, x, e, b);
          s == Okay && Rest() == rest && inst == code + StmtCode(t, k, sc, |code|, outer) && kval == StmtK(t, k, sc) &&
          Sc() == StmtScope(t, sc) && StmtBreaks(t, k, sc, |code|, outer) == [] &&
          over == (old(over) || !StmtRoomy(t))
      decreases |Rest()|, 2
    {
      hide Valid, Rest, ParseBlock, BlockCode, BlockK, BlockScope, BlockBreaks, StmtCode, StmtK, StmtScope, StmtBreaks,
        ExprK, SymK, IterName, ForHeader, LeftLoop, Filled, BlockRoomy, StmtRoomy, BodyScope;
      ghost var ts, k1, sc1, at, l := Rest(), kval, Sc(), |inst|, loop.value;
      :- Block_();
      ghost var b := ParseBlock(ts, sc1, true).tree;
      ForInEnds(declare, x, e, b, code, k, sc, outer);
      LoopSpills(b, l, k1, sc1, at);
      LoopLeave();
      return Okay;
    }

    /** `in e { body }`, after `for x` or `for var x`. */
    method ForInStat(x: Name, ghost declare: bool, ghost sc: Scope) returns (s: Status)
      requires Valid() && LoopOk() && Sc() == DeclareIf(declare, sc, x)
      modifies this
      ensures DidStmt(ParseForIn(declare, x, old(Rest()), sc), s, old(inst), old(kval), sc, old(loop), old(over))
      decreases |Rest()|, 2
    {
      hide Valid, Rest, ParseForIn, ParseBlock, ParseExpr, StmtCode, StmtK, StmtScope, StmtBreaks, ExprK, SymK,
        IterName, ForHeader, StmtRoomy, BodyScope, Spilt, WithBreaks;
      var outer := loop;
      ghost var ts, code, k, sc1 := Rest(), inst, kval, Sc();
      ForInParts(declare, x, ts, sc);
      NoBreaks(outer);
      loop := Some(LoopInfo(0, 0, false, []));
      :- ForHead(x);
      ghost var e := ParseExpr(ts[1..], 0).tree;
      HeaderSize(e, x, k, sc1);
      :- ForBody(x, declare, e, code, k, sc, Around(outer));
      loop := outer;
      return Okay;
    }

    /** What follows `for`. */
    method ForStat() returns (s: Status)
      requires Valid() && LoopOk()
      modifies this
      ensures DidStmt(ParseFor(old(Rest()), old(Sc())), s, old(inst), old(kval), old(Sc()), old(loop), old(over))
      decreases |Rest()|, 3
    {
      hide Valid, Rest, ParseBlock, ParseForIn, StmtCode, StmtK, StmtScope, StmtBreaks;
      ghost var sc := Sc();
      if Sees(Rest(), LBrace) {
        s := Endless();
        return;
      }
      ForParts(Rest(), sc);
      var declare := Test(TVar);
      var x :- Symbol();
      if declare {
        var i := AddLocal(x);
        if i < 0 { return Failed(Reject); }
      }
      s := ForInStat(x, declare, sc);
    }

    /** `break` leaves a placeholder; `continue` jumps back at once. */
    method GotoStat(leave: bool)
      requires Valid() && LoopOk() && loop.Some?
      modifies this`next, this`inst, this`loop, this`over
      ensures DidStmt(Ok(if leave then Break else Continue, Skip(old(Rest()))), Okay, old(inst), old(kval), old(Sc()),
        old(loop), old(over))
    {
      NoBreaks(loop);
      GotoShape(if leave then Break else Continue, kval, Sc());
      if leave {
        var hole := Hold();
        over := over || |loop.value.jumps| >= TABLE;
        loop := Some(loop.value.(jumps := loop.value.jumps + [hole]));
      } else {
        EmitBack(loop.value.retry);
      }
      Next();
    }

    /** What follows `return`. */
    method ReturnStat() returns (s: Status)
      requires Valid() && LoopOk()
      modifies this`next, this`inst, this`kval
      ensures DidStmt(Returning(ParseExpr(old(Rest()), 0)), s, old(inst), old(kval), old(Sc()), old(loop), old(over))
    {
      hide Valid, Rest, ParseExpr, ExprCode, ExprK, StmtCode, StmtK, StmtScope, StmtBreaks, StmtRoomy, Spilt, Around,
        WithBreaks;
      ghost var ts, k := Rest(), kval;
      var after :- Expr(0);
      Emit(IRet(1));
      ghost var e := ParseExpr(ts, 0).tree;
      ReturnShape(e, k, Sc(), |old(inst)|, Around(loop));
      PlainRoomy(Return(e));
      NoBreaks(loop);
      return Okay;
    }

    // ------------------------------------------------------------------
    // Statements and programs
    // ------------------------------------------------------------------

    method Stmt_() returns (s: Status)
      requires Valid() && LoopOk()
      modifies this
      ensures DidStmt(ParseStmt(old(Rest()), old(Sc()), old(loop).Some?), s, old(inst), old(kval), old(Sc()),
        old(loop), old(over))
      decreases |Rest()|, 4
    {
      hide Valid, Rest, ParseStmt, ParseGuard, ParseFor, ParseDecls, ParseExpr, ParseExprStmt, StmtCode, StmtK,
        StmtScope, StmtBreaks, GuardCode, GuardK, GuardScope, GuardBreaks, DeclsCode, DeclsK, DeclsLocals, ExprCode,
        ExprK, StmtRoomy, Spilt, Around, WithBreaks;
      ghost var ts, code, k, sc, l := Rest(), inst, kval, Sc(), Around(loop);
      StmtParts(ts, sc, loop.Some?);
      NoBreaks(loop);
      if Rest() == [] { return Failed(Reject); }
      match Rest()[0] {
        case Semi =>
          Next();
          NopShape(k, sc, |code|, l);
          PlainRoomy(Nop);
          assert inst + [] == inst;
        case TIf =>
          Next();
          :- IfStat();
          IfShape(ParseGuard(ts[1..], sc, old(loop).Some?).tree, k, sc, |code|, l);
        case TWith => return Failed(Outside);
        case TFor =>
          Next();
          :- ForStat();
        case TFunc => return Failed(Outside);
        case TVar =>
          Next();
          if Sees(Rest(), TFunc) { return Failed(Outside); }
          :- LocalStat();
          VarShape(ParseDecls(ts[1..], sc.locals).tree, k, sc, |code|, l);
          PlainRoomy(Var(ParseDecls(ts[1..], sc.locals).tree));
        case TReturn =>
          Next();
          :- ReturnStat();
        case TBreak =>
          if loop == None { return Failed(Outside); }
          GotoStat(true);
        case TContinue =>
          if loop == None { return Failed(Outside); }
          GotoStat(false);
        case _ =>
          :- ExprStat();
      }
      return Okay;
    }
  }

  // ------------------------------------------------------------------
  // Function bodies
  // ------------------------------------------------------------------

  /** What becomes of a function body: it is compiled, or it is in error, or an entry is written past the end of a
      table, which C does not define. */
  datatype Outcome = Emitted(c: Chunk) | Rejected(fault: Fault) | Overrun

  /** Compiles a function body. */
  method Compile(tokens: seq<Token>, params: seq<Name>, fors: nat) returns (r: Outcome)
    ensures match ParseProgram(tokens, Scope(params, fors))
      case Bad(f) => r == Rejected(f) || r == Overrun
      case Ok(b, _) => r == if BlockRoomy(b) then Emitted(ChunkOf(b, params, fors)) else Overrun
    ensures r.Emitted? <==> Compiled(tokens, params, fors).Some?
    ensures r.Emitted? ==> Compiled(tokens, params, fors) == Some(r.c)
  {
    hide ParseProgram, ParseStmt, OntoBlock, StmtScope, BlockSnoc, BlockCode, BlockK, BlockScope, BlockBreaks, Ended,
      BlockRoomy;
    ghost var sc, all, b := Scope(params, fors), ParseProgram(tokens, Scope(params, fors)), Done;
    OntoDone(all);
    DoneShape([], sc, 0, NoLoop);
    DoneRoomy();
    var p := new Parser(tokens, params, fors);
    assert [] + BlockCode(b, [], sc, 0, NoLoop) == [];
    while p.Rest() != []
      invariant p.Valid() && p.LoopOk() && p.loop == None && p.over == !BlockRoomy(b)
      invariant all == OntoBlock(b, ParseProgram(p.Rest(), p.Sc()))
      invariant p.inst == [] + BlockCode(b, [], sc, 0, NoLoop) && p.kval == BlockK(b, [], sc) &&
        p.Sc() == BlockScope(b, sc)
      decreases |p.Rest()|
    {
      hide ParseProgram, ParseStmt, OntoBlock, StmtScope, BlockSnoc, BlockCode, BlockK, BlockScope, BlockBreaks, Ended,
        BlockRoomy;
      ProgramParts(b, p.Rest(), p.Sc());
      var s;
      s, b := p.OneStmt(b, [], [], sc, None, false);
      if s.Failed? { return if p.over then Overrun else Rejected(s.fault); }
    }
    ProgramParts(b, p.Rest(), p.Sc());
    ghost var code := p.inst;
    assert code == BlockCode(b, [], sc, 0, NoLoop);
    EmitEnd(p);
    assert p.Sc() == Scope(p.locals, p.fors);
    r := if p.over then Overrun else Emitted(Chunk(p.inst, p.kval, p.locals));
  }

  /** A loop that is left at `n` places compiles exactly if its table has an entry for each. */
  method ManyBreaks(n: nat) returns (r: Outcome)
    ensures r == if n <= 128 then Emitted(ChunkOf(Leaving(n), [], 0)) else Overrun
  {
    hide ParseProgram, BlockCode, BlockK, BlockScope, Ended, BlockRoomy;
    LeavingParses(n);
    r := Compile(LeavingTokens(n), [], 0);
  }

  /** Appends a return, unless the last instruction is one. */
  method EmitEnd(p: Parser)
    modifies p`inst
    ensures p.inst == Ended(old(p.inst))
  {
    if p.inst == [] || !p.inst[|p.inst| - 1].IRet? { p.Emit(IRet(0)); }
  }
}
