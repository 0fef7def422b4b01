/** The size of code does not depend on where it stands, nor on the loop around it; and where the holes are that
    `break` leaves until the end of the loop is known. */
module VmSize {
  import opened Basics
  import opened ScriptSyntax
  import opened Runtime
  import opened VmCode

  lemma {:induction false} AnyPlace(s: Stmt, k: seq<Value>, sc: Scope, at: nat, loop: Loop, at1: nat, loop1: Loop)
    ensures |StmtCode(s, k, sc, at, loop)| == |StmtCode(s, k, sc, at1, loop1)|
    decreases s, 1
  {
    match s {
      case If(g) =>
        hide GuardCode;
        GuardAnyPlace(g, k, sc, at, loop, at1, loop1, true);
      case Forever(body) =>
        hide LoopCode;
        LoopAnyPlace(body, k, sc, at, at, at1, at1);
      case ForIn(_, _, _, _) => ForAnyPlace(s, k, sc, at, loop, at1, loop1);
      case Nop | Assign(_, _) | DoCall(_, _) | DoMethod(_, _, _) | Var(_) | Break | Continue | Return(_) =>
        hide ExprCode, CallCode, AssignCode, DeclsCode;
    }
  }

  lemma {:induction false} ForAnyPlace(s: Stmt, k: seq<Value>, sc: Scope, at: nat, loop: Loop, at1: nat, loop1: Loop)
    requires s.ForIn?
    ensures |StmtCode(s, k, sc, at, loop)| == |StmtCode(s, k, sc, at1, loop1)|
    decreases s, 0
  {
    hide LoopCode, ExprCode, ExprK, StoreCode, SymK;
    var sc1 := DeclareIf(s.declare, sc, s.name);
    var n := |ExprCode(s.iter, k, sc1.locals)|;
    LoopAnyPlace(s.body, SymK(s.name, ExprK(s.iter, k, sc1.locals), BodyScope(sc1).locals), BodyScope(sc1), at + n + 5,
      at + n + 1, at1 + n + 5, at1 + n + 1);
  }

  lemma {:induction false} LoopAnyPlace(body: Block, k: seq<Value>, sc: Scope, at: nat, retry: nat, at1: nat,
      retry1: nat)
    ensures |LoopCode(body, k, sc, at, retry)| == |LoopCode(body, k, sc, at1, retry1)|
    decreases body, 1
  {
    hide BlockCode;
    var l, l1 := Loop(retry, None), Loop(retry1, None);
    var n := |BlockCode(body, k, sc, at, l)|;
    BlockAnyPlace(body, k, sc, at, l, at1, l1);
    BlockAnyPlace(body, k, sc, at, Loop(retry, Some(at + n + 1)), at1, Loop(retry1, Some(at1 + n + 1)));
  }

  lemma {:induction false} ThenCode(s: Stmt, tail: Block, k: seq<Value>, sc: Scope, at: nat, loop: Loop)
    ensures var x := StmtCode(s, k, sc, at, loop);
      BlockCode(Then(s, tail), k, sc, at, loop) ==
        x + BlockCode(tail, StmtK(s, k, sc), StmtScope(s, sc), at + |x|, loop)
  {
    hide StmtCode, StmtK, StmtScope;
  }

  /** The size of code does not depend on where it stands. */
  lemma {:induction false} BlockAnyPlace(b: Block, k: seq<Value>, sc: Scope, at: nat, loop: Loop, at1: nat, loop1: Loop)
    ensures |BlockCode(b, k, sc, at, loop)| == |BlockCode(b, k, sc, at1, loop1)|
    decreases b, 0
  {
    match b {
      case Done =>
      case Then(s, tail) =>
        hide StmtCode, BlockCode, StmtK, StmtScope;
        ThenCode(s, tail, k, sc, at, loop);
        ThenCode(s, tail, k, sc, at1, loop1);
        AnyPlace(s, k, sc, at, loop, at1, loop1);
        var n := |StmtCode(s, k, sc, at, loop)|;
        BlockAnyPlace(tail, StmtK(s, k, sc), StmtScope(s, sc), at + n, loop, at1 + n, loop1);
    }
  }

  lemma {:induction false} ChainAnyPlace(ch: Chain, k: seq<Value>, sc: Scope, at: nat, loop: Loop, at1: nat,
      loop1: Loop)
    ensures |ChainCode(ch, k, sc, at, loop)| == |ChainCode(ch, k, sc, at1, loop1)|
    decreases ch, 0
  {
    match ch {
      case Fi =>
      case Else(b) => BlockAnyPlace(b, k, sc, at, loop, at1, loop1);
      case Elif(g) => GuardAnyPlace(g, k, sc, at, loop, at1, loop1, false);
    }
  }

  lemma {:induction false} GuardAnyPlace(g: Guard, k: seq<Value>, sc: Scope, at: nat, loop: Loop, at1: nat, loop1: Loop,
      first: bool)
    ensures |GuardCode(g, k, sc, at, loop, first)| == |GuardCode(g, k, sc, at1, loop1, first)|
    decreases g, 0
  {
    hide ExprCode, ExprK, BlockCode, ChainCode;
    var c, k1 := ExprCode(g.cond, k, sc.locals), ExprK(g.cond, k, sc.locals);
    var p, p1 := at + |c| + 1, at1 + |c| + 1;
    BlockAnyPlace(g.block, k1, sc, p, loop, p1, loop1);
    var n := |BlockCode(g.block, k1, sc, p, loop)|;
    ChainAnyPlace(g.rest, BlockK(g.block, k1, sc), BlockScope(g.block, sc), p + n + 1, loop, p1 + n + 1, loop1);
  }

  // ------------------------------------------------------------------
  // Breaks
  // ------------------------------------------------------------------

  /** The instructions that the breaks out of the loop around a statement left to be filled. */
  function StmtBreaks(s: Stmt, k: seq<Value>, sc: Scope, at: nat, loop: Loop): seq<nat>
    decreases s, 0
  {
    match s
    case Break => [at]
    case If(g) => GuardBreaks(g, k, sc, at, loop)
    case Nop | Assign(_, _) | DoCall(_, _) | DoMethod(_, _, _) | Var(_) | Continue | Return(_) => []
    case Forever(_) | ForIn(_, _, _, _) => []
  }

  function BlockBreaks(b: Block, k: seq<Value>, sc: Scope, at: nat, loop: Loop): seq<nat>
    decreases b, 0
  {
    match b
    case Done => []
    case Then(s, tail) =>
      StmtBreaks(s, k, sc, at, loop) +
      BlockBreaks(tail, StmtK(s, k, sc), StmtScope(s, sc), at + |StmtCode(s, k, sc, at, loop)|, loop)
  }

  function ChainBreaks(c: Chain, k: seq<Value>, sc: Scope, at: nat, loop: Loop): seq<nat>
    decreases c, 0
  {
    match c
    case Fi => []
    case Else(b) => BlockBreaks(b, k, sc, at, loop)
    case Elif(g) => GuardBreaks(g, k, sc, at, loop)
  }

  function GuardBreaks(g: Guard, k: seq<Value>, sc: Scope, at: nat, loop: Loop): seq<nat>
    decreases g, 0
  {
    var c := ExprCode(g.cond, k, sc.locals);
    var k1 := ExprK(g.cond, k, sc.locals);
    var b := BlockCode(g.block, k1, sc, at + |c| + 1, loop);
    BlockBreaks(g.block, k1, sc, at + |c| + 1, loop) +
    ChainBreaks(g.rest, BlockK(g.block, k1, sc), BlockScope(g.block, sc), at + |c| + |b| + 2, loop)
  }

  /** The code at `at` with the holes filled by jumps to `exit`. */
  function Filled(code: Code, at: nat, holes: seq<nat>, exit: nat): (r: Code)
    requires at + |code| <= exit
    ensures |r| == |code|
  {
    seq(|code|, i requires 0 <= i < |code| => if at + i in holes then IJmp(Ahead(exit - (at + i))) else code[i])
  }

  ghost predicate Within(holes: seq<nat>, at: nat, end: nat) {
    forall h | h in holes :: at <= h < end
  }

  lemma {:induction false} FilledParts(a: Code, b: Code, at: nat, x: seq<nat>, y: seq<nat>, exit: nat)
    requires at + |a| + |b| <= exit
    requires Within(x, at, at + |a|) && Within(y, at + |a|, at + |a| + |b|)
    ensures Filled(a + b, at, x + y, exit) == Filled(a, at, x, exit) + Filled(b, at + |a|, y, exit)
    ensures Within(x + y, at, at + |a + b|)
  {
    var l, r := Filled(a + b, at, x + y, exit), Filled(a, at, x, exit) + Filled(b, at + |a|, y, exit);
    forall i | 0 <= i < |l| ensures l[i] == r[i] {
      assert at + i in x + y <==> at + i in x || at + i in y;
    }
  }

  lemma {:induction false} FilledNone(a: Code, at: nat, exit: nat)
    requires at + |a| <= exit
    ensures Filled(a, at, [], exit) == a
  {
  }

  function Open(retry: nat): Loop {
    Loop(retry, None)
  }

  function Shut(retry: nat, exit: nat): Loop {
    Loop(retry, Some(exit))
  }

  /** Code with no holes around the holes of `b`. */
  lemma {:induction false} FilledMiddle(a: Code, b: Code, c: Code, at: nat, x: seq<nat>, exit: nat)
    requires at + |a| + |b| + |c| <= exit && Within(x, at + |a|, at + |a| + |b|)
    ensures Filled(a + b + c, at, x, exit) == a + Filled(b, at + |a|, x, exit) + c
  {
    hide Filled;
    FilledNone(a, at, exit);
    FilledNone(c, at + |a + b|, exit);
    FilledParts(a, b, at, [], x, exit);
    FilledParts(a + b, c, at, [] + x, [], exit);
    assert [] + x == x && x + [] == x;
  }

  /** Filling the holes that the breaks left gives the code written when the end of the loop is known. */
  lemma {:induction false} StmtFilled(s: Stmt, k: seq<Value>, sc: Scope, at: nat, retry: nat, exit: nat)
    requires at + |StmtCode(s, k, sc, at, Open(retry))| <= exit
    ensures var code, holes := StmtCode(s, k, sc, at, Open(retry)), StmtBreaks(s, k, sc, at, Open(retry));
      Within(holes, at, at + |code|) && Filled(code, at, holes, exit) == StmtCode(s, k, sc, at, Shut(retry, exit))
    decreases s, 0
  {
    hide GuardCode, GuardBreaks, LoopCode, ExprCode, ExprK, CallCode, AssignCode, DeclsCode;
    match s {
      case If(g) => GuardFilled(g, k, sc, at, retry, exit, true);
      case Break =>
      case Nop | Assign(_, _) | DoCall(_, _) | DoMethod(_, _, _) | Var(_) | Continue | Return(_) =>
        hide Filled;
        FilledNone(StmtCode(s, k, sc, at, Open(retry)), at, exit);
      case Forever(_) | ForIn(_, _, _, _) =>
        hide Filled;
        FilledNone(StmtCode(s, k, sc, at, Open(retry)), at, exit);
    }
  }

  lemma {:induction false} ThenBreaks(s: Stmt, tail: Block, k: seq<Value>, sc: Scope, at: nat, loop: Loop)
    ensures BlockBreaks(Then(s, tail), k, sc, at, loop) ==
            StmtBreaks(s, k, sc, at, loop) +
            BlockBreaks(tail, StmtK(s, k, sc), StmtScope(s, sc), at + |StmtCode(s, k, sc, at, loop)|, loop)
  {
    hide StmtCode, StmtK, StmtScope, StmtBreaks;
  }

  lemma {:induction false} DoneFilled(k: seq<Value>, sc: Scope, at: nat, retry: nat, exit: nat)
    requires at <= exit
    ensures BlockBreaks(Done, k, sc, at, Open(retry)) == []
    ensures BlockCode(Done, k, sc, at, Open(retry)) == [] && BlockCode(Done, k, sc, at, Shut(retry, exit)) == []
  {
  }

  lemma {:induction false} BlockFilled(b: Block, k: seq<Value>, sc: Scope, at: nat, retry: nat, exit: nat)
    requires at + |BlockCode(b, k, sc, at, Open(retry))| <= exit
    ensures var code, holes := BlockCode(b, k, sc, at, Open(retry)), BlockBreaks(b, k, sc, at, Open(retry));
      Within(holes, at, at + |code|) && Filled(code, at, holes, exit) == BlockCode(b, k, sc, at, Shut(retry, exit))
    decreases b, 0
  {
    hide StmtCode, BlockCode, StmtK, StmtScope, StmtBreaks, BlockBreaks, Filled;
    match b {
      case Done =>
        DoneFilled(k, sc, at, retry, exit);
        FilledNone([], at, exit);
      case Then(s, tail) =>
        ThenCode(s, tail, k, sc, at, Open(retry));
        ThenCode(s, tail, k, sc, at, Shut(retry, exit));
        ThenBreaks(s, tail, k, sc, at, Open(retry));
        var x := StmtCode(s, k, sc, at, Open(retry));
        AnyPlace(s, k, sc, at, Open(retry), at, Shut(retry, exit));
        StmtFilled(s, k, sc, at, retry, exit);
        BlockFilled(tail, StmtK(s, k, sc), StmtScope(s, sc), at + |x|, retry, exit);
        FilledParts(x, BlockCode(tail, StmtK(s, k, sc), StmtScope(s, sc), at + |x|, Open(retry)), at,
          StmtBreaks(s, k, sc, at, Open(retry)),
          BlockBreaks(tail, StmtK(s, k, sc), StmtScope(s, sc), at + |x|, Open(retry)), exit);
    }
  }

  lemma {:induction false} ChainFilled(ch: Chain, k: seq<Value>, sc: Scope, at: nat, retry: nat, exit: nat)
    requires at + |ChainCode(ch, k, sc, at, Open(retry))| <= exit
    ensures var code, holes := ChainCode(ch, k, sc, at, Open(retry)), ChainBreaks(ch, k, sc, at, Open(retry));
      Within(holes, at, at + |code|) && Filled(code, at, holes, exit) == ChainCode(ch, k, sc, at, Shut(retry, exit))
    decreases ch, 0
  {
    match ch {
      case Fi =>
      case Else(b) => BlockFilled(b, k, sc, at, retry, exit);
      case Elif(g) => GuardFilled(g, k, sc, at, retry, exit, false);
    }
  }

  /** The instruction after a condition. */
  function GuardInst(size: nat, last: bool, first: bool): Inst {
    if !last then IJne(Ahead(size + 2)) else if first then IJne(Ahead(size + 1)) else IPanic
  }

  /** The code of a guard is written around its block and what follows. */
  lemma {:induction false} GuardedShape(c: Code, b: Code, r: Option<Code>, first: bool)
    ensures Guarded(c, b, r, first) ==
      if r.Some? then c + [GuardInst(|b|, false, first)] + b + ([IJmp(Ahead(|r.value| + 1))] + r.value)
      else c + [GuardInst(|b|, true, first)] + b
  {
  }

  lemma {:induction false} GuardFilled(g: Guard, k: seq<Value>, sc: Scope, at: nat, retry: nat, exit: nat, first: bool)
    requires at + |GuardCode(g, k, sc, at, Open(retry), first)| <= exit
    ensures var code, holes := GuardCode(g, k, sc, at, Open(retry), first), GuardBreaks(g, k, sc, at, Open(retry));
      Within(holes, at, at + |code|) && Filled(code, at, holes, exit) ==
        GuardCode(g, k, sc, at, Shut(retry, exit), first)
    decreases g, 0
  {
    hide ExprCode, ExprK, BlockCode, BlockK, BlockScope, ChainCode, BlockBreaks, ChainBreaks, Filled, Guarded,
      GuardInst;
    var c, k1 := ExprCode(g.cond, k, sc.locals), ExprK(g.cond, k, sc.locals);
    var p := at + |c| + 1;
    var b, b1 := BlockCode(g.block, k1, sc, p, Open(retry)), BlockCode(g.block, k1, sc, p, Shut(retry, exit));
    BlockAnyPlace(g.block, k1, sc, p, Open(retry), p, Shut(retry, exit));
    var k2, sc2, q := BlockK(g.block, k1, sc), BlockScope(g.block, sc), p + |b| + 1;
    var r, r1 := ChainCode(g.rest, k2, sc2, q, Open(retry)), ChainCode(g.rest, k2, sc2, q, Shut(retry, exit));
    ChainAnyPlace(g.rest, k2, sc2, q, Open(retry), q, Shut(retry, exit));
    var o, o1 := if g.rest.Fi? then None else Some(r), if g.rest.Fi? then None else Some(r1);
    GuardedShape(c, b, o, first);
    GuardedShape(c, b1, o1, first);
    var head := c + [GuardInst(|b|, g.rest.Fi?, first)];
    BlockFilled(g.block, k1, sc, p, retry, exit);
    var x, y := BlockBreaks(g.block, k1, sc, p, Open(retry)), ChainBreaks(g.rest, k2, sc2, q, Open(retry));
    if g.rest.Fi? {
      FiBreaks(k2, sc2, q, Open(retry));
      FilledMiddle(head, b, [], at, x, exit);
      assert x + [] == x && head + b + [] == head + b && head + b1 + [] == head + b1;
    } else {
      ChainFilled(g.rest, k2, sc2, q, retry, exit);
      GuardRestFilled(head, b, b1, [IJmp(Ahead(|r| + 1))], r, r1, at, x, y, exit);
    }
  }

  lemma {:induction false} FiBreaks(k: seq<Value>, sc: Scope, at: nat, loop: Loop)
    ensures ChainBreaks(Fi, k, sc, at, loop) == []
  {
  }

  lemma {:induction false} GuardRestFilled(head: Code, b: Code, b1: Code, j: Code, r: Code, r1: Code, at: nat,
      x: seq<nat>, y: seq<nat>, exit: nat)
    requires at + |head| + |b| + |j| + |r| <= exit && |b1| == |b| && |r1| == |r|
    requires Within(x, at + |head|, at + |head| + |b|) && Filled(b, at + |head|, x, exit) == b1
    requires Within(y, at + |head| + |b| + |j|, at + |head| + |b| + |j| + |r|)
    requires Filled(r, at + |head| + |b| + |j|, y, exit) == r1
    ensures Filled(head + b + (j + r), at, x + y, exit) == head + b1 + (j + r1)
    ensures Within(x + y, at, at + |head + b + (j + r)|)
  {
    hide Filled;
    FilledNone(head, at, exit);
    FilledNone(j, at + |head| + |b|, exit);
    FilledParts(head, b, at, [], x, exit);
    FilledParts(j, r, at + |head| + |b|, [], y, exit);
    assert [] + x == x && [] + y == y;
    FilledParts(head + b, j + r, at, x, y, exit);
  }
}
