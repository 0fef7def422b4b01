/** The code of blocks, choices and loops does what they mean. */
module VmBlocks {
  import opened Basics
  import opened ScriptSyntax
  import opened Runtime
  import opened ScriptMeaning
  import opened VmCode
  import opened VmMachine
  import opened VmExprs
  import opened VmStmts
  import opened VmSize

  function StmtSize(x: Site, s: Stmt, k: seq<Value>, sc: Scope, pc: nat): nat {
    |StmtCode(s, k, sc, pc, x.loop)|
  }

  function BlockSize(x: Site, b: Block, k: seq<Value>, sc: Scope, pc: nat): nat {
    |BlockCode(b, k, sc, pc, x.loop)|
  }

  function ChainSize(x: Site, ch: Chain, k: seq<Value>, sc: Scope, pc: nat): nat {
    |ChainCode(ch, k, sc, pc, x.loop)|
  }

  ghost predicate GuardPlaced(x: Site, g: Guard, k: seq<Value>, sc: Scope, pc: nat, first: bool) {
    At(x.c, pc, GuardCode(g, k, sc, pc, x.loop, first)) && GuardK(g, k, sc) <= x.c.kval &&
    GuardScope(g, sc).locals <= x.c.locals && GuardFits(g, k, sc) && GuardEnclosed(g, x.loop.Loop?) &&
    SiteOk(x, pc, pc + |GuardCode(g, k, sc, pc, x.loop, first)|)
  }

  // ------------------------------------------------------------------
  // Blocks
  // ------------------------------------------------------------------

  lemma {:induction false} SiteWithin(x: Site, pc: nat, q: nat, pc1: nat, q1: nat)
    requires SiteOk(x, pc, q) && pc <= pc1 && q1 <= q
    ensures SiteOk(x, pc1, q1)
  {
    hide Fits;
  }

  lemma {:induction false} ThenParts(x: Site, s: Stmt, tail: Block, k: seq<Value>, sc: Scope, pc: nat)
    requires BlockPlaced(x, Then(s, tail), k, sc, pc)
    ensures var q := pc + StmtSize(x, s, k, sc, pc);
      var k1 := StmtK(s, k, sc);
      StmtPlaced(x, s, k, sc, pc) && BlockPlaced(x, tail, k1, StmtScope(s, sc), q) &&
      q + BlockSize(x, tail, k1, StmtScope(s, sc), q) == pc + BlockSize(x, Then(s, tail), k, sc, pc)
  {
    hide At, SiteOk, StmtCode, StmtK, StmtScope, StmtFits, StmtEnclosed, BlockCode;
    var a := StmtCode(s, k, sc, pc, x.loop);
    var q, k1, sc1 := pc + |a|, StmtK(s, k, sc), StmtScope(s, sc);
    var b := BlockCode(tail, k1, sc1, q, x.loop);
    ThenCode(s, tail, k, sc, pc, x.loop);
    AtParts(x.c, pc, a, b);
    BlockKGrows(tail, k1, sc1);
    BlockGrows(tail, sc1);
    SiteWithin(x, pc, pc + |a + b|, pc, q);
    SiteWithin(x, pc, pc + |a + b|, q, q + |b|);
  }

  /** What happens after a statement that does not end as usual does not matter. */
  lemma {:induction false} EndsElse(x: Site, vm: Vm, n: nat, q: nat, q1: nat, fuel: nat, r: End)
    requires Ends(x, vm, n, q, fuel, r) && !r.Normal?
    ensures Ends(x, vm, n, q1, fuel, r)
  {
  }

  lemma {:induction false} DoneRuns(x: Site, k: seq<Value>, sc: Scope, pc: nat, st: State, fuel: nat)
    ensures Ends(x, Run(x, pc, st, 0), 0, pc + BlockSize(x, Done, k, sc, pc), fuel,
              ExecBlock(x.rt, sc, st, Room(x.stack), Done, fuel))
  {
  }

  lemma {:induction false} ThenMeans(x: Site, sc: Scope, st: State, s: Stmt, tail: Block, fuel: nat)
    ensures ExecBlock(x.rt, sc, st, Room(x.stack), Then(s, tail), fuel) ==
      var r := Exec(x.rt, sc, st, Room(x.stack), s, fuel);
      if r.Normal? then ExecBlock(x.rt, StmtScope(s, sc), r.st, Room(x.stack), tail, fuel) else r
  {
    hide Exec, StmtScope;
  }

  lemma {:induction false} BlockRuns(x: Site, b: Block, k: seq<Value>, sc: Scope, pc: nat, st: State, fuel: nat)
    returns (n: nat)
    requires BlockPlaced(x, b, k, sc, pc)
    ensures Ends(x, Run(x, pc, st, n), n, pc + BlockSize(x, b, k, sc, pc), fuel,
              ExecBlock(x.rt, sc, st, Room(x.stack), b, fuel))
    decreases fuel, b, 2
  {
    hide BlockPlaced, StmtPlaced, StmtSize, BlockSize, StmtK, StmtScope, Exec, ExecBlock, Run, Room, Ends;
    match b {
      case Done =>
        DoneRuns(x, k, sc, pc, st, fuel);
        n := 0;
      case Then(s, tail) =>
        ThenMeans(x, sc, st, s, tail, fuel);
        ThenParts(x, s, tail, k, sc, pc);
        n := StmtRuns(x, s, k, sc, pc, st, fuel);
        var r := Exec(x.rt, sc, st, Room(x.stack), s, fuel);
        var q := pc + StmtSize(x, s, k, sc, pc);
        var all := pc + BlockSize(x, b, k, sc, pc);
        if r.Normal? {
          var m := BlockRuns(x, tail, StmtK(s, k, sc), StmtScope(s, sc), q, r.st, fuel);
          NormalThen(x, pc, st, n, q, fuel, r.st, m, all,
            ExecBlock(x.rt, StmtScope(s, sc), r.st, Room(x.stack), tail, fuel));
          n := n + m;
        } else {
          EndsElse(x, Run(x, pc, st, n), n, q, all, fuel, r);
        }
    }
  }

  /** A run that ends as usual and goes on. */
  lemma {:induction false} NormalThen(x: Site, pc: nat, st: State, n: nat, q: nat, fuel: nat, st1: State, m: nat,
      q1: nat, r: End)
    requires Ends(x, Run(x, pc, st, n), n, q, fuel, Normal(st1))
    requires Ends(x, Run(x, q, st1, m), m, q1, fuel, r)
    ensures Ends(x, Run(x, pc, st, n + m), n + m, q1, fuel, r)
  {
    hide Run;
    RunThen(x, pc, st, n, q, st1, m);
    EndsLater(x, Run(x, q, st1, m), m, n + m, q1, fuel, r);
  }

  // ------------------------------------------------------------------
  // Choices
  // ------------------------------------------------------------------

  lemma {:induction false} LastGuardParts(c: Chunk, pc: nat, e: Code, b: Code, first: bool)
    requires At(c, pc, Guarded(e, b, None, first)) && |c.inst| < 0x1_0000
    ensures var q := pc + |e|;
      At(c, pc, e) && q < |c.inst| && At(c, q + 1, b) && q + 1 + |b| == pc + |Guarded(e, b, None, first)| &&
      c.inst[q] == if first then IJne(Fwd(|b| + 1)) else IPanic
  {
    AtBelow(c, pc, Guarded(e, b, None, first));
    hide At;
    var i := if first then IJne(Ahead(|b| + 1)) else IPanic;
    AtParts(c, pc, e + [i], b);
    AtParts(c, pc, e, [i]);
    AtOne(c, pc + |e|, i);
  }

  lemma {:induction false} InnerGuardShape(e: Code, b: Code, r: Code, first: bool)
    ensures Guarded(e, b, Some(r), first) == e + [IJne(Ahead(|b| + 2))] + b + [IJmp(Ahead(|r| + 1))] + r
  {
  }

  lemma {:induction false} InnerGuardParts(c: Chunk, pc: nat, e: Code, b: Code, r: Code, first: bool)
    requires At(c, pc, Guarded(e, b, Some(r), first)) && |c.inst| < 0x1_0000
    ensures var q := pc + |e|;
      At(c, pc, e) && q < |c.inst| && At(c, q + 1, b) && c.inst[q] == IJne(Fwd(|b| + 2)) &&
      q + 1 + |b| < |c.inst| && c.inst[q + 1 + |b|] == IJmp(Fwd(|r| + 1)) &&
      At(c, q + 2 + |b|, r) && q + 2 + |b| + |r| == pc + |Guarded(e, b, Some(r), first)|
  {
    hide At, Guarded;
    AtBelow(c, pc, Guarded(e, b, Some(r), first));
    var i, j := [IJne(Ahead(|b| + 2))], [IJmp(Ahead(|r| + 1))];
    InnerGuardShape(e, b, r, first);
    AtParts(c, pc, e + i + b + j, r);
    AtParts(c, pc, e + i + b, j);
    AtParts(c, pc, e + i, b);
    AtParts(c, pc, e, i);
    AtOne(c, pc + |e|, i[0]);
    AtOne(c, pc + |e + i + b|, j[0]);
  }

  /** Where the block of a guard stands, and the code that follows it. */
  function BlockAt(g: Guard, k: seq<Value>, sc: Scope, pc: nat): nat {
    pc + |ExprCode(g.cond, k, sc.locals)| + 1
  }

  function BlockEnd(x: Site, g: Guard, k: seq<Value>, sc: Scope, pc: nat): nat {
    BlockAt(g, k, sc, pc) + BlockSize(x, g.block, ExprK(g.cond, k, sc.locals), sc, BlockAt(g, k, sc, pc))
  }

  function RestK(g: Guard, k: seq<Value>, sc: Scope): seq<Value> {
    BlockK(g.block, ExprK(g.cond, k, sc.locals), sc)
  }

  function GuardEnd(x: Site, g: Guard, k: seq<Value>, sc: Scope, pc: nat, first: bool): nat {
    pc + |GuardCode(g, k, sc, pc, x.loop, first)|
  }

  lemma {:induction false} GuardShape(x: Site, g: Guard, k: seq<Value>, sc: Scope, pc: nat, first: bool)
    ensures var k1 := ExprK(g.cond, k, sc.locals);
      var sc1 := BlockScope(g.block, sc);
      GuardCode(g, k, sc, pc, x.loop, first) ==
        Guarded(ExprCode(g.cond, k, sc.locals), BlockCode(g.block, k1, sc, BlockAt(g, k, sc, pc), x.loop),
          if g.rest.Fi? then None
          else Some(ChainCode(g.rest, RestK(g, k, sc), sc1, BlockEnd(x, g, k, sc, pc) + 1, x.loop)), first) &&
      GuardK(g, k, sc) == ChainK(g.rest, RestK(g, k, sc), sc1) && GuardScope(g, sc) == ChainScope(g.rest, sc1) &&
      (GuardFits(g, k, sc) ==>
        ExprFits(g.cond, k, sc.locals) && BlockFits(g.block, k1, sc) && ChainFits(g.rest, RestK(g, k, sc), sc1))
  {
    hide ExprCode, ExprK, ExprFits, BlockCode, BlockK, BlockScope, BlockFits, ChainCode, ChainK, ChainScope, ChainFits,
      Guarded;
  }

  lemma {:induction false} GuardGrowth(g: Guard, k: seq<Value>, sc: Scope)
    ensures ExprK(g.cond, k, sc.locals) <= RestK(g, k, sc) <= GuardK(g, k, sc)
    ensures sc.locals <= BlockScope(g.block, sc).locals <= GuardScope(g, sc).locals
  {
    hide ExprK, BlockK, ChainK, BlockScope, ChainScope;
    BlockKGrows(g.block, ExprK(g.cond, k, sc.locals), sc);
    ChainKGrows(g.rest, RestK(g, k, sc), BlockScope(g.block, sc));
    BlockGrows(g.block, sc);
    ChainGrows(g.rest, BlockScope(g.block, sc));
  }

  lemma {:induction false} SiteMeans(x: Site, pc: nat, q: nat)
    requires SiteOk(x, pc, q)
    ensures Fits(x.c) && |x.stack| <= MAX_STACK && |x.c.inst| < 0x1_0000
  {
  }

  lemma {:induction false} GuardParts(x: Site, g: Guard, k: seq<Value>, sc: Scope, pc: nat, first: bool)
    requires GuardPlaced(x, g, k, sc, pc, first)
    ensures var k1 := ExprK(g.cond, k, sc.locals);
      var q, q1, q2 := BlockAt(g, k, sc, pc), BlockEnd(x, g, k, sc, pc), GuardEnd(x, g, k, sc, pc, first);
      ExprAt(x, pc, g.cond, k, sc.locals) && BlockPlaced(x, g.block, k1, sc, q) && q - 1 < |x.c.inst| &&
      q <= q1 <= q2 &&
      if g.rest.Fi? then
        q1 == q2 && x.c.inst[q - 1] == if first then IJne(Fwd(q2 - q + 1)) else IPanic
      else
        x.c.inst[q - 1] == IJne(Fwd(q1 - q + 2)) && q1 < |x.c.inst| && x.c.inst[q1] == IJmp(Fwd(q2 - q1)) &&
        ChainPlaced(x, g.rest, RestK(g, k, sc), BlockScope(g.block, sc), q1 + 1) &&
        q1 + 1 + ChainSize(x, g.rest, RestK(g, k, sc), BlockScope(g.block, sc), q1 + 1) == q2
  {
    hide At, SiteOk, Fits, GuardCode, GuardK, GuardScope, GuardFits, ExprCode, ExprK, ExprFits, BlockCode, BlockK,
      BlockScope, BlockFits, BlockEnclosed, ChainCode, ChainK, ChainScope, ChainFits, ChainEnclosed, Guarded;
    GuardShape(x, g, k, sc, pc, first);
    GuardGrowth(g, k, sc);
    var k1, sc1 := ExprK(g.cond, k, sc.locals), BlockScope(g.block, sc);
    var q, q1, q2 := BlockAt(g, k, sc, pc), BlockEnd(x, g, k, sc, pc), GuardEnd(x, g, k, sc, pc, first);
    SiteMeans(x, pc, q2);
    var e, b := ExprCode(g.cond, k, sc.locals), BlockCode(g.block, k1, sc, q, x.loop);
    if g.rest.Fi? {
      LastGuardParts(x.c, pc, e, b, first);
      SiteWithin(x, pc, q2, q, q1);
    } else {
      var r := ChainCode(g.rest, RestK(g, k, sc), sc1, q1 + 1, x.loop);
      InnerGuardParts(x.c, pc, e, b, r, first);
      SiteWithin(x, pc, q2, q, q1);
      SiteWithin(x, pc, q2, q1 + 1, q2);
    }
  }

  lemma {:induction false} JneStep(x: Site, pc: nat, st: State, off: nat, v: Value)
    requires pc < |x.c.inst| && x.c.inst[pc] == IJne(Fwd(off))
    ensures Step(x.rt, x.c, Running(pc, x.stack + [v], Cells(st.loc, x.c.locals), st.w)) ==
            Start(x, if Truth(v) then pc + 1 else pc + off, st)
  {
    assert Popped(x.stack + [v], 1) == x.stack;
  }

  lemma {:induction false} JmpStep(x: Site, pc: nat, st: State, to_: Jump)
    requires pc < |x.c.inst| && x.c.inst[pc] == IJmp(to_) && (to_.Bwd? ==> to_.off <= pc)
    ensures Step(x.rt, x.c, Start(x, pc, st)) == Start(x, if to_.Fwd? then pc + to_.off else pc - to_.off, st)
  {
  }

  lemma {:induction false} PanicStep(x: Site, pc: nat, st: State, v: Value)
    requires pc < |x.c.inst| && x.c.inst[pc] == IPanic
    ensures Step(x.rt, x.c, Running(pc, x.stack + [v], Cells(st.loc, x.c.locals), st.w)) == Crashed(st.w)
  {
  }

  lemma {:induction false} GuardMeans(x: Site, sc: Scope, st: State, g: Guard, first: bool, fuel: nat)
    ensures ExecGuard(x.rt, sc, st, Room(x.stack), g, first, fuel) ==
      match EvalAt(x, sc.locals, st, g.cond)
      case Panics(w) => Panicked(w)
      case Gives(v, w) =>
        if g.rest.Fi? && !first then Panicked(w)
        else if Truth(v) then ExecBlock(x.rt, sc, State(st.loc, w), Room(x.stack), g.block, fuel)
        else ExecChain(x.rt, BlockScope(g.block, sc), State(st.loc, w), Room(x.stack), g.rest, fuel)
  {
    hide Eval, ExecBlock, ExecChain;
  }

  /** The block of a guard, and the jump over what follows. */
  lemma {:induction false} TakenRuns(x: Site, g: Guard, k: seq<Value>, sc: Scope, pc: nat, st: State, first: bool,
      fuel: nat) returns (n: nat)
    requires GuardPlaced(x, g, k, sc, pc, first) && (first || !g.rest.Fi?)
    ensures Ends(x, Run(x, BlockAt(g, k, sc, pc), st, n), n, GuardEnd(x, g, k, sc, pc, first), fuel,
              ExecBlock(x.rt, sc, st, Room(x.stack), g.block, fuel))
    decreases fuel, g, 0
  {
    hide GuardPlaced, BlockPlaced, ChainPlaced, ExprAt, ExprK, RestK, BlockAt, BlockScope, ChainSize, GuardEnd, Run,
      Room, Step, ExecBlock;
    GuardParts(x, g, k, sc, pc, first);
    var q, q1, q2 := BlockAt(g, k, sc, pc), BlockEnd(x, g, k, sc, pc), GuardEnd(x, g, k, sc, pc, first);
    n := BlockRuns(x, g.block, ExprK(g.cond, k, sc.locals), sc, q, st, fuel);
    var r := ExecBlock(x.rt, sc, st, Room(x.stack), g.block, fuel);
    if r.Normal? && !g.rest.Fi? {
      RunNext(x, q, st, n);
      JmpStep(x, q1, r.st, Fwd(q2 - q1));
      n := n + 1;
    }
  }

  lemma {:induction false} GuardRuns(x: Site, g: Guard, k: seq<Value>, sc: Scope, pc: nat, st: State, first: bool,
      fuel: nat) returns (n: nat)
    requires GuardPlaced(x, g, k, sc, pc, first)
    ensures Ends(x, Run(x, pc, st, n), n, GuardEnd(x, g, k, sc, pc, first), fuel,
              ExecGuard(x.rt, sc, st, Room(x.stack), g, first, fuel))
    decreases fuel, g, 1
  {
    hide GuardPlaced, BlockPlaced, ChainPlaced, ExprAt, ExprCode, ExprK, RestK, BlockScope, ChainSize, BlockEnd,
      GuardEnd, Run, Room, Step, EvalAt, ExecGuard, ExecBlock, ExecChain;
    GuardParts(x, g, k, sc, pc, first);
    GuardMeans(x, sc, st, g, first, fuel);
    var q, q1, q2 := BlockAt(g, k, sc, pc), BlockEnd(x, g, k, sc, pc), GuardEnd(x, g, k, sc, pc, first);
    n := Evaluates(x, pc, st, g.cond, k, sc.locals);
    RunNext(x, pc, st, n);
    var v := EvalAt(x, sc.locals, st, g.cond);
    if v.Gives? {
      var st1 := State(st.loc, v.w);
      n := n + 1;
      if g.rest.Fi? && !first {
        PanicStep(x, q - 1, st1, v.v);
      } else {
        JneStep(x, q - 1, st1, if g.rest.Fi? then q2 - q + 1 else q1 - q + 2, v.v);
        if Truth(v.v) {
          var m := TakenRuns(x, g, k, sc, pc, st1, first, fuel);
          NormalThen(x, pc, st, n, q, fuel, st1, m, q2, ExecBlock(x.rt, sc, st1, Room(x.stack), g.block, fuel));
          n := n + m;
        } else if g.rest.Fi? {
          FiMeans(x, BlockScope(g.block, sc), st1, fuel);
        } else {
          var m := ChainRuns(x, g.rest, RestK(g, k, sc), BlockScope(g.block, sc), q1 + 1, st1, fuel);
          NormalThen(x, pc, st, n, q1 + 1, fuel, st1, m, q2,
            ExecChain(x.rt, BlockScope(g.block, sc), st1, Room(x.stack), g.rest, fuel));
          n := n + m;
        }
      }
    }
  }

  lemma {:induction false} FiMeans(x: Site, sc: Scope, st: State, fuel: nat)
    ensures ExecChain(x.rt, sc, st, Room(x.stack), Fi, fuel) == Normal(st)
  {
  }

  lemma {:induction false} ChainRuns(x: Site, ch: Chain, k: seq<Value>, sc: Scope, pc: nat, st: State, fuel: nat)
    returns (n: nat)
    requires ChainPlaced(x, ch, k, sc, pc)
    ensures Ends(x, Run(x, pc, st, n), n, pc + ChainSize(x, ch, k, sc, pc), fuel,
              ExecChain(x.rt, sc, st, Room(x.stack), ch, fuel))
    decreases fuel, ch, 0
  {
    match ch {
      case Fi =>
        RunNone(x, pc, st);
        n := 0;
      case Else(b) =>
        hide At, SiteOk, BlockCode, BlockK, BlockScope, BlockFits, BlockEnclosed, Run, ExecBlock, Ends;
        n := BlockRuns(x, b, k, sc, pc, st, fuel);
      case Elif(g) =>
        hide At, SiteOk, GuardCode, GuardK, GuardScope, GuardFits, GuardEnclosed, Run, ExecGuard, Ends;
        n := GuardRuns(x, g, k, sc, pc, st, false, fuel);
    }
  }

  // ------------------------------------------------------------------
  // Loops
  // ------------------------------------------------------------------

  /** Rounds of a loop are taken inside it. */
  function Inside(x: Site, retry: nat, exit: nat): Site {
    x.(loop := Loop(retry, Some(exit)))
  }

  /** The body of a loop at `pc`, and after it the jump that the loop ends with. */
  ghost predicate BodyPlaced(x: Site, body: Block, k: seq<Value>, sc: Scope, pc: nat, retry: nat, exit: nat) {
    BlockPlaced(Inside(x, retry, exit), body, k, sc, pc) && retry <= pc &&
    exit == pc + BlockSize(Inside(x, retry, exit), body, k, sc, pc) + 1 && exit <= |x.c.inst| &&
    x.c.inst[exit - 1] == IJmp(Bwd(exit - 1 - retry))
  }

  lemma {:induction false} InsideStart(x: Site, retry: nat, exit: nat, pc: nat, st: State, n: nat)
    ensures Run(Inside(x, retry, exit), pc, st, n) == Run(x, pc, st, n)
    ensures Start(Inside(x, retry, exit), pc, st) == Start(x, pc, st)
  {
  }

  /** The state in which a next round begins, if one does. */
  function NextRound(r: End): Option<State> {
    match r
    case Normal(st) => Some(st)
    case Continued(st) => Some(st)
    case Broke(_) | Returned(_, _) | Panicked(_) | OutOfFuel => None
  }

  /** How a loop ends whose last round ended as `r`. */
  function LastRound(r: End): End {
    if r.Broke? then Normal(r.st) else r
  }

  /** A round of the body leads to the next round, or ends the loop. */
  lemma {:induction false} BodyRuns(x: Site, body: Block, k: seq<Value>, sc: Scope, pc: nat, retry: nat, exit: nat,
      st: State, fuel: nat) returns (n: nat)
    requires BodyPlaced(x, body, k, sc, pc, retry, exit)
    ensures var r := ExecBlock(x.rt, sc, st, Room(x.stack), body, fuel);
      if NextRound(r).Some? then n > 0 && Run(x, pc, st, n) == Start(x, retry, NextRound(r).value)
      else Ends(x, Run(x, pc, st, n), n, exit, fuel, LastRound(r))
    decreases fuel, body, 3
  {
    hide BlockPlaced, BlockSize, ExecBlock, Run, Room, Step;
    var y := Inside(x, retry, exit);
    n := BlockRuns(y, body, k, sc, pc, st, fuel);
    InsideStart(x, retry, exit, pc, st, n);
    var r := ExecBlock(x.rt, sc, st, Room(x.stack), body, fuel);
    if r.Normal? {
      RunNext(x, pc, st, n);
      JmpStep(x, exit - 1, r.st, Bwd(exit - 1 - retry));
      n := n + 1;
    }
  }

  lemma {:induction false} RepeatMeans(x: Site, sc: Scope, st: State, body: Block, fuel: nat)
    requires fuel > 0
    ensures Repeat(x.rt, sc, st, Room(x.stack), body, fuel) ==
      var r := ExecBlock(x.rt, sc, st, Room(x.stack), body, fuel);
      if NextRound(r).Some? then Repeat(x.rt, sc, NextRound(r).value, Room(x.stack), body, fuel - 1)
      else LastRound(r)
  {
    hide ExecBlock;
  }

  lemma {:induction false} RepeatRuns(x: Site, body: Block, k: seq<Value>, sc: Scope, pc: nat, exit: nat, st: State,
      fuel: nat) returns (n: nat)
    requires BodyPlaced(x, body, k, sc, pc, pc, exit)
    ensures Ends(x, Run(x, pc, st, n), n, exit, fuel, Repeat(x.rt, sc, st, Room(x.stack), body, fuel))
    decreases fuel, body, 4
  {
    if fuel == 0 {
      RunNone(x, pc, st);
      n := 0;
    } else {
      hide BodyPlaced, ExecBlock, Repeat, Run, Room;
      RepeatMeans(x, sc, st, body, fuel);
      n := BodyRuns(x, body, k, sc, pc, pc, exit, st, fuel);
      var r := NextRound(ExecBlock(x.rt, sc, st, Room(x.stack), body, fuel));
      if r.Some? {
        var m := RepeatRuns(x, body, k, sc, pc, exit, r.value, fuel - 1);
        RunThen(x, pc, st, n, pc, r.value, m);
        RoundThen(x, Run(x, pc, r.value, m), m, n + m, exit, fuel,
          Repeat(x.rt, sc, r.value, Room(x.stack), body, fuel - 1));
        n := n + m;
      }
    }
  }

  /** A round takes at least a step. */
  lemma {:induction false} RoundThen(x: Site, vm: Vm, m: nat, n: nat, q: nat, fuel: nat, r: End)
    requires fuel > 0 && Ends(x, vm, m, q, fuel - 1, r) && m < n
    ensures Ends(x, vm, n, q, fuel, r)
  {
  }

  /** The call of an iterator. */
  function NextCall(it: Name): Expr {
    Call(Sym(it), Empty)
  }

  /** The instructions at the start of each round of `for name in ...`, and the body; the iterator is in local `i`. */
  ghost predicate EachPlaced(x: Site, it: Name, name: Name, body: Block, k: seq<Value>, sc: Scope, retry: nat,
      exit: nat) {
    SiteOk(x, retry, exit) && retry + 4 <= exit && sc.locals <= x.c.locals && it in sc.locals && k <= x.c.kval &&
    At(x.c, retry, CallCode(NextCall(it), k, sc.locals, 1)) &&
    x.c.inst[retry + 2] == IForeach(Fwd(exit - retry - 2)) && x.c.inst[retry + 3] == StoreCode(name, k, sc.locals) &&
    SymK(name, k, sc.locals) <= x.c.kval && BodyPlaced(x, body, SymK(name, k, sc.locals), sc, retry + 4, retry, exit)
  }

  lemma {:induction false} ForeachStep(x: Site, pc: nat, st: State, off: nat, v: Value)
    requires pc < |x.c.inst| && x.c.inst[pc] == IForeach(Fwd(off))
    ensures Step(x.rt, x.c, Running(pc, x.stack + [v], Cells(st.loc, x.c.locals), st.w)) ==
            if v == Nil then Start(x, pc + off, st) else Running(pc + 1, x.stack + [v], Cells(st.loc, x.c.locals), st.w)
  {
    assert Popped(x.stack + [v], 1) == x.stack;
  }

  function NextOf(x: Site, sc: Scope, st: State, it: Name): Outcome<seq<Value>> {
    EvalCall(x.rt, sc.locals, st.loc, st.w, Room(x.stack), NextCall(it))
  }

  lemma {:induction false} NextCallShape(it: Name, k: seq<Value>, locals: seq<Name>)
    requires it in locals
    ensures CallCode(NextCall(it), k, locals, 1) == [IPushLocal(U16(Slot(locals, it))), ICall(1, 0)]
    ensures ExprK(NextCall(it), k, locals) == k && ExprFits(NextCall(it), k, locals)
  {
    assert ExprCode(Sym(it), k, locals) == [IPushLocal(U16(Slot(locals, it)))];
    assert ExprK(Sym(it), k, locals) == k;
    assert ExprsCode(Empty, k, locals) == [] && ExprsK(Empty, k, locals) == k;
    assert ExprFits(Sym(it), k, locals);
  }

  lemma {:induction false} EachPlacedBasics(x: Site, it: Name, name: Name, body: Block, k: seq<Value>, sc: Scope,
      retry: nat, exit: nat)
    requires EachPlaced(x, it, name, body, k, sc, retry, exit)
    ensures Fits(x.c) && |x.stack| <= MAX_STACK && sc.locals <= x.c.locals && retry + 4 <= exit <= |x.c.inst|
    ensures SymK(name, k, sc.locals) <= x.c.kval
    ensures x.c.inst[retry + 2] == IForeach(Fwd(exit - retry - 2)) &&
      x.c.inst[retry + 3] == StoreCode(name, k, sc.locals)
    ensures BodyPlaced(x, body, SymK(name, k, sc.locals), sc, retry + 4, retry, exit)
    ensures CallPlaced(FrameAt(x, sc.locals, map[]), retry, NextCall(it), k, 1)
    ensures |CallCode(NextCall(it), k, sc.locals, 1)| == 2
  {
    hide At, BodyPlaced, Distinct, StoreCode, CallCode, ExprK, ExprFits;
    NextCallShape(it, k, sc.locals);
  }

  lemma {:induction false} CallAnyLocals(f: Frame, loc: Locals, pc: nat, e: Expr, k: seq<Value>, keep: nat)
    requires e.Call? || e.Method?
    ensures CallPlaced(f.(loc := loc), pc, e, k, keep) == CallPlaced(f, pc, e, k, keep)
  {
    hide At, CallCode, ExprK, ExprFits;
  }

  /** The iterator is called, and unless it left nil its value is stored. */
  lemma {:induction false} NextRuns(x: Site, it: Name, name: Name, body: Block, k: seq<Value>, sc: Scope, retry: nat,
      exit: nat, st: State) returns (n: nat)
    requires EachPlaced(x, it, name, body, k, sc, retry, exit)
    ensures n > 0 && Run(x, retry, st, n) ==
      match NextOf(x, sc, st, it)
      case Panics(w) => Crashed(w)
      case Gives(vs, w) =>
        if First(vs) == Nil then Start(x, exit, State(st.loc, w))
        else Start(x, retry + 4, Store(sc.locals, State(st.loc, w), name, First(vs)))
  {
    hide EachPlaced, Fits, CallPlaced, BodyPlaced, CallCode, SymK, StoreCode, EvalCall, Run, After, Step, Store;
    EachPlacedBasics(x, it, name, body, k, sc, retry, exit);
    CallAnyLocals(FrameAt(x, sc.locals, map[]), st.loc, retry, NextCall(it), k, 1);
    n := CallRuns(FrameAt(x, sc.locals, st.loc), NextCall(it), k, st.w, retry, x.stack, 1);
    RunIsAfter(x, retry, st, sc.locals, n);
    RunNext(x, retry, st, n);
    var r := NextOf(x, sc, st, it);
    if r.Gives? {
      var st1, v := State(st.loc, r.w), First(r.v);
      ForeachStep(x, retry + 2, st1, exit - retry - 2, v);
      RunNext(x, retry, st, n + 1);
      if v == Nil {
        n := n + 1;
      } else {
        StoreStep(x, name, k, sc.locals, retry + 3, st1, v);
        n := n + 2;
      }
    } else {
      CrashedStays(x, r.w);
      n := n + 1;
    }
  }

  lemma {:induction false} CrashedStays(x: Site, w: World)
    ensures Step(x.rt, x.c, Crashed(w)) == Crashed(w)
  {
  }

  lemma {:induction false} EachMeans(x: Site, sc: Scope, st: State, it: Name, name: Name, body: Block, fuel: nat)
    requires fuel > 0
    ensures Each(x.rt, sc, st, Room(x.stack), it, name, body, fuel) ==
      match NextOf(x, sc, st, it)
      case Panics(w) => Panicked(w)
      case Gives(vs, w) =>
        if First(vs) == Nil then Normal(State(st.loc, w))
        else
          var r := ExecBlock(x.rt, sc, Store(sc.locals, State(st.loc, w), name, First(vs)), Room(x.stack), body, fuel);
          if NextRound(r).Some? then Each(x.rt, sc, NextRound(r).value, Room(x.stack), it, name, body, fuel - 1)
          else LastRound(r)
  {
    hide ExecBlock, EvalCall, Store;
  }

  lemma {:induction false} EachRuns(x: Site, it: Name, name: Name, body: Block, k: seq<Value>, sc: Scope, retry: nat,
      exit: nat, st: State, fuel: nat) returns (n: nat)
    requires EachPlaced(x, it, name, body, k, sc, retry, exit)
    ensures Ends(x, Run(x, retry, st, n), n, exit, fuel, Each(x.rt, sc, st, Room(x.stack), it, name, body, fuel))
    decreases fuel, body, 4
  {
    hide EachPlaced, BodyPlaced, Fits, SymK, StoreCode, CallPlaced, ExecBlock, Each, Run, Room, NextOf, Store;
    if fuel == 0 {
      EachStops(x, sc, st, it, name, body);
      RunNone(x, retry, st);
      n := 0;
    } else {
      EachPlacedBasics(x, it, name, body, k, sc, retry, exit);
      EachMeans(x, sc, st, it, name, body, fuel);
      n := NextRuns(x, it, name, body, k, sc, retry, exit, st);
      var v := NextOf(x, sc, st, it);
      if v.Gives? && First(v.v) != Nil {
        var st1 := Store(sc.locals, State(st.loc, v.w), name, First(v.v));
        var m := BodyRuns(x, body, SymK(name, k, sc.locals), sc, retry + 4, retry, exit, st1, fuel);
        RunThen(x, retry, st, n, retry + 4, st1, m);
        var r := ExecBlock(x.rt, sc, st1, Room(x.stack), body, fuel);
        if NextRound(r).Some? {
          n := n + m;
          var st2 := NextRound(r).value;
          m := EachRuns(x, it, name, body, k, sc, retry, exit, st2, fuel - 1);
          RunThen(x, retry, st, n, retry, st2, m);
          RoundThen(x, Run(x, retry, st2, m), m, n + m, exit, fuel,
            Each(x.rt, sc, st2, Room(x.stack), it, name, body, fuel - 1));
          n := n + m;
        } else {
          EndsLater(x, Run(x, retry + 4, st1, m), m, n + m, exit, fuel, LastRound(r));
          n := n + m;
        }
      }
    }
  }

  lemma {:induction false} EachStops(x: Site, sc: Scope, st: State, it: Name, name: Name, body: Block)
    ensures Each(x.rt, sc, st, Room(x.stack), it, name, body, 0) == OutOfFuel
  {
  }

  // ------------------------------------------------------------------
  // Statements
  // ------------------------------------------------------------------

  lemma {:induction false} InsideOk(x: Site, pc: nat, q: nat, retry: nat, exit: nat, pc1: nat, q1: nat)
    requires SiteOk(x, pc, q) && retry <= pc1 && q1 <= exit <= q
    ensures SiteOk(Inside(x, retry, exit), pc1, q1)
  {
    hide Fits;
  }

  /** The body of a loop, with the jump that follows it. */
  lemma {:induction false} LoopParts(x: Site, body: Block, k: seq<Value>, sc: Scope, pc: nat, q: nat, at: nat,
      retry: nat, exit: nat)
    requires SiteOk(x, pc, q) && pc <= retry <= at && exit <= q
    requires exit == at + |LoopCode(body, k, sc, at, retry)| + 1
    requires At(x.c, at, LoopCode(body, k, sc, at, retry) + [IJmp(Back(exit - 1 - retry))])
    requires BlockK(body, k, sc) <= x.c.kval && BlockScope(body, sc).locals <= x.c.locals && BlockFits(body, k, sc) &&
             BlockEnclosed(body, true)
    ensures BodyPlaced(x, body, k, sc, at, retry, exit)
  {
    hide At, SiteOk, Fits, BlockCode, BlockK, BlockScope, BlockFits, BlockEnclosed;
    SiteMeans(x, pc, q);
    SiteBelow(x, pc, q);
    var b := LoopCode(body, k, sc, at, retry);
    BlockAnyPlace(body, k, sc, at, Loop(retry, None), at, Loop(retry, Some(exit)));
    AtParts(x.c, at, b, [IJmp(Back(exit - 1 - retry))]);
    AtOne(x.c, exit - 1, IJmp(Back(exit - 1 - retry)));
    BlockAnyPlace(body, k, sc, at, Loop(retry, None), at,
      Loop(retry, Some(at + |BlockCode(body, k, sc, at, Loop(retry, None))| + 1)));
    InsideOk(x, pc, q, retry, exit, at, at + |b|);
  }

  lemma {:induction false} SiteBelow(x: Site, pc: nat, q: nat)
    requires SiteOk(x, pc, q)
    ensures q <= |x.c.inst|
  {
  }

  lemma {:induction false} ForeverParts(x: Site, body: Block, k: seq<Value>, sc: Scope, pc: nat)
    requires StmtPlaced(x, Forever(body), k, sc, pc)
    ensures BodyPlaced(x, body, k, sc, pc, pc, pc + StmtSize(x, Forever(body), k, sc, pc))
  {
    hide At, SiteOk, LoopCode, BlockK, BlockScope, BlockFits, BlockEnclosed;
    var b := LoopCode(body, k, sc, pc, pc);
    assert StmtCode(Forever(body), k, sc, pc, x.loop) == b + [IJmp(Back(|b|))];
    LoopParts(x, body, k, sc, pc, pc + |b| + 1, pc, pc, pc + |b| + 1);
  }

  /** The instructions between the iterator and the body. */
  function Header(i: nat, store: Inst, size: nat): Code {
    [IStoreLocal(U16(i)), IPushLocal(U16(i)), ICall(1, 0), IForeach(Ahead(size + 3)), store]
  }

  /** The scope of a `for` before the iterator is declared, and the constants of its expression. */
  function ForScope(s: Stmt, sc: Scope): Scope
    requires s.ForIn?
  {
    DeclareIf(s.declare, sc, s.name)
  }

  function ForK(s: Stmt, k: seq<Value>, sc: Scope): seq<Value>
    requires s.ForIn?
  {
    ExprK(s.iter, k, ForScope(s, sc).locals)
  }

  function ForBody(s: Stmt, k: seq<Value>, sc: Scope, at: nat): Code
    requires s.ForIn?
  {
    var sc2 := BodyScope(ForScope(s, sc));
    LoopCode(s.body, SymK(s.name, ForK(s, k, sc), sc2.locals), sc2, at + 4, at)
  }

  /** Where the rounds of a `for` begin. */
  function ForRetry(s: Stmt, k: seq<Value>, sc: Scope, pc: nat): nat
    requires s.ForIn?
  {
    pc + |ExprCode(s.iter, k, ForScope(s, sc).locals)| + 1
  }

  lemma {:induction false} ForShape(s: Stmt, k: seq<Value>, sc: Scope, pc: nat, loop: Loop)
    requires s.ForIn?
    ensures var sc1 := ForScope(s, sc);
      var sc2 := BodyScope(sc1);
      var b := ForBody(s, k, sc, ForRetry(s, k, sc, pc));
      StmtCode(s, k, sc, pc, loop) ==
        ExprCode(s.iter, k, sc1.locals) + Header(|sc1.locals|, StoreCode(s.name, ForK(s, k, sc), sc2.locals), |b|) +
        (b + [IJmp(Back(|b| + 4))]) &&
      StmtK(s, k, sc) == BlockK(s.body, SymK(s.name, ForK(s, k, sc), sc2.locals), sc2) &&
      StmtScope(s, sc) == BlockScope(s.body, sc2) &&
      (StmtFits(s, k, sc) ==>
        ExprFits(s.iter, k, sc1.locals) && BlockFits(s.body, SymK(s.name, ForK(s, k, sc), sc2.locals), sc2)) &&
      (StmtEnclosed(s, loop.Loop?) ==> BlockEnclosed(s.body, true))
  {
    hide ExprCode, ExprK, LoopCode, BlockK, BlockScope, BlockFits, ExprFits, StoreCode, SymK, BlockEnclosed;
    var sc1 := ForScope(s, sc);
    var b := ForBody(s, k, sc, ForRetry(s, k, sc, pc));
    var c, h := ExprCode(s.iter, k, sc1.locals),
      Header(|sc1.locals|, StoreCode(s.name, ForK(s, k, sc), BodyScope(sc1).locals), |b|);
    Assoc(c + h, b, [IJmp(Back(|b| + 4))]);
  }

  lemma {:induction false} HeaderParts(c: Chunk, pc: nat, i: nat, store: Inst, size: nat)
    requires At(c, pc, Header(i, store, size)) && i < 0x1_0000 && size + 3 < 0x1_0000
    ensures pc + 5 <= |c.inst| && c.inst[pc] == IStoreLocal(i) && At(c, pc + 1, [IPushLocal(i), ICall(1, 0)])
    ensures c.inst[pc + 3] == IForeach(Fwd(size + 3)) && c.inst[pc + 4] == store
  {
    var h := Header(i, store, size);
    assert h == [h[0]] + [h[1], h[2]] + [h[3]] + [h[4]];
    hide At, Header;
    AtParts(c, pc, [h[0]] + [h[1], h[2]] + [h[3]], [h[4]]);
    AtParts(c, pc, [h[0]] + [h[1], h[2]], [h[3]]);
    AtParts(c, pc, [h[0]], [h[1], h[2]]);
    AtOne(c, pc, h[0]);
    AtOne(c, pc + 3, h[3]);
    AtOne(c, pc + 4, h[4]);
    HeaderInsts(i, store, size);
  }

  lemma {:induction false} HeaderInsts(i: nat, store: Inst, size: nat)
    requires i < 0x1_0000 && size + 3 < 0x1_0000
    ensures Header(i, store, size) == [IStoreLocal(i), IPushLocal(i), ICall(1, 0), IForeach(Fwd(size + 3)), store]
  {
  }

  /** The iterator is the last of the locals declared before the body. */
  lemma {:induction false} IterSlot(c: Chunk, sc1: Scope, body: Block)
    requires Fits(c) && BlockScope(body, BodyScope(sc1)).locals <= c.locals
    ensures |sc1.locals| < |c.locals| && c.locals[|sc1.locals|] == IterName(sc1.fors)
    ensures BodyScope(sc1).locals <= c.locals && sc1.locals <= c.locals && |c.locals| <= 0x1_0000
    ensures Slot(BodyScope(sc1).locals, IterName(sc1.fors)) == |sc1.locals|
  {
    hide BlockScope, IterName;
    BlockGrows(body, BodyScope(sc1));
    var ls, it := BodyScope(sc1).locals, IterName(sc1.fors);
    assert ls[|sc1.locals|] == it && c.locals[|sc1.locals|] == it;
    var i := Slot(ls, it);
    assert c.locals[i] == ls[i];
  }

  /** The instructions of a `for`. */
  lemma {:induction false} ForPieces(c: Chunk, s: Stmt, k: seq<Value>, sc: Scope, pc: nat, loop: Loop)
    requires s.ForIn? && At(c, pc, StmtCode(s, k, sc, pc, loop)) && |c.inst| < 0x1_0000
    requires |ForScope(s, sc).locals| < 0x1_0000
    ensures var i := |ForScope(s, sc).locals|;
      var at := ForRetry(s, k, sc, pc);
      var b := ForBody(s, k, sc, at);
      var exit := pc + |StmtCode(s, k, sc, pc, loop)|;
      exit == at + 5 + |b| && exit <= |c.inst| && c.inst[at - 1] == IStoreLocal(i) &&
      At(c, pc, ExprCode(s.iter, k, ForScope(s, sc).locals)) && At(c, at, [IPushLocal(i), ICall(1, 0)]) &&
      c.inst[at + 2] == IForeach(Fwd(|b| + 3)) &&
      c.inst[at + 3] == StoreCode(s.name, ForK(s, k, sc), BodyScope(ForScope(s, sc)).locals) &&
      At(c, at + 4, b + [IJmp(Back(|b| + 4))])
  {
    hide At, StmtCode, ForScope, ForK, ForBody, BodyScope, ExprCode, StoreCode, Header, StmtK, StmtScope, StmtFits,
      StmtEnclosed;
    ForShape(s, k, sc, pc, loop);
    AtBelow(c, pc, StmtCode(s, k, sc, pc, loop));
    var i, at := |ForScope(s, sc).locals|, ForRetry(s, k, sc, pc);
    var e, b, store := ExprCode(s.iter, k, ForScope(s, sc).locals), ForBody(s, k, sc, at),
      StoreCode(s.name, ForK(s, k, sc), BodyScope(ForScope(s, sc)).locals);
    HeaderSize(i, store, |b|);
    AtParts(c, pc, e + Header(i, store, |b|), b + [IJmp(Back(|b| + 4))]);
    AtParts(c, pc, e, Header(i, store, |b|));
    HeaderParts(c, at - 1, i, store, |b|);
  }

  lemma {:induction false} ForEachParts(x: Site, s: Stmt, k: seq<Value>, sc: Scope, pc: nat)
    requires s.ForIn? && StmtPlaced(x, s, k, sc, pc)
    ensures var sc1 := ForScope(s, sc);
      var at := ForRetry(s, k, sc, pc);
      at <= |x.c.inst| && |sc1.locals| < |x.c.locals| && x.c.locals[|sc1.locals|] == IterName(sc1.fors) && Fits(x.c) &&
      EachPlaced(x, IterName(sc1.fors), s.name, s.body, ForK(s, k, sc), BodyScope(sc1), at,
        pc + StmtSize(x, s, k, sc, pc))
  {
    hide At, SiteOk, Fits, StmtCode, StmtK, StmtScope, StmtFits, StmtEnclosed, ExprCode, ExprK, ExprFits, LoopCode,
      BlockK, BlockScope, BlockFits, BlockEnclosed, BodyPlaced, StoreCode, SymK, IterName, CallCode, ForScope, ForK;
    var sc1 := ForScope(s, sc);
    var sc2, k1 := BodyScope(sc1), ForK(s, k, sc);
    var at, exit := ForRetry(s, k, sc, pc), pc + StmtSize(x, s, k, sc, pc);
    ForShape(s, k, sc, pc, x.loop);
    SiteMeans(x, pc, exit);
    IterSlot(x.c, sc1, s.body);
    ForPieces(x.c, s, k, sc, pc, x.loop);
    ForGrowth(s, k, sc);
    LoopParts(x, s.body, SymK(s.name, k1, sc2.locals), sc2, pc, exit, at + 4, at, exit);
    SiteWithin(x, pc, exit, at, exit);
    assert IterName(sc1.fors) == sc2.locals[|sc1.locals|];
    NextCallShape(IterName(sc1.fors), k1, sc2.locals);
  }

  lemma {:induction false} ForInParts(x: Site, s: Stmt, k: seq<Value>, sc: Scope, pc: nat)
    requires s.ForIn? && StmtPlaced(x, s, k, sc, pc)
    ensures var sc1 := ForScope(s, sc);
      var at := ForRetry(s, k, sc, pc);
      ExprAt(x, pc, s.iter, k, sc1.locals) && at <= |x.c.inst| && x.c.inst[at - 1] == IStoreLocal(|sc1.locals|)
  {
    hide At, SiteOk, Fits, StmtCode, StmtK, StmtScope, StmtFits, StmtEnclosed, ExprCode, ExprK, ExprFits, BlockK,
      BlockScope, BlockFits, BlockEnclosed, StoreCode, SymK, IterName, ForScope, ForBody;
    ForShape(s, k, sc, pc, x.loop);
    SiteMeans(x, pc, pc + StmtSize(x, s, k, sc, pc));
    IterSlot(x.c, ForScope(s, sc), s.body);
    ForPieces(x.c, s, k, sc, pc, x.loop);
    ForGrowth(s, k, sc);
  }

  lemma {:induction false} HeaderSize(i: nat, store: Inst, size: nat)
    ensures |Header(i, store, size)| == 5
  {
  }

  lemma {:induction false} ForGrowth(s: Stmt, k: seq<Value>, sc: Scope)
    requires s.ForIn?
    ensures var k2 := SymK(s.name, ForK(s, k, sc), BodyScope(ForScope(s, sc)).locals);
      ForK(s, k, sc) <= k2 <= BlockK(s.body, k2, BodyScope(ForScope(s, sc)))
  {
    hide ExprK, BlockK;
    BlockKGrows(s.body, SymK(s.name, ForK(s, k, sc), BodyScope(ForScope(s, sc)).locals), BodyScope(ForScope(s, sc)));
  }

  lemma {:induction false} ForMeans(x: Site, sc: Scope, st: State, s: Stmt, fuel: nat)
    requires s.ForIn?
    ensures var sc1 := ForScope(s, sc);
      var it := IterName(sc1.fors);
      Exec(x.rt, sc, st, Room(x.stack), s, fuel) ==
      match EvalAt(x, sc1.locals, st, s.iter)
      case Panics(w) => Panicked(w)
      case Gives(v, w) => Each(x.rt, BodyScope(sc1), State(st.loc[it := v], w), Room(x.stack), it, s.name, s.body, fuel)
  {
    hide Eval, Each, IterName;
  }

  lemma {:induction false} ForInRuns(x: Site, s: Stmt, k: seq<Value>, sc: Scope, pc: nat, st: State, fuel: nat)
      returns (n: nat)
    requires s.ForIn? && StmtPlaced(x, s, k, sc, pc)
    ensures Ends(x, Run(x, pc, st, n), n, pc + StmtSize(x, s, k, sc, pc), fuel,
              Exec(x.rt, sc, st, Room(x.stack), s, fuel))
    decreases fuel, s, 1
  {
    hide StmtPlaced, EachPlaced, ExprAt, Fits, StmtSize, ExprCode, ForK, ForScope, BodyScope, IterName, EvalAt, Each,
      Exec, Run, Room, Step;
    ForInParts(x, s, k, sc, pc);
    ForEachParts(x, s, k, sc, pc);
    ForMeans(x, sc, st, s, fuel);
    var sc1 := ForScope(s, sc);
    var it, at, exit := IterName(sc1.fors), ForRetry(s, k, sc, pc), pc + StmtSize(x, s, k, sc, pc);
    n := Evaluates(x, pc, st, s.iter, k, sc1.locals);
    RunNext(x, pc, st, n);
    var v := EvalAt(x, sc1.locals, st, s.iter);
    if v.Gives? {
      var st1 := State(st.loc[it := v.v], v.w);
      LocalStep(x, at - 1, State(st.loc, v.w), |sc1.locals|, v.v);
      n := n + 1;
      var m := EachRuns(x, it, s.name, s.body, ForK(s, k, sc), BodyScope(sc1), at, exit, st1, fuel);
      NormalThen(x, pc, st, n, at, fuel, st1, m, exit,
        Each(x.rt, BodyScope(sc1), st1, Room(x.stack), it, s.name, s.body, fuel));
      n := n + m;
    }
  }

  lemma {:induction false} NopRuns(x: Site, k: seq<Value>, sc: Scope, pc: nat, st: State, fuel: nat)
    ensures Ends(x, Run(x, pc, st, 0), 0, pc + StmtSize(x, Nop, k, sc, pc), fuel,
      Exec(x.rt, sc, st, Room(x.stack), Nop, fuel))
  {
  }

  lemma {:induction false} AssignStmt(x: Site, t: Target, e: Expr, k: seq<Value>, sc: Scope, pc: nat, st: State,
      fuel: nat)
    ensures StmtPlaced(x, Assign(t, e), k, sc, pc) ==> AssignPlaced(x, pc, t, e, k, sc.locals)
    ensures StmtSize(x, Assign(t, e), k, sc, pc) == |AssignCode(t, e, k, sc.locals)|
    ensures Exec(x.rt, sc, st, Room(x.stack), Assign(t, e), fuel) ==
      ExecAssign(x.rt, sc.locals, st, Room(x.stack), t, e)
  {
    hide At, Fits, AssignCode, AssignK, AssignFits, ExecAssign, Room;
  }

  function CallStmt(s: Stmt): Expr
    requires s.DoCall? || s.DoMethod?
  {
    if s.DoCall? then Call(s.func, s.args) else Method(s.self, s.method_, s.args)
  }

  lemma {:induction false} DoStmt(x: Site, s: Stmt, k: seq<Value>, sc: Scope, pc: nat, st: State, fuel: nat)
    requires s.DoCall? || s.DoMethod?
    ensures StmtPlaced(x, s, k, sc, pc) ==> DoPlaced(x, pc, CallStmt(s), k, sc.locals)
    ensures StmtSize(x, s, k, sc, pc) == |CallCode(CallStmt(s), k, sc.locals, 0)|
    ensures Exec(x.rt, sc, st, Room(x.stack), s, fuel) == ExecCall(x.rt, sc.locals, st, Room(x.stack), CallStmt(s))
  {
    hide At, Fits, CallCode, ExprK, ExprFits, ExecCall, Room;
  }

  lemma {:induction false} VarStmt(x: Site, ds: Decls, k: seq<Value>, sc: Scope, pc: nat, st: State, fuel: nat)
    ensures StmtPlaced(x, Var(ds), k, sc, pc) ==> DeclsPlaced(x, pc, ds, k, sc.locals)
    ensures StmtSize(x, Var(ds), k, sc, pc) == |DeclsCode(ds, k, sc.locals)|
    ensures Exec(x.rt, sc, st, Room(x.stack), Var(ds), fuel) == ExecDecls(x.rt, sc.locals, st, Room(x.stack), ds)
  {
    hide At, Fits, DeclsCode, DeclsK, DeclsFit, DeclsScope, ExecDecls, Room;
    DeclsScopeAny(ds, sc.locals, 0, sc.fors);
  }

  lemma {:induction false} IfStmt(x: Site, g: Guard, k: seq<Value>, sc: Scope, pc: nat, st: State, fuel: nat)
    ensures StmtPlaced(x, If(g), k, sc, pc) ==> GuardPlaced(x, g, k, sc, pc, true)
    ensures pc + StmtSize(x, If(g), k, sc, pc) == GuardEnd(x, g, k, sc, pc, true)
    ensures Exec(x.rt, sc, st, Room(x.stack), If(g), fuel) == ExecGuard(x.rt, sc, st, Room(x.stack), g, true, fuel)
  {
    hide At, SiteOk, GuardCode, GuardK, GuardScope, GuardFits, GuardEnclosed, ExecGuard, Room;
  }

  lemma {:induction false} ForeverStmt(x: Site, body: Block, sc: Scope, st: State, fuel: nat)
    ensures Exec(x.rt, sc, st, Room(x.stack), Forever(body), fuel) == Repeat(x.rt, sc, st, Room(x.stack), body, fuel)
  {
    hide Repeat, Room;
  }

  lemma {:induction false} GotoStmt(x: Site, s: Stmt, k: seq<Value>, sc: Scope, pc: nat)
    requires s == Break || s == Continue
    ensures StmtSize(x, s, k, sc, pc) == 1
  {
  }

  /** The code of a statement does what the statement means: it ends at the end of its code, at the end or at
      the next round of the loop around it, with the chunk, or in a panic, just as the statement does, in the same
      state; and it takes at least as many steps as there was fuel if that does not suffice. */
  lemma {:induction false} StmtRuns(x: Site, s: Stmt, k: seq<Value>, sc: Scope, pc: nat, st: State, fuel: nat)
      returns (n: nat)
    requires StmtPlaced(x, s, k, sc, pc)
    ensures Ends(x, Run(x, pc, st, n), n, pc + StmtSize(x, s, k, sc, pc), fuel,
              Exec(x.rt, sc, st, Room(x.stack), s, fuel))
    decreases fuel, s, 2
  {
    hide StmtPlaced, AssignPlaced, DoPlaced, DeclsPlaced, GuardPlaced, BodyPlaced, GuardEnd, StmtCode, AssignCode,
      CallCode, DeclsCode, ExecAssign, ExecCall, ExecDecls, ExecGuard, Repeat, Run, Room, Exec, Ends;
    match s {
      case Nop =>
        NopRuns(x, k, sc, pc, st, fuel);
        n := 0;
      case Assign(t, e) =>
        AssignStmt(x, t, e, k, sc, pc, st, fuel);
        n := AssignRuns(x, pc, st, t, e, k, sc.locals, fuel);
      case DoCall(_, _) =>
        DoStmt(x, s, k, sc, pc, st, fuel);
        n := DoRuns(x, pc, st, CallStmt(s), k, sc.locals, fuel);
      case DoMethod(_, _, _) =>
        DoStmt(x, s, k, sc, pc, st, fuel);
        n := DoRuns(x, pc, st, CallStmt(s), k, sc.locals, fuel);
      case Var(ds) =>
        VarStmt(x, ds, k, sc, pc, st, fuel);
        n := DeclsRun(x, pc, st, ds, k, sc.locals, fuel);
      case If(g) =>
        IfStmt(x, g, k, sc, pc, st, fuel);
        n := GuardRuns(x, g, k, sc, pc, st, true, fuel);
      case Forever(body) =>
        ForeverParts(x, body, k, sc, pc);
        ForeverStmt(x, body, sc, st, fuel);
        n := RepeatRuns(x, body, k, sc, pc, pc + StmtSize(x, s, k, sc, pc), st, fuel);
      case ForIn(_, _, _, _) => n := ForInRuns(x, s, k, sc, pc, st, fuel);
      case Break =>
        GotoStmt(x, s, k, sc, pc);
        GotoRuns(x, pc, st, s, k, sc, fuel);
        n := 1;
      case Continue =>
        GotoStmt(x, s, k, sc, pc);
        GotoRuns(x, pc, st, s, k, sc, fuel);
        n := 1;
      case Return(e) => n := ReturnRuns(x, pc, st, e, k, sc, fuel);
    }
  }
}
