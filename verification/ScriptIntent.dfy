/** What `if` is meant to do: when no condition of a chain holds and there is no `else`, control goes on behind
    the chain. The compiler leaves out the jump over the block of a last `elif`, and so the machine panics there;
    the two meanings are compared here. */
module ScriptIntent {
  import opened Basics
  import opened ScriptSyntax
  import opened Runtime
  import opened ScriptMeaning

  // ------------------------------------------------------------------
  // The intended meaning
  // ------------------------------------------------------------------

  function Intend(rt: Runtime, sc: Scope, st: State, room: nat, s: Stmt, fuel: nat): End
    decreases fuel, s, 0
  {
    match s
    case If(g) => IntendGuard(rt, sc, st, room, g, fuel)
    case Forever(body) => IntendRepeat(rt, sc, st, room, body, fuel)
    case ForIn(declare, x, e, body) =>
      var sc1 := DeclareIf(declare, sc, x);
      var it := IterName(sc1.fors);
      (match Eval(rt, sc1.locals, st.loc, st.w, room, e)
       case Panics(w) => Panicked(w)
       case Gives(v, w) => IntendEach(rt, BodyScope(sc1), State(st.loc[it := v], w), room, it, x, body, fuel))
    case Nop | Assign(_, _) | DoCall(_, _) | DoMethod(_, _, _) | Var(_) | Break | Continue | Return(_) =>
      Exec(rt, sc, st, room, s, fuel)
  }

  function IntendBlock(rt: Runtime, sc: Scope, st: State, room: nat, b: Block, fuel: nat): End
    decreases fuel, b, 0
  {
    match b
    case Done => Normal(st)
    case Then(s, tail) =>
      var r := Intend(rt, sc, st, room, s, fuel);
      if r.Normal? then IntendBlock(rt, StmtScope(s, sc), r.st, room, tail, fuel) else r
  }

  function IntendChain(rt: Runtime, sc: Scope, st: State, room: nat, c: Chain, fuel: nat): End
    decreases fuel, c, 0
  {
    match c
    case Fi => Normal(st)
    case Else(b) => IntendBlock(rt, sc, st, room, b, fuel)
    case Elif(g) => IntendGuard(rt, sc, st, room, g, fuel)
  }

  /** The block if the condition holds, and what follows otherwise. */
  function IntendGuard(rt: Runtime, sc: Scope, st: State, room: nat, g: Guard, fuel: nat): End
    decreases fuel, g, 0
  {
    match Eval(rt, sc.locals, st.loc, st.w, room, g.cond)
    case Panics(w) => Panicked(w)
    case Gives(v, w) =>
      if Truth(v) then IntendBlock(rt, sc, State(st.loc, w), room, g.block, fuel)
      else IntendChain(rt, BlockScope(g.block, sc), State(st.loc, w), room, g.rest, fuel)
  }

  function IntendRepeat(rt: Runtime, sc: Scope, st: State, room: nat, body: Block, fuel: nat): End
    decreases fuel, body, 1
  {
    if fuel == 0 then OutOfFuel
    else
      match IntendBlock(rt, sc, st, room, body, fuel)
      case Broke(st1) => Normal(st1)
      case Normal(st1) => IntendRepeat(rt, sc, st1, room, body, fuel - 1)
      case Continued(st1) => IntendRepeat(rt, sc, st1, room, body, fuel - 1)
      case Returned(v, w) => Returned(v, w)
      case Panicked(w) => Panicked(w)
      case OutOfFuel => OutOfFuel
  }

  function IntendEach(rt: Runtime, sc: Scope, st: State, room: nat, it: Name, x: Name, body: Block, fuel: nat): End
    decreases fuel, body, 1
  {
    if fuel == 0 then OutOfFuel
    else
      match EvalCall(rt, sc.locals, st.loc, st.w, room, Call(Sym(it), Empty))
      case Panics(w) => Panicked(w)
      case Gives(vs, w) =>
        if First(vs) == Nil then Normal(State(st.loc, w))
        else
          match IntendBlock(rt, sc, Store(sc.locals, State(st.loc, w), x, First(vs)), room, body, fuel)
          case Broke(st1) => Normal(st1)
          case Normal(st1) => IntendEach(rt, sc, st1, room, it, x, body, fuel - 1)
          case Continued(st1) => IntendEach(rt, sc, st1, room, it, x, body, fuel - 1)
          case Returned(v, w1) => Returned(v, w1)
          case Panicked(w1) => Panicked(w1)
          case OutOfFuel => OutOfFuel
  }

  // ------------------------------------------------------------------
  // Where the two part
  // ------------------------------------------------------------------

  /** The world when an intended run first has computed the condition of a last `elif` with no `else` after it. */
  function StmtDeparts(rt: Runtime, sc: Scope, st: State, room: nat, s: Stmt, fuel: nat): Option<World>
    decreases fuel, s, 0
  {
    match s
    case If(g) => GuardDeparts(rt, sc, st, room, g, true, fuel)
    case Forever(body) => RepeatDeparts(rt, sc, st, room, body, fuel)
    case ForIn(declare, x, e, body) =>
      var sc1 := DeclareIf(declare, sc, x);
      var it := IterName(sc1.fors);
      (match Eval(rt, sc1.locals, st.loc, st.w, room, e)
       case Panics(_) => None
       case Gives(v, w) => EachDeparts(rt, BodyScope(sc1), State(st.loc[it := v], w), room, it, x, body, fuel))
    case Nop | Assign(_, _) | DoCall(_, _) | DoMethod(_, _, _) | Var(_) | Break | Continue | Return(_) => None
  }

  function BlockDeparts(rt: Runtime, sc: Scope, st: State, room: nat, b: Block, fuel: nat): Option<World>
    decreases fuel, b, 0
  {
    match b
    case Done => None
    case Then(s, tail) =>
      var p := StmtDeparts(rt, sc, st, room, s, fuel);
      var r := Intend(rt, sc, st, room, s, fuel);
      if p.Some? then p
      else if r.Normal? then BlockDeparts(rt, StmtScope(s, sc), r.st, room, tail, fuel) else None
  }

  function ChainDeparts(rt: Runtime, sc: Scope, st: State, room: nat, c: Chain, fuel: nat): Option<World>
    decreases fuel, c, 0
  {
    match c
    case Fi => None
    case Else(b) => BlockDeparts(rt, sc, st, room, b, fuel)
    case Elif(g) => GuardDeparts(rt, sc, st, room, g, false, fuel)
  }

  function GuardDeparts(rt: Runtime, sc: Scope, st: State, room: nat, g: Guard, first: bool, fuel: nat): Option<World>
    decreases fuel, g, 0
  {
    match Eval(rt, sc.locals, st.loc, st.w, room, g.cond)
    case Panics(_) => None
    case Gives(v, w) =>
      if g.rest.Fi? && !first then Some(w)
      else if Truth(v) then BlockDeparts(rt, sc, State(st.loc, w), room, g.block, fuel)
      else ChainDeparts(rt, BlockScope(g.block, sc), State(st.loc, w), room, g.rest, fuel)
  }

  function RepeatDeparts(rt: Runtime, sc: Scope, st: State, room: nat, body: Block, fuel: nat): Option<World>
    decreases fuel, body, 1
  {
    if fuel == 0 then None
    else
      var p := BlockDeparts(rt, sc, st, room, body, fuel);
      var r := IntendBlock(rt, sc, st, room, body, fuel);
      if p.Some? then p
      else if r.Normal? || r.Continued? then RepeatDeparts(rt, sc, r.st, room, body, fuel - 1) else None
  }

  function EachDeparts(rt: Runtime, sc: Scope, st: State, room: nat, it: Name, x: Name, body: Block,
      fuel: nat): Option<World>
    decreases fuel, body, 1
  {
    if fuel == 0 then None
    else
      match EvalCall(rt, sc.locals, st.loc, st.w, room, Call(Sym(it), Empty))
      case Panics(_) => None
      case Gives(vs, w) =>
        if First(vs) == Nil then None
        else
          var st1 := Store(sc.locals, State(st.loc, w), x, First(vs));
          var p := BlockDeparts(rt, sc, st1, room, body, fuel);
          var r := IntendBlock(rt, sc, st1, room, body, fuel);
          if p.Some? then p
          else if r.Normal? || r.Continued? then EachDeparts(rt, sc, r.st, room, it, x, body, fuel - 1) else None
  }

  /** A run as it was meant, unless it parts from that with a panic. */
  function Parting(p: Option<World>, r: End): End {
    if p.Some? then Panicked(p.value) else r
  }

  /** What is written does what is meant, up to where it panics: when it has computed the condition of a last
      `elif` with no `else` after it. */
  lemma {:induction false} StmtAsMeant(rt: Runtime, sc: Scope, st: State, room: nat, s: Stmt, fuel: nat)
    ensures Exec(rt, sc, st, room, s, fuel) ==
      Parting(StmtDeparts(rt, sc, st, room, s, fuel), Intend(rt, sc, st, room, s, fuel))
    decreases fuel, s, 0
  {
    match s {
      case If(g) => GuardAsMeant(rt, sc, st, room, g, true, fuel);
      case Forever(body) => RepeatAsMeant(rt, sc, st, room, body, fuel);
      case ForIn(declare, x, e, body) =>
        hide EachDeparts, IntendEach, Each;
        var sc1 := DeclareIf(declare, sc, x);
        var it := IterName(sc1.fors);
        match Eval(rt, sc1.locals, st.loc, st.w, room, e) {
          case Panics(_) =>
          case Gives(v, w) => EachAsMeant(rt, BodyScope(sc1), State(st.loc[it := v], w), room, it, x, body, fuel);
        }
      case Nop | Assign(_, _) | DoCall(_, _) | DoMethod(_, _, _) | Var(_) | Break | Continue | Return(_) =>
    }
  }

  lemma {:induction false} BlockAsMeant(rt: Runtime, sc: Scope, st: State, room: nat, b: Block, fuel: nat)
    ensures ExecBlock(rt, sc, st, room, b, fuel) ==
      Parting(BlockDeparts(rt, sc, st, room, b, fuel), IntendBlock(rt, sc, st, room, b, fuel))
    decreases fuel, b, 0
  {
    hide Exec, Intend, StmtDeparts;
    if b.Then? {
      StmtAsMeant(rt, sc, st, room, b.head, fuel);
      var r := Intend(rt, sc, st, room, b.head, fuel);
      if r.Normal? { BlockAsMeant(rt, StmtScope(b.head, sc), r.st, room, b.tail, fuel); }
    }
  }

  lemma {:induction false} ChainAsMeant(rt: Runtime, sc: Scope, st: State, room: nat, c: Chain, fuel: nat)
    ensures ExecChain(rt, sc, st, room, c, fuel) ==
      Parting(ChainDeparts(rt, sc, st, room, c, fuel), IntendChain(rt, sc, st, room, c, fuel))
    decreases fuel, c, 0
  {
    match c {
      case Fi =>
      case Else(b) => BlockAsMeant(rt, sc, st, room, b, fuel);
      case Elif(g) => GuardAsMeant(rt, sc, st, room, g, false, fuel);
    }
  }

  lemma {:induction false} GuardAsMeant(rt: Runtime, sc: Scope, st: State, room: nat, g: Guard, first: bool, fuel: nat)
    ensures ExecGuard(rt, sc, st, room, g, first, fuel) ==
      Parting(GuardDeparts(rt, sc, st, room, g, first, fuel), IntendGuard(rt, sc, st, room, g, fuel))
    decreases fuel, g, 0
  {
    hide Eval, ExecBlock, IntendBlock, BlockDeparts, ExecChain, IntendChain, ChainDeparts;
    match Eval(rt, sc.locals, st.loc, st.w, room, g.cond) {
      case Panics(_) =>
      case Gives(v, w) =>
        BlockAsMeant(rt, sc, State(st.loc, w), room, g.block, fuel);
        ChainAsMeant(rt, BlockScope(g.block, sc), State(st.loc, w), room, g.rest, fuel);
    }
  }

  lemma {:induction false} RepeatAsMeant(rt: Runtime, sc: Scope, st: State, room: nat, body: Block, fuel: nat)
    ensures Repeat(rt, sc, st, room, body, fuel) ==
      Parting(RepeatDeparts(rt, sc, st, room, body, fuel), IntendRepeat(rt, sc, st, room, body, fuel))
    decreases fuel, body, 1
  {
    hide ExecBlock, IntendBlock, BlockDeparts;
    if fuel > 0 {
      BlockAsMeant(rt, sc, st, room, body, fuel);
      var r := IntendBlock(rt, sc, st, room, body, fuel);
      if r.Normal? || r.Continued? { RepeatAsMeant(rt, sc, r.st, room, body, fuel - 1); }
    }
  }

  lemma {:induction false} EachAsMeant(rt: Runtime, sc: Scope, st: State, room: nat, it: Name, x: Name, body: Block,
      fuel: nat)
    ensures Each(rt, sc, st, room, it, x, body, fuel) ==
      Parting(EachDeparts(rt, sc, st, room, it, x, body, fuel), IntendEach(rt, sc, st, room, it, x, body, fuel))
    decreases fuel, body, 1
  {
    hide ExecBlock, IntendBlock, BlockDeparts, EvalCall;
    if fuel > 0 {
      match EvalCall(rt, sc.locals, st.loc, st.w, room, Call(Sym(it), Empty)) {
        case Panics(_) =>
        case Gives(vs, w) =>
          var st1 := Store(sc.locals, State(st.loc, w), x, First(vs));
          BlockAsMeant(rt, sc, st1, room, body, fuel);
          var r := IntendBlock(rt, sc, st1, room, body, fuel);
          if r.Normal? || r.Continued? { EachAsMeant(rt, sc, r.st, room, it, x, body, fuel - 1); }
      }
    }
  }

  // ------------------------------------------------------------------
  // Programs whose chains are closed
  // ------------------------------------------------------------------

  lemma {:induction false} StmtNeverDeparts(rt: Runtime, sc: Scope, st: State, room: nat, s: Stmt, fuel: nat)
    requires StmtClosed(s)
    ensures StmtDeparts(rt, sc, st, room, s, fuel) == None
    decreases fuel, s, 0
  {
    match s {
      case If(g) => GuardNeverDeparts(rt, sc, st, room, g, true, fuel);
      case Forever(body) => RepeatNeverDeparts(rt, sc, st, room, body, fuel);
      case ForIn(declare, x, e, body) =>
        hide EachDeparts;
        var sc1 := DeclareIf(declare, sc, x);
        var it := IterName(sc1.fors);
        match Eval(rt, sc1.locals, st.loc, st.w, room, e) {
          case Panics(_) =>
          case Gives(v, w) => EachNeverDeparts(rt, BodyScope(sc1), State(st.loc[it := v], w), room, it, x, body, fuel);
        }
      case Nop | Assign(_, _) | DoCall(_, _) | DoMethod(_, _, _) | Var(_) | Break | Continue | Return(_) =>
    }
  }

  /** With an `else` after every last `elif`, what is written does what is meant. */
  lemma {:induction false} BlockNeverDeparts(rt: Runtime, sc: Scope, st: State, room: nat, b: Block, fuel: nat)
    requires BlockClosed(b)
    ensures BlockDeparts(rt, sc, st, room, b, fuel) == None
    decreases fuel, b, 0
  {
    hide Intend, StmtDeparts;
    if b.Then? {
      StmtNeverDeparts(rt, sc, st, room, b.head, fuel);
      var r := Intend(rt, sc, st, room, b.head, fuel);
      if r.Normal? { BlockNeverDeparts(rt, StmtScope(b.head, sc), r.st, room, b.tail, fuel); }
    }
  }

  lemma {:induction false} ChainNeverDeparts(rt: Runtime, sc: Scope, st: State, room: nat, c: Chain, fuel: nat)
    requires ChainClosed(c)
    ensures ChainDeparts(rt, sc, st, room, c, fuel) == None
    decreases fuel, c, 0
  {
    match c {
      case Fi =>
      case Else(b) => BlockNeverDeparts(rt, sc, st, room, b, fuel);
      case Elif(g) => GuardNeverDeparts(rt, sc, st, room, g, false, fuel);
    }
  }

  lemma {:induction false} GuardNeverDeparts(rt: Runtime, sc: Scope, st: State, room: nat, g: Guard, first: bool,
      fuel: nat)
    requires GuardClosed(g, first)
    ensures GuardDeparts(rt, sc, st, room, g, first, fuel) == None
    decreases fuel, g, 0
  {
    hide Eval, BlockDeparts, ChainDeparts;
    match Eval(rt, sc.locals, st.loc, st.w, room, g.cond) {
      case Panics(_) =>
      case Gives(v, w) =>
        BlockNeverDeparts(rt, sc, State(st.loc, w), room, g.block, fuel);
        ChainNeverDeparts(rt, BlockScope(g.block, sc), State(st.loc, w), room, g.rest, fuel);
    }
  }

  lemma {:induction false} RepeatNeverDeparts(rt: Runtime, sc: Scope, st: State, room: nat, body: Block, fuel: nat)
    requires BlockClosed(body)
    ensures RepeatDeparts(rt, sc, st, room, body, fuel) == None
    decreases fuel, body, 1
  {
    hide IntendBlock, BlockDeparts;
    if fuel > 0 {
      BlockNeverDeparts(rt, sc, st, room, body, fuel);
      var r := IntendBlock(rt, sc, st, room, body, fuel);
      if r.Normal? || r.Continued? { RepeatNeverDeparts(rt, sc, r.st, room, body, fuel - 1); }
    }
  }

  lemma {:induction false} EachNeverDeparts(rt: Runtime, sc: Scope, st: State, room: nat, it: Name, x: Name,
      body: Block, fuel: nat)
    requires BlockClosed(body)
    ensures EachDeparts(rt, sc, st, room, it, x, body, fuel) == None
    decreases fuel, body, 1
  {
    hide IntendBlock, BlockDeparts, EvalCall;
    if fuel > 0 {
      match EvalCall(rt, sc.locals, st.loc, st.w, room, Call(Sym(it), Empty)) {
        case Panics(_) =>
        case Gives(vs, w) =>
          var st1 := Store(sc.locals, State(st.loc, w), x, First(vs));
          BlockNeverDeparts(rt, sc, st1, room, body, fuel);
          var r := IntendBlock(rt, sc, st1, room, body, fuel);
          if r.Normal? || r.Continued? { EachNeverDeparts(rt, sc, r.st, room, it, x, body, fuel - 1); }
      }
    }
  }

  // ------------------------------------------------------------------
  // Whole programs
  // ------------------------------------------------------------------

  /** A run differs from what was meant exactly if it comes to compute the condition of a last `elif` with no
      `else` after it, and would not have panicked right there for another reason. */
  lemma {:induction false} DiffersWhen(rt: Runtime, sc: Scope, st: State, room: nat, b: Block, fuel: nat)
    ensures var p, r := BlockDeparts(rt, sc, st, room, b, fuel), IntendBlock(rt, sc, st, room, b, fuel);
      (ExecBlock(rt, sc, st, room, b, fuel) != r <==> p.Some? && r != Panicked(p.value)) &&
      (p.Some? ==> ExecBlock(rt, sc, st, room, b, fuel) == Panicked(p.value)) && (BlockClosed(b) ==> p == None)
  {
    hide ExecBlock, IntendBlock, BlockDeparts;
    BlockAsMeant(rt, sc, st, room, b, fuel);
    if BlockClosed(b) { BlockNeverDeparts(rt, sc, st, room, b, fuel); }
  }

  /** `if nil {} elif nil {}`. */
  function OpenElif(): Block {
    var g := Guard(Lit(NilLit), Done, Fi);
    Then(If(Guard(Lit(NilLit), Done, Elif(g))), Done)
  }

  /** A program that is meant to do nothing, and panics. */
  lemma {:induction false} OpenElifPanics(rt: Runtime, sc: Scope, st: State, room: nat, fuel: nat)
    requires room > 0
    ensures IntendBlock(rt, sc, st, room, OpenElif(), fuel) == Normal(st)
    ensures ExecBlock(rt, sc, st, room, OpenElif(), fuel) == Panicked(st.w)
  {
    var g := Guard(Lit(NilLit), Done, Fi);
    var g1 := Guard(Lit(NilLit), Done, Elif(g));
    assert Eval(rt, sc.locals, st.loc, st.w, room, Lit(NilLit)) == Gives(Nil, st.w);
    assert BlockScope(Done, sc) == sc && State(st.loc, st.w) == st;
    assert IntendGuard(rt, sc, st, room, g, fuel) == IntendChain(rt, sc, st, room, Fi, fuel);
    assert IntendGuard(rt, sc, st, room, g1, fuel) == IntendChain(rt, sc, st, room, Elif(g), fuel);
    assert ExecGuard(rt, sc, st, room, g, false, fuel) == Panicked(st.w);
    assert ExecGuard(rt, sc, st, room, g1, true, fuel) == ExecChain(rt, sc, st, room, Elif(g), fuel);
    assert Intend(rt, sc, st, room, If(g1), fuel) == Normal(st) &&
      Exec(rt, sc, st, room, If(g1), fuel) == Panicked(st.w);
  }
}
