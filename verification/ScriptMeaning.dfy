/** What scripts mean: expressions have values, statements change the locals and the world. */
module ScriptMeaning {
  import opened ScriptSyntax
  import opened Runtime

  // ------------------------------------------------------------------
  // Expressions
  // ------------------------------------------------------------------

  type Locals = map<Name, Value>

  /** A local that was never stored is nil. */
  function Local(loc: Locals, x: Name): Value {
    if x in loc then loc[x] else Nil
  }

  /** A name is a local if it was declared before this place in the text, and a global otherwise. */
  function Lookup(locals: seq<Name>, loc: Locals, w: World, x: Name): Value {
    if x in locals then Local(loc, x) else Global(w, x)
  }

  /** A value needs a free cell on the operand stack. */
  function Push(room: nat, v: Value, w: World): Outcome<Value> {
    if room == 0 then Panics(w) else Gives(v, w)
  }

  /** The value of an expression when `room` cells of the operand stack are free. */
  function Eval(rt: Runtime, locals: seq<Name>, loc: Locals, w: World, room: nat, e: Expr): (r: Outcome<Value>)
    ensures r.Gives? ==> room > 0
    decreases e, 1
  {
    match e
    case Lit(c) => Push(room, LiteralValue(c), w)
    case Sym(x) => Push(room, Lookup(locals, loc, w, x), w)
    case Unary(op, a) => (
      match Eval(rt, locals, loc, w, room, a)
      case Panics(w1) => Panics(w1)
      case Gives(v, w1) => Apply(rt, w1, op, v))
    case Binary(op, l, r) => (
      match Eval(rt, locals, loc, w, room, l)
      case Panics(w1) => Panics(w1)
      case Gives(v, w1) =>
        if op == And then
          if Truth(v) then Eval(rt, locals, loc, w1, room, r) else Gives(v, w1)
        else if op == Or then
          if Truth(v) then Gives(v, w1) else Eval(rt, locals, loc, w1, room, r)
        else
          match Eval(rt, locals, loc, w1, room - 1, r)
          case Panics(w2) => Panics(w2)
          case Gives(u, w2) => Operate(rt, w2, op, v, u))
    case Field(obj, x) => (
      match Eval(rt, locals, loc, w, room, obj)
      case Panics(w1) => Panics(w1)
      case Gives(v, w1) => rt.get(w1, v, Str(x)))
    case Index(obj, key) => (
      match Eval(rt, locals, loc, w, room, obj)
      case Panics(w1) => Panics(w1)
      case Gives(v, w1) =>
        match Eval(rt, locals, loc, w1, room - 1, key)
        case Panics(w2) => Panics(w2)
        case Gives(u, w2) => rt.get(w2, v, u))
    case Call(_, _) => One(EvalCall(rt, locals, loc, w, room, e))
    case Method(_, _, _) => One(EvalCall(rt, locals, loc, w, room, e))
    case Array(es) => (
      match EvalAll(rt, locals, loc, w, room, es)
      case Panics(w1) => Panics(w1)
      case Gives(vs, w1) => Alloc(rt, room, vs, w1))
  }

  function One(r: Outcome<seq<Value>>): Outcome<Value> {
    match r
    case Panics(w) => Panics(w)
    case Gives(vs, w) => Gives(First(vs), w)
  }

  function Alloc(rt: Runtime, room: nat, vs: seq<Value>, w: World): Outcome<Value> {
    match rt.newArray(w, vs)
    case Panics(w1) => Panics(w1)
    case Gives(v, w1) => Push(room, v, w1)
  }

  /** All the values a call leaves; the operands are off the stack when the callee runs. */
  function EvalCall(rt: Runtime, locals: seq<Name>, loc: Locals, w: World, room: nat, e: Expr): (r: Outcome<seq<Value>>)
    requires e.Call? || e.Method?
    ensures r.Gives? ==> room > 0
    decreases e, 0
  {
    match Eval(rt, locals, loc, w, room, if e.Call? then e.func else e.self)
    case Panics(w1) => Panics(w1)
    case Gives(v, w1) =>
      match EvalAll(rt, locals, loc, w1, room - 1, e.args)
      case Panics(w2) => Panics(w2)
      case Gives(vs, w2) =>
        if e.Call? then rt.call(w2, room, v, vs)
        else
          match rt.get(w2, v, Str(e.method_))
          case Panics(w3) => Panics(w3)
          case Gives(f, w3) => rt.call(w3, room, f, [v] + vs)
  }

  function EvalAll(rt: Runtime, locals: seq<Name>, loc: Locals, w: World, room: nat,
      es: Exprs): (r: Outcome<seq<Value>>)
    ensures r.Gives? ==> |r.v| == Count(es) <= room
    decreases es
  {
    match es
    case Empty => Gives([], w)
    case More(e, tail) =>
      match Eval(rt, locals, loc, w, room, e)
      case Panics(w1) => Panics(w1)
      case Gives(v, w1) =>
        match EvalAll(rt, locals, loc, w1, room - 1, tail)
        case Panics(w2) => Panics(w2)
        case Gives(vs, w2) => Gives([v] + vs, w2)
  }

  // ------------------------------------------------------------------
  // Statements
  // ------------------------------------------------------------------

  datatype State = State(loc: Locals, w: World)

  /** How a statement ends; `OutOfFuel` if it went round some loop too often. */
  datatype End =
    | Normal(st: State)
    | Broke(st: State)
    | Continued(st: State)
    | Returned(v: Value, w: World)
    | Panicked(w: World)
    | OutOfFuel

  function Store(locals: seq<Name>, st: State, x: Name, v: Value): State {
    if x in locals then st.(loc := st.loc[x := v]) else st.(w := SetGlobal(st.w, x, v))
  }

  function ExecAssign(rt: Runtime, locals: seq<Name>, st: State, room: nat, t: Target, e: Expr): End {
    match t
    case ToSym(x) => (
      match Eval(rt, locals, st.loc, st.w, room, e)
      case Panics(w1) => Panicked(w1)
      case Gives(v, w1) => Normal(Store(locals, State(st.loc, w1), x, v)))
    case ToField(obj, x) => (
      match Eval(rt, locals, st.loc, st.w, room, obj)
      case Panics(w1) => Panicked(w1)
      case Gives(o, w1) =>
        match Eval(rt, locals, st.loc, w1, room - 1, e)
        case Panics(w2) => Panicked(w2)
        case Gives(v, w2) => Put(st.loc, rt.put(w2, o, Str(x), v)))
    case ToIndex(obj, key) =>
      match Eval(rt, locals, st.loc, st.w, room, obj)
      case Panics(w1) => Panicked(w1)
      case Gives(o, w1) =>
        match Eval(rt, locals, st.loc, w1, room - 1, key)
        case Panics(w2) => Panicked(w2)
        case Gives(k, w2) =>
          match Eval(rt, locals, st.loc, w2, room - 2, e)
          case Panics(w3) => Panicked(w3)
          case Gives(v, w3) => Put(st.loc, rt.put(w3, o, k, v))
  }

  function Put(loc: Locals, r: Outcome<()>): End {
    match r
    case Panics(w) => Panicked(w)
    case Gives(_, w) => Normal(State(loc, w))
  }

  function ExecCall(rt: Runtime, locals: seq<Name>, st: State, room: nat, e: Expr): End
    requires e.Call? || e.Method?
  {
    match EvalCall(rt, locals, st.loc, st.w, room, e)
    case Panics(w) => Panicked(w)
    case Gives(_, w) => Normal(State(st.loc, w))
  }

  /** A declared name keeps what it held if it is given no value. */
  function ExecDecls(rt: Runtime, locals: seq<Name>, st: State, room: nat, ds: Decls): End
    decreases ds
  {
    match ds
    case NoDecl => Normal(st)
    case Decl(x, None, rest) => ExecDecls(rt, locals + [x], st, room, rest)
    case Decl(x, Some(e), rest) =>
      match Eval(rt, locals + [x], st.loc, st.w, room, e)
      case Panics(w) => Panicked(w)
      case Gives(v, w) => ExecDecls(rt, locals + [x], State(st.loc[x := v], w), room, rest)
  }

  function Exec(rt: Runtime, sc: Scope, st: State, room: nat, s: Stmt, fuel: nat): End
    decreases fuel, s, 0
  {
    match s
    case Nop => Normal(st)
    case Assign(t, e) => ExecAssign(rt, sc.locals, st, room, t, e)
    case DoCall(f, args) => ExecCall(rt, sc.locals, st, room, Call(f, args))
    case DoMethod(self, m, args) => ExecCall(rt, sc.locals, st, room, Method(self, m, args))
    case Var(ds) => ExecDecls(rt, sc.locals, st, room, ds)
    case Break => Broke(st)
    case Continue => Continued(st)
    case Return(e) => (
      match Eval(rt, sc.locals, st.loc, st.w, room, e)
      case Panics(w) => Panicked(w)
      case Gives(v, w) => Returned(v, w))
    case If(g) => ExecGuard(rt, sc, st, room, g, true, fuel)
    case Forever(body) => Repeat(rt, sc, st, room, body, fuel)
    case ForIn(declare, x, e, body) =>
      var sc1 := DeclareIf(declare, sc, x);
      match Eval(rt, sc1.locals, st.loc, st.w, room, e)
      case Panics(w) => Panicked(w)
      case Gives(v, w) =>
        Each(rt, BodyScope(sc1), State(st.loc[IterName(sc1.fors) := v], w), room, IterName(sc1.fors), x, body, fuel)
  }

  function ExecBlock(rt: Runtime, sc: Scope, st: State, room: nat, b: Block, fuel: nat): End
    decreases fuel, b, 0
  {
    match b
    case Done => Normal(st)
    case Then(s, tail) =>
      var r := Exec(rt, sc, st, room, s, fuel);
      if r.Normal? then ExecBlock(rt, StmtScope(s, sc), r.st, room, tail, fuel) else r
  }

  function ExecChain(rt: Runtime, sc: Scope, st: State, room: nat, c: Chain, fuel: nat): End
    decreases fuel, c, 0
  {
    match c
    case Fi => Normal(st)
    case Else(b) => ExecBlock(rt, sc, st, room, b, fuel)
    case Elif(g) => ExecGuard(rt, sc, st, room, g, false, fuel)
  }

  /** A last `elif` with no `else` after it panics: its condition is computed, and then nothing was written
      where the jump over its block belongs. */
  function ExecGuard(rt: Runtime, sc: Scope, st: State, room: nat, g: Guard, first: bool, fuel: nat): End
    decreases fuel, g, 0
  {
    match Eval(rt, sc.locals, st.loc, st.w, room, g.cond)
    case Panics(w) => Panicked(w)
    case Gives(v, w) =>
      if g.rest.Fi? && !first then Panicked(w)
      else if Truth(v) then ExecBlock(rt, sc, State(st.loc, w), room, g.block, fuel)
      else ExecChain(rt, BlockScope(g.block, sc), State(st.loc, w), room, g.rest, fuel)
  }

  /** `for { body }`. */
  function Repeat(rt: Runtime, sc: Scope, st: State, room: nat, body: Block, fuel: nat): End
    decreases fuel, body, 1
  {
    if fuel == 0 then OutOfFuel
    else
      match ExecBlock(rt, sc, st, room, body, fuel)
      case Broke(st1) => Normal(st1)
      case Normal(st1) => Repeat(rt, sc, st1, room, body, fuel - 1)
      case Continued(st1) => Repeat(rt, sc, st1, room, body, fuel - 1)
      case Returned(v, w) => Returned(v, w)
      case Panicked(w) => Panicked(w)
      case OutOfFuel => OutOfFuel
  }

  /** The rounds of `for x in ...`, with the iterator in the local `it`, until a call of it leaves nil. */
  function Each(rt: Runtime, sc: Scope, st: State, room: nat, it: Name, x: Name, body: Block, fuel: nat): End
    decreases fuel, body, 1
  {
    if fuel == 0 then OutOfFuel
    else
      match EvalCall(rt, sc.locals, st.loc, st.w, room, Call(Sym(it), Empty))
      case Panics(w) => Panicked(w)
      case Gives(vs, w) =>
        if First(vs) == Nil then Normal(State(st.loc, w))
        else
          match ExecBlock(rt, sc, Store(sc.locals, State(st.loc, w), x, First(vs)), room, body, fuel)
          case Broke(st1) => Normal(st1)
          case Normal(st1) => Each(rt, sc, st1, room, it, x, body, fuel - 1)
          case Continued(st1) => Each(rt, sc, st1, room, it, x, body, fuel - 1)
          case Returned(v, w1) => Returned(v, w1)
          case Panicked(w1) => Panicked(w1)
          case OutOfFuel => OutOfFuel
  }
}
