/** Compilation preserves meaning: a chunk ends exactly as the program it was compiled from. */
module VmCorrect {
  import opened Basics
  import opened ScriptSyntax
  import opened ScriptParse
  import opened Runtime
  import opened ScriptMeaning
  import opened ScriptIntent
  import opened VmCode
  import opened VmMachine
  import opened VmExprs
  import opened VmLimits
  import opened VmStmts
  import opened VmBlocks

  /** The machine stops as `vm`. */
  ghost predicate Stops(rt: Runtime, c: Chunk, s: Vm, vm: Vm) {
    !vm.Running? && exists n: nat :: Steps(rt, c, s, n) == vm
  }

  /** The machine that a program which ended as `r` leaves; falling off the end returns nothing. */
  function Final(r: End, stack: seq<Value>): Option<Vm> {
    match r
    case Normal(st) => Some(Finished(stack, 0, st.w))
    case Returned(v, w) => Some(Finished(stack + [v], 1, w))
    case Panicked(w) => Some(Crashed(w))
    case Broke(_) | Continued(_) | OutOfFuel => None
  }

  /** A compiled function body whose operand fields are wide enough. */
  ghost predicate IsChunk(c: Chunk, b: Block, params: seq<Name>, fors: nat) {
    c == ChunkOf(b, params, fors) && Fits(c) && BlockFits(b, [], Scope(params, fors)) && BlockEnclosed(b, false)
  }

  /** What a body does that is entered with the locals and the world of `st` and `room` free operand cells. */
  function Body(rt: Runtime, b: Block, params: seq<Name>, fors: nat, st: State, room: nat, fuel: nat): End {
    ExecBlock(rt, Scope(params, fors), st, room, b, fuel)
  }

  /** The machine at the first instruction. */
  function Entry(c: Chunk, st: State, stack: seq<Value>): Vm {
    Running(0, stack, Cells(st.loc, c.locals), st.w)
  }

  lemma {:induction false} StopsOnce(rt: Runtime, c: Chunk, s: Vm, n: nat, m: nat)
    requires !Steps(rt, c, s, n).Running? && n <= m
    ensures Steps(rt, c, s, m) == Steps(rt, c, s, n)
  {
    StepsThen(rt, c, s, n, m - n);
    StepsEnd(rt, c, Steps(rt, c, s, n), m - n);
  }

  /** What was appended to the code of the body returns nothing. */
  lemma {:induction false} EndStep(x: Site, code: Code, st: State)
    requires x.c.inst == Ended(code)
    ensures Step(x.rt, x.c, Start(x, |code|, st)) == Finished(x.stack, 0, st.w)
  {
  }

  lemma {:induction false} ChunkPlaced(x: Site, b: Block, params: seq<Name>, fors: nat)
    requires IsChunk(x.c, b, params, fors) && x.loop == NoLoop && |x.stack| <= MAX_STACK
    ensures BlockPlaced(x, b, [], Scope(params, fors), 0)
  {
    hide Fits, BlockCode, BlockK, BlockScope, BlockFits, BlockEnclosed;
    var code := BlockCode(b, [], Scope(params, fors), 0, NoLoop);
    Parts(code, x.c.inst[|code|..]);
  }

  /** A run of the chunk when the program is given `fuel`. */
  lemma {:induction false} ChunkRuns(rt: Runtime, c: Chunk, b: Block, params: seq<Name>, fors: nat, st: State,
      stack: seq<Value>, fuel: nat) returns (n: nat)
    requires IsChunk(c, b, params, fors) && |stack| <= MAX_STACK
    ensures var r := Body(rt, b, params, fors, st, Room(stack), fuel);
      if r == OutOfFuel then n >= fuel && Steps(rt, c, Entry(c, st, stack), n).Running?
      else Final(r, stack) == Some(Steps(rt, c, Entry(c, st, stack), n))
  {
    hide BlockPlaced, BlockCode, BlockK, BlockScope, BlockFits, BlockEnclosed, Fits, ExecBlock, Room, Step, Ended;
    var x, sc := Site(rt, c, stack, NoLoop), Scope(params, fors);
    ChunkPlaced(x, b, params, fors);
    n := BlockRuns(x, b, [], sc, 0, st, fuel);
    var r := Body(rt, b, params, fors, st, Room(stack), fuel);
    if r.Normal? {
      RunNext(x, 0, st, n);
      EndStep(x, BlockCode(b, [], sc, 0, NoLoop), r.st);
      n := n + 1;
    }
  }

  /** The program ends with some fuel as the machine `vm` shows. */
  ghost predicate Means(rt: Runtime, b: Block, params: seq<Name>, fors: nat, st: State, stack: seq<Value>, vm: Vm) {
    exists fuel: nat :: Final(Body(rt, b, params, fors, st, Room(stack), fuel), stack) == Some(vm)
  }

  /** Compilation preserves meaning: from any locals, any world and any operands of the callers, the machine
      stops as `vm` exactly if the program ends that way, and runs forever exactly if the program does. */
  lemma {:induction false} CompilationPreserves(rt: Runtime, c: Chunk, b: Block, params: seq<Name>, fors: nat,
      st: State, stack: seq<Value>, vm: Vm)
    requires IsChunk(c, b, params, fors) && |stack| <= MAX_STACK
    ensures Stops(rt, c, Entry(c, st, stack), vm) <==> Means(rt, b, params, fors, st, stack, vm)
  {
    hide IsChunk, Body, Room, Steps;
    var s := Entry(c, st, stack);
    if Stops(rt, c, s, vm) {
      var n: nat :| Steps(rt, c, s, n) == vm;
      var m := ChunkRuns(rt, c, b, params, fors, st, stack, n + 1);
      if n <= m { StopsOnce(rt, c, s, n, m); } else { StopsEither(rt, c, b, params, fors, st, stack, n, m); }
      assert Final(Body(rt, b, params, fors, st, Room(stack), n + 1), stack) == Some(vm);
    }
    if fuel: nat :| Final(Body(rt, b, params, fors, st, Room(stack), fuel), stack) == Some(vm) {
      var m := ChunkRuns(rt, c, b, params, fors, st, stack, fuel);
    }
  }

  lemma {:induction false} StopsEither(rt: Runtime, c: Chunk, b: Block, params: seq<Name>, fors: nat, st: State,
      stack: seq<Value>, n: nat, m: nat)
    requires m < n
    requires Body(rt, b, params, fors, st, Room(stack), n + 1) != OutOfFuel
    requires Final(Body(rt, b, params, fors, st, Room(stack), n + 1), stack) ==
      Some(Steps(rt, c, Entry(c, st, stack), m))
    ensures Steps(rt, c, Entry(c, st, stack), n) == Steps(rt, c, Entry(c, st, stack), m)
  {
    hide Body, Room, Steps;
    StopsOnce(rt, c, Entry(c, st, stack), m, n);
  }

  /** The limits that a program has to keep: the code and the table of constants are shorter than the
      instruction fields can count, the locals fit the frame, no call has more than 255 arguments, and methods are
      named by the first 4,096 constants. */
  ghost predicate InLimits(c: Chunk, b: Block, params: seq<Name>, fors: nat) {
    |c.inst| < 0x1_0000 && |c.kval| <= 0x1_0000 && |c.locals| <= MAX_LOCAL && BlockFits(b, [], Scope(params, fors))
  }

  /** The compiler emits `c` for the body `b` that the tokens are read as, and `c` keeps the limits. */
  ghost predicate Emits(tokens: seq<Token>, params: seq<Name>, fors: nat, b: Block, c: Chunk) {
    ParseProgram(tokens, Scope(params, fors)) == Ok(b, []) && Compiled(tokens, params, fors) == Some(c) &&
    InLimits(c, b, params, fors)
  }

  lemma {:induction false} EmitsBody(tokens: seq<Token>, params: seq<Name>, fors: nat, b: Block, c: Chunk)
    requires Emits(tokens, params, fors, b, c)
    ensures c == ChunkOf(b, params, fors) && InLimits(c, b, params, fors)
    ensures BlockRoomy(b) && BlockEnclosed(b, false) && BlockNew(b, Scope(params, fors))
  {
    hide ParseProgram, InLimits, BlockRoomy, BlockCode, BlockK, BlockScope;
  }

  /** Whatever the compiler emits does what the body it was read from means, within the limits. */
  lemma {:induction false} ProgramPreserved(rt: Runtime, tokens: seq<Token>, params: seq<Name>, fors: nat, b: Block,
      c: Chunk, st: State, stack: seq<Value>, vm: Vm)
    requires Distinct(params) && |stack| <= MAX_STACK && Emits(tokens, params, fors, b, c)
    ensures Stops(rt, c, Entry(c, st, stack), vm) <==> Means(rt, b, params, fors, st, stack, vm)
  {
    hide Emits, BlockFits, BlockCode, BlockK, BlockScope, Ended, Stops, Means, BlockRoomy;
    EmitsBody(tokens, params, fors, b, c);
    BlockDistinct(b, Scope(params, fors));
    CompilationPreserves(rt, c, b, params, fors, st, stack, vm);
  }

  /** What a run of the body was meant to come to. */
  function MeantBody(rt: Runtime, b: Block, params: seq<Name>, fors: nat, st: State, room: nat, fuel: nat): End {
    IntendBlock(rt, Scope(params, fors), st, room, b, fuel)
  }

  ghost predicate IsMeant(rt: Runtime, b: Block, params: seq<Name>, fors: nat, st: State, stack: seq<Value>, vm: Vm) {
    exists fuel: nat :: Final(MeantBody(rt, b, params, fors, st, Room(stack), fuel), stack) == Some(vm)
  }

  /** The world in which a run with some fuel comes to the end of an `elif` chain that has no `else`. */
  ghost predicate Departs(rt: Runtime, b: Block, params: seq<Name>, fors: nat, st: State, room: nat, w: World) {
    exists fuel: nat :: BlockDeparts(rt, Scope(params, fors), st, room, b, fuel) == Some(w)
  }

  /** The machine does what the program was meant to do if an `else` stands after the last `elif` of every
      chain; and otherwise it does so too, unless a run computes the condition of a last `elif` without `else`: then
      it panics. */
  lemma {:induction false} ProgramMeant(rt: Runtime, tokens: seq<Token>, params: seq<Name>, fors: nat, b: Block,
      c: Chunk, st: State, stack: seq<Value>, vm: Vm)
    requires Distinct(params) && |stack| <= MAX_STACK && Emits(tokens, params, fors, b, c)
    ensures (forall w :: !Departs(rt, b, params, fors, st, Room(stack), w)) ==>
      (Stops(rt, c, Entry(c, st, stack), vm) <==> IsMeant(rt, b, params, fors, st, stack, vm))
    ensures forall w :: Departs(rt, b, params, fors, st, Room(stack), w) ==>
      (Stops(rt, c, Entry(c, st, stack), vm) <==> vm == Crashed(w))
    ensures BlockClosed(b) ==> forall w :: !Departs(rt, b, params, fors, st, Room(stack), w)
  {
    hide Emits, Stops, Means, Body, MeantBody, Room;
    ProgramPreserved(rt, tokens, params, fors, b, c, st, stack, vm);
    if forall w :: !Departs(rt, b, params, fors, st, Room(stack), w) {
      MeansMeant(rt, b, params, fors, st, stack, vm);
    }
    forall w | Departs(rt, b, params, fors, st, Room(stack), w)
      ensures Stops(rt, c, Entry(c, st, stack), vm) <==> vm == Crashed(w)
    {
      DepartsMeans(rt, b, params, fors, st, stack, w);
      ProgramPreserved(rt, tokens, params, fors, b, c, st, stack, Crashed(w));
      if Stops(rt, c, Entry(c, st, stack), vm) { StopsSame(rt, c, Entry(c, st, stack), vm, Crashed(w)); }
    }
    if BlockClosed(b) { ClosedNeverDeparts(rt, b, params, fors, st, Room(stack)); }
  }

  /** A machine stops in one way only. */
  lemma {:induction false} StopsSame(rt: Runtime, c: Chunk, s: Vm, x: Vm, y: Vm)
    requires Stops(rt, c, s, x) && Stops(rt, c, s, y)
    ensures x == y
  {
    hide Steps;
    var n: nat :| Steps(rt, c, s, n) == x;
    var m: nat :| Steps(rt, c, s, m) == y;
    if n <= m { StopsOnce(rt, c, s, n, m); } else { StopsOnce(rt, c, s, m, n); }
  }

  lemma {:induction false} ClosedNeverDeparts(rt: Runtime, b: Block, params: seq<Name>, fors: nat, st: State, room: nat)
    requires BlockClosed(b)
    ensures forall w :: !Departs(rt, b, params, fors, st, room, w)
  {
    hide BlockDeparts;
    forall fuel: nat ensures BlockDeparts(rt, Scope(params, fors), st, room, b, fuel) == None {
      BlockNeverDeparts(rt, Scope(params, fors), st, room, b, fuel);
    }
  }

  lemma {:induction false} MeansMeant(rt: Runtime, b: Block, params: seq<Name>, fors: nat, st: State, stack: seq<Value>,
      vm: Vm)
    requires forall w :: !Departs(rt, b, params, fors, st, Room(stack), w)
    ensures Means(rt, b, params, fors, st, stack, vm) <==> IsMeant(rt, b, params, fors, st, stack, vm)
  {
    hide Room, BlockDeparts, Final;
    forall fuel: nat
      ensures Body(rt, b, params, fors, st, Room(stack), fuel) == MeantBody(rt, b, params, fors, st, Room(stack), fuel)
    {
      BlockAsMeant(rt, Scope(params, fors), st, Room(stack), b, fuel);
      var p := BlockDeparts(rt, Scope(params, fors), st, Room(stack), b, fuel);
      assert p.Some? ==> Departs(rt, b, params, fors, st, Room(stack), p.value);
    }
    hide Body, MeantBody;
  }

  lemma {:induction false} DepartsMeans(rt: Runtime, b: Block, params: seq<Name>, fors: nat, st: State,
      stack: seq<Value>, w: World)
    requires Departs(rt, b, params, fors, st, Room(stack), w)
    ensures Means(rt, b, params, fors, st, stack, Crashed(w))
  {
    hide Room, BlockDeparts;
    var fuel: nat :| BlockDeparts(rt, Scope(params, fors), st, Room(stack), b, fuel) == Some(w);
    BlockAsMeant(rt, Scope(params, fors), st, Room(stack), b, fuel);
    assert Body(rt, b, params, fors, st, Room(stack), fuel) == Panicked(w);
  }
}
