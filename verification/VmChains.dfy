/** An `if` while it is compiled: the jumps over what follows each block are filled at the end only, and the
    jump over the last block is not filled before it is known what follows. */
module VmChains {
  import opened Basics
  import opened ScriptSyntax
  import opened Runtime
  import opened VmCode
  import opened VmSize

  /** The chain with `ch` after its last block. */
  function Append(g: Guard, ch: Chain): Guard
    decreases g
  {
    match g.rest
    case Fi => g.(rest := ch)
    case Else(_) => g
    case Elif(g1) => g.(rest := Elif(Append(g1, ch)))
  }

  /** No `else` closes the chain. */
  predicate IsOpen(g: Guard)
    decreases g
  {
    match g.rest
    case Fi => true
    case Else(_) => false
    case Elif(g1) => IsOpen(g1)
  }

  function BlockPos(g: Guard, k: seq<Value>, sc: Scope, at: nat): nat {
    at + |ExprCode(g.cond, k, sc.locals)| + 1
  }

  function BlockPart(g: Guard, k: seq<Value>, sc: Scope, at: nat, loop: Loop): Code {
    BlockCode(g.block, ExprK(g.cond, k, sc.locals), sc, BlockPos(g, k, sc, at), loop)
  }

  /** Where what follows the block begins, after the jump over it. */
  function RestPos(g: Guard, k: seq<Value>, sc: Scope, at: nat, loop: Loop): nat {
    BlockPos(g, k, sc, at) + |BlockPart(g, k, sc, at, loop)| + 1
  }

  function RestTable(g: Guard, k: seq<Value>, sc: Scope): seq<Value> {
    BlockK(g.block, ExprK(g.cond, k, sc.locals), sc)
  }

  function RestScope(g: Guard, sc: Scope): Scope {
    BlockScope(g.block, sc)
  }

  /** The condition and the block of a guard, with the jump between them. */
  function HeadCode(g: Guard, k: seq<Value>, sc: Scope, at: nat, loop: Loop, jump: Inst): Code {
    ExprCode(g.cond, k, sc.locals) + [jump] + BlockPart(g, k, sc, at, loop)
  }

  /** The jump over a block and the jump after it. */
  function OverBlock(g: Guard, k: seq<Value>, sc: Scope, at: nat, loop: Loop): Inst {
    IJne(Ahead(|BlockPart(g, k, sc, at, loop)| + 2))
  }

  /** The code of a chain with its holes. */
  function OpenCode(g: Guard, k: seq<Value>, sc: Scope, at: nat, loop: Loop): Code
    decreases g
  {
    if g.rest.Fi? then HeadCode(g, k, sc, at, loop, IPanic)
    else
      HeadCode(g, k, sc, at, loop, OverBlock(g, k, sc, at, loop)) + [IPanic] +
      OpenRest(g.rest, RestTable(g, k, sc), RestScope(g, sc), RestPos(g, k, sc, at, loop), loop)
  }

  function OpenRest(ch: Chain, k: seq<Value>, sc: Scope, at: nat, loop: Loop): Code
    decreases ch
  {
    match ch
    case Fi => []
    case Else(b) => BlockCode(b, k, sc, at, loop)
    case Elif(g) => OpenCode(g, k, sc, at, loop)
  }

  /** Where the jumps over what follows belong. */
  function OutHoles(g: Guard, k: seq<Value>, sc: Scope, at: nat, loop: Loop): seq<nat>
    decreases g
  {
    match g.rest
    case Fi => []
    case Else(_) => [RestPos(g, k, sc, at, loop) - 1]
    case Elif(g1) =>
      [RestPos(g, k, sc, at, loop) - 1] +
      OutHoles(g1, RestTable(g, k, sc), RestScope(g, sc), RestPos(g, k, sc, at, loop), loop)
  }

  /** Where the jump over the last block belongs. */
  function LastHole(g: Guard, k: seq<Value>, sc: Scope, at: nat, loop: Loop): nat
    requires IsOpen(g)
    decreases g
  {
    if g.rest.Fi? then BlockPos(g, k, sc, at) - 1
    else LastHole(g.rest.guard, RestTable(g, k, sc), RestScope(g, sc), RestPos(g, k, sc, at, loop), loop)
  }

  // ------------------------------------------------------------------
  // Sizes
  // ------------------------------------------------------------------

  lemma {:induction false} OpenSize(g: Guard, k: seq<Value>, sc: Scope, at: nat, loop: Loop, first: bool)
    ensures |OpenCode(g, k, sc, at, loop)| == |GuardCode(g, k, sc, at, loop, first)|
    decreases g
  {
    hide ExprCode, ExprK, BlockCode, BlockK, BlockScope, ChainCode;
    if !g.rest.Fi? {
      OpenRestSize(g.rest, RestTable(g, k, sc), RestScope(g, sc), RestPos(g, k, sc, at, loop), loop);
    }
  }

  lemma {:induction false} OpenRestSize(ch: Chain, k: seq<Value>, sc: Scope, at: nat, loop: Loop)
    ensures |OpenRest(ch, k, sc, at, loop)| == |ChainCode(ch, k, sc, at, loop)|
    decreases ch
  {
    hide OpenCode, GuardCode;
    if ch.Elif? { OpenSize(ch.guard, k, sc, at, loop, false); }
  }

  // ------------------------------------------------------------------
  // The chain grows at its end
  // ------------------------------------------------------------------

  lemma {:induction false} AppendTables(g: Guard, ch: Chain, k: seq<Value>, sc: Scope)
    requires IsOpen(g)
    ensures GuardK(Append(g, ch), k, sc) == ChainK(ch, GuardK(g, k, sc), GuardScope(g, sc))
    ensures GuardScope(Append(g, ch), sc) == ChainScope(ch, GuardScope(g, sc))
    decreases g
  {
    hide ExprK, BlockK, BlockScope;
    if g.rest.Elif? { AppendTables(g.rest.guard, ch, RestTable(g, k, sc), RestScope(g, sc)); }
  }

  lemma {:induction false} AppendTwice(g: Guard, g1: Guard, ch: Chain)
    requires IsOpen(g) && IsOpen(g1)
    ensures IsOpen(Append(g, Elif(g1)))
    ensures Append(Append(g, Elif(g1)), ch) == Append(g, Elif(Append(g1, ch)))
    decreases g
  {
    if g.rest.Elif? { AppendTwice(g.rest.guard, g1, ch); }
  }

  lemma {:induction false} AppendFi(g: Guard)
    requires IsOpen(g)
    ensures Append(g, Fi) == g
    decreases g
  {
    if g.rest.Elif? { AppendFi(g.rest.guard); }
  }

  lemma {:induction false} LastHoleInside(g: Guard, k: seq<Value>, sc: Scope, at: nat, loop: Loop)
    requires IsOpen(g)
    ensures at <= LastHole(g, k, sc, at, loop) < at + |OpenCode(g, k, sc, at, loop)|
    decreases g
  {
    hide ExprCode, ExprK, BlockCode, BlockK, BlockScope;
    if g.rest.Elif? {
      LastHoleInside(g.rest.guard, RestTable(g, k, sc), RestScope(g, sc), RestPos(g, k, sc, at, loop), loop);
    }
  }

  /** What was emitted for `g`, with its last hole filled by a jump over one more instruction. */
  function Closed(g: Guard, k: seq<Value>, sc: Scope, at: nat, loop: Loop): Code
    requires IsOpen(g)
    requires at <= LastHole(g, k, sc, at, loop) < at + |OpenCode(g, k, sc, at, loop)|
  {
    var code := OpenCode(g, k, sc, at, loop);
    var hole := LastHole(g, k, sc, at, loop);
    code[hole - at := IJne(Ahead(at + |code| + 1 - hole))]
  }

  /** What is emitted for the part of a chain after an `elif` or `else`, and how the holes grow. */
  lemma {:induction false} AppendCode(g: Guard, ch: Chain, k: seq<Value>, sc: Scope, at: nat, loop: Loop)
    requires IsOpen(g) && ch != Fi
    requires at <= LastHole(g, k, sc, at, loop) < at + |OpenCode(g, k, sc, at, loop)|
    ensures OpenCode(Append(g, ch), k, sc, at, loop) ==
            Closed(g, k, sc, at, loop) + [IPanic] +
            OpenRest(ch, GuardK(g, k, sc), GuardScope(g, sc), at + |OpenCode(g, k, sc, at, loop)| + 1, loop)
    decreases g
  {
    hide ExprCode, ExprK, BlockCode, BlockK, BlockScope, OpenRest;
    var k1, sc1, p := RestTable(g, k, sc), RestScope(g, sc), RestPos(g, k, sc, at, loop);
    if g.rest.Fi? {
      AppendCodeHere(g, ch, k, sc, at, loop);
    } else {
      var g1 := g.rest.guard;
      LastHoleInside(g1, k1, sc1, p, loop);
      AppendCode(g1, ch, k1, sc1, p, loop);
      AppendCodeThere(g, ch, k, sc, at, loop);
    }
  }

  lemma {:induction false} AppendCodeHere(g: Guard, ch: Chain, k: seq<Value>, sc: Scope, at: nat, loop: Loop)
    requires g.rest.Fi? && ch != Fi
    ensures OpenCode(Append(g, ch), k, sc, at, loop) ==
            Closed(g, k, sc, at, loop) + [IPanic] +
            OpenRest(ch, GuardK(g, k, sc), GuardScope(g, sc), at + |OpenCode(g, k, sc, at, loop)| + 1, loop)
  {
    hide ExprCode, ExprK, BlockCode, BlockK, BlockScope, OpenRest;
    var c, b := ExprCode(g.cond, k, sc.locals), BlockPart(g, k, sc, at, loop);
    assert OpenCode(g, k, sc, at, loop) == c + [IPanic] + b;
    assert Closed(g, k, sc, at, loop) == c + [IJne(Ahead(|b| + 2))] + b;
  }

  lemma {:induction false} AppendCodeThere(g: Guard, ch: Chain, k: seq<Value>, sc: Scope, at: nat, loop: Loop)
    requires IsOpen(g) && g.rest.Elif? && ch != Fi
    requires at <= LastHole(g, k, sc, at, loop) < at + |OpenCode(g, k, sc, at, loop)|
    requires var g1, k1, sc1, p := g.rest.guard, RestTable(g, k, sc), RestScope(g, sc), RestPos(g, k, sc, at, loop);
      p <= LastHole(g1, k1, sc1, p, loop) < p + |OpenCode(g1, k1, sc1, p, loop)| &&
      OpenCode(Append(g1, ch), k1, sc1, p, loop) ==
        Closed(g1, k1, sc1, p, loop) + [IPanic] +
        OpenRest(ch, GuardK(g1, k1, sc1), GuardScope(g1, sc1), p + |OpenCode(g1, k1, sc1, p, loop)| + 1, loop)
    ensures OpenCode(Append(g, ch), k, sc, at, loop) ==
            Closed(g, k, sc, at, loop) + [IPanic] +
            OpenRest(ch, GuardK(g, k, sc), GuardScope(g, sc), at + |OpenCode(g, k, sc, at, loop)| + 1, loop)
  {
    var g1, k1, sc1, p := g.rest.guard, RestTable(g, k, sc), RestScope(g, sc), RestPos(g, k, sc, at, loop);
    OpenElif(g, k, sc, at, loop);
    AppendElif(g, ch);
    OpenElif(Append(g, ch), k, sc, at, loop);
    SameHead(g, Append(g, ch), k, sc, at, loop);
    ElifTables(g, k, sc, at, loop);
    hide OpenCode, HeadCode, OverBlock, OpenRest, GuardK, GuardScope, RestTable, RestScope, RestPos, LastHole, Append,
      IsOpen;
    var x, y := HeadCode(g, k, sc, at, loop, OverBlock(g, k, sc, at, loop)) + [IPanic], OpenCode(g1, k1, sc1, p, loop);
    var h, z := LastHole(g1, k1, sc1, p, loop),
      OpenRest(ch, GuardK(g1, k1, sc1), GuardScope(g1, sc1), p + |y| + 1, loop);
    assert p == at + |x|;
    UpdateRight(x, y, h - p, IJne(Ahead(p + |y| + 1 - h)));
    assert Closed(g, k, sc, at, loop) == x + Closed(g1, k1, sc1, p, loop);
    Assoc(x, Closed(g1, k1, sc1, p, loop) + [IPanic], z);
    Assoc(x, Closed(g1, k1, sc1, p, loop), [IPanic]);
  }

  lemma {:induction false} UpdateRight<T>(x: seq<T>, y: seq<T>, i: nat, v: T)
    requires i < |y|
    ensures (x + y)[|x| + i := v] == x + y[i := v]
  {
  }

  lemma {:induction false} OpenElif(g: Guard, k: seq<Value>, sc: Scope, at: nat, loop: Loop)
    requires g.rest.Elif?
    ensures OpenCode(g, k, sc, at, loop) ==
            HeadCode(g, k, sc, at, loop, OverBlock(g, k, sc, at, loop)) + [IPanic] +
            OpenCode(g.rest.guard, RestTable(g, k, sc), RestScope(g, sc), RestPos(g, k, sc, at, loop), loop)
    ensures RestPos(g, k, sc, at, loop) == at + |HeadCode(g, k, sc, at, loop, OverBlock(g, k, sc, at, loop)) + [IPanic]|
  {
    hide ExprCode, ExprK, BlockCode, BlockK, BlockScope;
  }

  lemma {:induction false} AppendElif(g: Guard, ch: Chain)
    requires g.rest.Elif?
    ensures Append(g, ch).rest == Elif(Append(g.rest.guard, ch))
  {
  }

  lemma {:induction false} SameHead(g: Guard, h: Guard, k: seq<Value>, sc: Scope, at: nat, loop: Loop)
    requires g.cond == h.cond && g.block == h.block
    ensures HeadCode(h, k, sc, at, loop, OverBlock(h, k, sc, at, loop)) ==
      HeadCode(g, k, sc, at, loop, OverBlock(g, k, sc, at, loop))
    ensures RestTable(h, k, sc) == RestTable(g, k, sc) && RestScope(h, sc) == RestScope(g, sc)
    ensures RestPos(h, k, sc, at, loop) == RestPos(g, k, sc, at, loop)
  {
    hide ExprCode, ExprK, BlockCode, BlockK, BlockScope;
  }

  lemma {:induction false} ElifTables(g: Guard, k: seq<Value>, sc: Scope, at: nat, loop: Loop)
    requires g.rest.Elif?
    ensures GuardK(g, k, sc) == GuardK(g.rest.guard, RestTable(g, k, sc), RestScope(g, sc))
    ensures GuardScope(g, sc) == GuardScope(g.rest.guard, RestScope(g, sc))
    ensures IsOpen(g) ==>
      LastHole(g, k, sc, at, loop) ==
      LastHole(g.rest.guard, RestTable(g, k, sc), RestScope(g, sc), RestPos(g, k, sc, at, loop), loop)
  {
    hide ExprK, BlockK, BlockScope;
  }

  // ------------------------------------------------------------------
  // Holes
  // ------------------------------------------------------------------

  /** One more part of a chain: an `else`, or an `elif` that nothing follows yet. */
  predicate OnePart(ch: Chain) {
    ch.Else? || (ch.Elif? && ch.guard.rest.Fi?)
  }

  lemma {:induction false} AppendHoles(g: Guard, ch: Chain, k: seq<Value>, sc: Scope, at: nat, loop: Loop)
    requires IsOpen(g) && OnePart(ch)
    ensures OutHoles(Append(g, ch), k, sc, at, loop) ==
            OutHoles(g, k, sc, at, loop) + [at + |OpenCode(g, k, sc, at, loop)|]
    decreases g
  {
    hide ExprCode, ExprK, BlockCode, BlockK, BlockScope;
    if g.rest.Elif? {
      AppendHoles(g.rest.guard, ch, RestTable(g, k, sc), RestScope(g, sc), RestPos(g, k, sc, at, loop), loop);
    }
  }

  lemma {:induction false} AppendLast(g: Guard, g1: Guard, k: seq<Value>, sc: Scope, at: nat, loop: Loop)
    requires IsOpen(g) && g1.rest.Fi?
    ensures IsOpen(Append(g, Elif(g1)))
    ensures LastHole(Append(g, Elif(g1)), k, sc, at, loop) ==
            BlockPos(g1, GuardK(g, k, sc), GuardScope(g, sc), at + |OpenCode(g, k, sc, at, loop)| + 1) - 1
    decreases g
  {
    hide ExprCode, ExprK, BlockCode, BlockK, BlockScope;
    if g.rest.Elif? {
      AppendLast(g.rest.guard, g1, RestTable(g, k, sc), RestScope(g, sc), RestPos(g, k, sc, at, loop), loop);
    }
  }

  lemma {:induction false} AppendBreaks(g: Guard, ch: Chain, k: seq<Value>, sc: Scope, at: nat, loop: Loop)
    requires IsOpen(g) && ch != Fi
    ensures GuardBreaks(Append(g, ch), k, sc, at, loop) ==
            GuardBreaks(g, k, sc, at, loop) +
            ChainBreaks(ch, GuardK(g, k, sc), GuardScope(g, sc), at + |OpenCode(g, k, sc, at, loop)| + 1, loop)
    decreases g
  {
    var x := BlockBreaks(g.block, ExprK(g.cond, k, sc.locals), sc, BlockPos(g, k, sc, at), loop);
    var k1, sc1, p := RestTable(g, k, sc), RestScope(g, sc), RestPos(g, k, sc, at, loop);
    BreaksParts(g, k, sc, at, loop);
    BreaksParts(Append(g, ch), k, sc, at, loop);
    SameHead(g, Append(g, ch), k, sc, at, loop);
    if g.rest.Elif? {
      var g1 := g.rest.guard;
      AppendBreaks(g1, ch, k1, sc1, p, loop);
      AppendElif(g, ch);
      ElifTables(g, k, sc, at, loop);
      OpenElif(g, k, sc, at, loop);
      Assoc(x, GuardBreaks(g1, k1, sc1, p, loop),
        ChainBreaks(ch, GuardK(g1, k1, sc1), GuardScope(g1, sc1), p + |OpenCode(g1, k1, sc1, p, loop)| + 1, loop));
    } else {
      LastTables(g, k, sc, at, loop);
      assert x + [] == x;
    }
  }

  lemma {:induction false} BreaksParts(g: Guard, k: seq<Value>, sc: Scope, at: nat, loop: Loop)
    ensures GuardBreaks(g, k, sc, at, loop) ==
            BlockBreaks(g.block, ExprK(g.cond, k, sc.locals), sc, BlockPos(g, k, sc, at), loop) +
            ChainBreaks(g.rest, RestTable(g, k, sc), RestScope(g, sc), RestPos(g, k, sc, at, loop), loop)
    ensures g.rest.Elif? ==>
            ChainBreaks(g.rest, RestTable(g, k, sc), RestScope(g, sc), RestPos(g, k, sc, at, loop), loop) ==
            GuardBreaks(g.rest.guard, RestTable(g, k, sc), RestScope(g, sc), RestPos(g, k, sc, at, loop), loop)
    ensures g.rest.Fi? ==>
      ChainBreaks(g.rest, RestTable(g, k, sc), RestScope(g, sc), RestPos(g, k, sc, at, loop), loop) == []
  {
    hide ExprCode, ExprK, BlockCode, BlockK, BlockScope, BlockBreaks;
  }

  lemma {:induction false} LastTables(g: Guard, k: seq<Value>, sc: Scope, at: nat, loop: Loop)
    requires g.rest.Fi?
    ensures GuardK(g, k, sc) == RestTable(g, k, sc) && GuardScope(g, sc) == RestScope(g, sc)
    ensures RestPos(g, k, sc, at, loop) == at + |OpenCode(g, k, sc, at, loop)| + 1
    ensures forall ch :: ch != Fi ==> Append(g, ch).rest == ch
  {
    hide ExprCode, ExprK, BlockCode, BlockK, BlockScope;
  }

  // ------------------------------------------------------------------
  // The end of the chain
  // ------------------------------------------------------------------

  /** Filling the jumps over what follows finishes the code of a chain; the jump over the block of a last `elif`
      stays a hole. */
  lemma {:induction false} ChainEnds(g: Guard, k: seq<Value>, sc: Scope, at: nat, loop: Loop, first: bool)
    requires !g.rest.Fi? || !first
    ensures var code, holes := OpenCode(g, k, sc, at, loop), OutHoles(g, k, sc, at, loop);
      Within(holes, at, at + |code|) && Filled(code, at, holes, at + |code|) == GuardCode(g, k, sc, at, loop, first)
    decreases g
  {
    hide ExprCode, ExprK, BlockCode, BlockK, BlockScope, Filled, BlockPart;
    var k1, sc1, p := RestTable(g, k, sc), RestScope(g, sc), RestPos(g, k, sc, at, loop);
    var exit := at + |OpenCode(g, k, sc, at, loop)|;
    if g.rest.Fi? {
      FilledNone(OpenCode(g, k, sc, at, loop), at, exit);
      LastCode(g, k, sc, at, loop);
    } else {
      var r := OpenRest(g.rest, k1, sc1, p, loop);
      var holes := if g.rest.Elif? then OutHoles(g.rest.guard, k1, sc1, p, loop) else [];
      if g.rest.Elif? {
        ChainEnds(g.rest.guard, k1, sc1, p, loop, false);
      } else {
        FilledNone(r, p, p + |r|);
      }
      RestEnds(g, k, sc, at, loop, first, r, holes);
    }
  }

  lemma {:induction false} LastCode(g: Guard, k: seq<Value>, sc: Scope, at: nat, loop: Loop)
    requires g.rest.Fi?
    ensures OpenCode(g, k, sc, at, loop) == GuardCode(g, k, sc, at, loop, false)
    ensures LastHole(g, k, sc, at, loop) == BlockPos(g, k, sc, at) - 1
    ensures var code := OpenCode(g, k, sc, at, loop);
      var i := BlockPos(g, k, sc, at) - 1 - at;
      i < |code| && code[i := IJne(Ahead(|code| - i))] == GuardCode(g, k, sc, at, loop, true)
  {
    hide ExprCode, ExprK, BlockCode, BlockK, BlockScope, ChainCode;
    var c, b := ExprCode(g.cond, k, sc.locals), BlockPart(g, k, sc, at, loop);
    assert OpenCode(g, k, sc, at, loop) == c + [IPanic] + b;
  }

  lemma {:induction false} GuardRest(g: Guard, k: seq<Value>, sc: Scope, at: nat, loop: Loop, first: bool)
    requires !g.rest.Fi?
    ensures var r := ChainCode(g.rest, RestTable(g, k, sc), RestScope(g, sc), RestPos(g, k, sc, at, loop), loop);
      GuardCode(g, k, sc, at, loop, first) ==
      HeadCode(g, k, sc, at, loop, OverBlock(g, k, sc, at, loop)) + [IJmp(Ahead(|r| + 1))] + r
    ensures OpenCode(g, k, sc, at, loop) ==
      HeadCode(g, k, sc, at, loop, OverBlock(g, k, sc, at, loop)) + [IPanic] +
      OpenRest(g.rest, RestTable(g, k, sc), RestScope(g, sc), RestPos(g, k, sc, at, loop), loop)
    ensures RestPos(g, k, sc, at, loop) == at + |HeadCode(g, k, sc, at, loop, OverBlock(g, k, sc, at, loop))| + 1
    ensures OutHoles(g, k, sc, at, loop) ==
      [RestPos(g, k, sc, at, loop) - 1] +
      if g.rest.Elif? then
        OutHoles(g.rest.guard, RestTable(g, k, sc), RestScope(g, sc), RestPos(g, k, sc, at, loop), loop)
      else []
  {
    hide ExprCode, ExprK, BlockCode, BlockK, BlockScope, ChainCode;
  }

  lemma {:induction false} RestEnds(g: Guard, k: seq<Value>, sc: Scope, at: nat, loop: Loop, first: bool, r: Code,
      holes: seq<nat>)
    requires !g.rest.Fi?
    requires var k1, sc1, p := RestTable(g, k, sc), RestScope(g, sc), RestPos(g, k, sc, at, loop);
      r == OpenRest(g.rest, k1, sc1, p, loop) && Within(holes, p, p + |r|) &&
      holes == (if g.rest.Elif? then OutHoles(g.rest.guard, k1, sc1, p, loop) else []) &&
      Filled(r, p, holes, p + |r|) == ChainCode(g.rest, k1, sc1, p, loop)
    ensures var code, all := OpenCode(g, k, sc, at, loop), OutHoles(g, k, sc, at, loop);
      Within(all, at, at + |code|) && Filled(code, at, all, at + |code|) == GuardCode(g, k, sc, at, loop, first)
  {
    hide OpenCode, HeadCode, OverBlock, OpenRest, RestTable, RestScope, RestPos, OutHoles, GuardCode, ChainCode, Filled;
    GuardRest(g, k, sc, at, loop, first);
    var p := RestPos(g, k, sc, at, loop);
    var h := HeadCode(g, k, sc, at, loop, OverBlock(g, k, sc, at, loop));
    var exit := p + |r|;
    FilledNone(h, at, exit);
    FilledOne(p - 1, exit);
    FilledParts(h, [IPanic], at, [], [p - 1], exit);
    assert [] + [p - 1] == [p - 1];
    FilledParts(h + [IPanic], r, at, [p - 1], holes, exit);
  }

  lemma {:induction false} FilledOne(at: nat, exit: nat)
    requires at + 1 <= exit
    ensures Filled([IPanic], at, [at], exit) == [IJmp(Ahead(exit - at))]
  {
  }
}
