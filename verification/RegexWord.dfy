/** State sets as the bits of one 32-bit word, and the closure step over them. */
module RegexWord {
  import opened Basics
  import opened RegexStrip
  import opened RegexEngine
  import opened RegexMatch

  /** The word has one bit for each state. */
  const WORD_BITS: nat := 32

  function Up(v: bv32): bv32 { v << 1 }

  function Down(v: bv32): bv32 { v >> 1 }

  function Shl(v: bv32, n: nat): bv32 {
    if n == 0 then v else Up(Shl(v, n - 1))
  }

  function Shr(v: bv32, n: nat): bv32 {
    if n == 0 then v else Down(Shr(v, n - 1))
  }

  function Bit(p: nat): bv32 {
    Shl(1, p)
  }

  function And(a: bv32, b: bv32): bv32 { a & b }

  function Or(a: bv32, b: bv32): bv32 { a | b }

  /** The state `p` is in the set. */
  predicate IsIn(v: bv32, p: nat) {
    And(v, Bit(p)) != 0
  }

  ghost function WordSet(v: bv32): (s: set<nat>)
    ensures forall p: nat :: p in s <==> p < WORD_BITS && IsIn(v, p)
  {
    set p: nat | p < WORD_BITS && IsIn(v, p)
  }

  // Facts about single words.

  lemma {:induction false} AndShift(x: bv32, y: bv32)
    ensures And(Up(x), Up(y)) == Up(And(x, y))
  {
  }

  lemma {:induction false} AndShiftRight(x: bv32, y: bv32)
    ensures And(x, Up(y)) == Up(And(Down(x), y))
  {
  }

  lemma {:induction false} ShiftBack(x: bv32)
    requires And(x, 0x8000_0000) == 0
    ensures Down(Up(x)) == x
  {
  }

  lemma {:induction false} OrAnd(v: bv32, a: bv32, b: bv32)
    ensures And(Or(v, a), b) == Or(And(v, b), And(a, b))
  {
  }

  lemma {:induction false} OrSet(a: bv32, b: bv32)
    ensures Or(a, b) != 0 <==> a != 0 || b != 0
  {
  }

  lemma {:induction false} AndSwap(a: bv32, b: bv32)
    ensures And(a, b) == And(b, a) && And(a, a) == a
  {
  }

  lemma {:induction false} OrZero(v: bv32)
    ensures Or(v, 0) == v
  {
  }

  lemma {:induction false} LowBit(v: bv32)
    ensures And(v, 1) == 0 || And(v, 1) == 1
    ensures And(1, Up(v)) == 0
  {
  }

  lemma {:induction false} ZeroShift()
    ensures Up(0) == 0 && Down(0) == 0
  {
  }

  // Facts about shifts by any distance.

  lemma {:induction false} BitNext(p: nat)
    ensures Bit(0) == 1 && Bit(p + 1) == Up(Bit(p))
  {
  }

  lemma {:induction false} ShlBit(p: nat, n: nat)
    ensures Shl(Bit(p), n) == Bit(p + n)
    decreases n
  {
    if n > 0 { ShlBit(p, n - 1); }
  }

  lemma {:induction false} BitsApart(p: nat, q: nat)
    requires p < q
    ensures And(Bit(p), Bit(q)) == 0
    decreases p
  {
    hide Bit, And, Or, Up, Down;
    BitNext(q - 1);
    if p == 0 {
      LowBit(Bit(q - 1));
    } else {
      BitNext(p - 1);
      BitsApart(p - 1, q - 1);
      AndShift(Bit(p - 1), Bit(q - 1));
      ZeroShift();
    }
  }

  /** The top bit. */
  lemma {:induction false} BitTop()
    ensures Bit(31) == 0x8000_0000
  {
    assert Bit(0) == 0x1 && Bit(1) == 0x2;
    assert Bit(2) == 0x4 && Bit(3) == 0x8;
    assert Bit(4) == 0x10 && Bit(5) == 0x20;
    assert Bit(6) == 0x40 && Bit(7) == 0x80;
    assert Bit(8) == 0x100 && Bit(9) == 0x200;
    assert Bit(10) == 0x400 && Bit(11) == 0x800;
    assert Bit(12) == 0x1000 && Bit(13) == 0x2000;
    assert Bit(14) == 0x4000 && Bit(15) == 0x8000;
    assert Bit(16) == 0x1_0000 && Bit(17) == 0x2_0000;
    assert Bit(18) == 0x4_0000 && Bit(19) == 0x8_0000;
    assert Bit(20) == 0x10_0000 && Bit(21) == 0x20_0000;
    assert Bit(22) == 0x40_0000 && Bit(23) == 0x80_0000;
    assert Bit(24) == 0x100_0000 && Bit(25) == 0x200_0000;
    assert Bit(26) == 0x400_0000 && Bit(27) == 0x800_0000;
    assert Bit(28) == 0x1000_0000 && Bit(29) == 0x2000_0000;
    assert Bit(30) == 0x4000_0000 && Bit(31) == 0x8000_0000;
  }

  /** No bit of the word is shifted out. */
  lemma {:induction false} BitSet(p: nat)
    requires p < WORD_BITS
    ensures Bit(p) != 0 && (0 < p ==> Down(Bit(p)) == Bit(p - 1))
    decreases p
  {
    BitNext(p);
    if p > 0 {
      BitSet(p - 1);
      BitsApart(p - 1, 31);
      BitTop();
      hide Bit, And, Or, Up, Down;
      BitNext(p - 1);
      ShiftBack(Bit(p - 1));
      ZeroShift();
    }
  }

  lemma {:induction false} ShrNext(v: bv32, n: nat)
    ensures Shr(v, 0) == v && Shr(v, n + 1) == Down(Shr(v, n))
  {
  }

  lemma {:induction false} ShrBit(p: nat, n: nat)
    requires n <= p < WORD_BITS
    ensures Shr(Bit(p), n) == Bit(p - n)
    decreases n
  {
    hide Bit, Shr;
    ShrNext(Bit(p), if n > 0 then n - 1 else 0);
    if n > 0 {
      ShrBit(p, n - 1);
      BitSet(p - n + 1);
    }
  }

  lemma {:induction false} Select(x: bv32, p: nat)
    ensures And(x, Bit(p)) == 0 || And(x, Bit(p)) == Bit(p)
    decreases p
  {
    hide Bit, And, Or, Up, Down;
    BitNext(if p > 0 then p - 1 else 0);
    if p == 0 {
      LowBit(x);
    } else {
      Select(Down(x), p - 1);
      AndShiftRight(x, Bit(p - 1));
      ZeroShift();
    }
  }

  lemma {:induction false} ShiftZero(n: nat)
    ensures Shl(0, n) == 0 && Shr(0, n) == 0
    decreases n
  {
    ZeroShift();
    if n > 0 { ShiftZero(n - 1); }
  }

  lemma {:induction false} BitIs(r: nat, q: nat)
    requires r < WORD_BITS && q < WORD_BITS
    ensures And(Bit(r), Bit(q)) != 0 <==> q == r
  {
    hide Bit, And, Or, Up, Down;
    AndSwap(Bit(q), Bit(r));
    if q < r { BitsApart(q, r); } else if r < q { BitsApart(r, q); } else { BitSet(r); }
  }

  lemma {:induction false} OrBit(v: bv32, r: nat)
    requires r < WORD_BITS
    ensures WordSet(Or(v, Bit(r))) == WordSet(v) + {r}
  {
    hide Bit, And, Or, Up, Down;
    forall q: nat | q < WORD_BITS ensures IsIn(Or(v, Bit(r)), q) <==> IsIn(v, q) || q == r {
      BitIs(r, q);
      OrAnd(v, Bit(r), Bit(q));
      OrSet(And(v, Bit(q)), And(Bit(r), Bit(q)));
    }
  }

  /** The word form of "if here, then also ahead". */
  lemma {:induction false} FwdSet(dst: bv32, src: bv32, p: nat, n: nat)
    requires p + n < WORD_BITS
    ensures WordSet(Or(dst, Shl(And(src, Bit(p)), n))) == WordSet(dst) + if p in WordSet(src) then {p + n} else {}
  {
    hide Bit, Shl, And, Or, Up, Down;
    Select(src, p);
    ShiftZero(n);
    ShlBit(p, n);
    BitSet(p);
    OrBit(dst, p + n);
    OrZero(dst);
  }

  lemma {:induction false} BackSet(dst: bv32, src: bv32, p: nat, n: nat)
    requires n <= p < WORD_BITS
    ensures WordSet(Or(dst, Shr(And(src, Bit(p)), n))) == WordSet(dst) + if p in WordSet(src) then {p - n} else {}
  {
    hide Bit, Shr, Shl, And, Or, Up, Down;
    Select(src, p);
    ShiftZero(n);
    ShrBit(p, n);
    BitSet(p);
    OrBit(dst, p - n);
    OrZero(dst);
  }

  // ------------------------------------------------------------------
  // One step
  // ------------------------------------------------------------------

  /** "If here, then also there": `n` states ahead. */
  method FwdWord(dst: bv32, src: bv32, here: bv32, n: nat, ghost p: nat) returns (r: bv32)
    requires p + n < WORD_BITS && here == Bit(p)
    ensures WordSet(r) == WordSet(dst) + if p in WordSet(src) then {p + n} else {}
  {
    hide Bit, Shl, And, Or;
    r := Or(dst, Shl(And(src, here), n));
    FwdSet(dst, src, p, n);
  }

  /** The same, `n` states back. */
  method Back(dst: bv32, src: bv32, here: bv32, n: nat, ghost p: nat) returns (r: bv32)
    requires n <= p < WORD_BITS && here == Bit(p)
    ensures WordSet(r) == WordSet(dst) + if p in WordSet(src) then {p - n} else {}
  {
    hide Bit, Shr, And, Or;
    r := Or(dst, Shr(And(src, here), n));
    BackSet(dst, src, p, n);
  }

  /** Adds the state behind the operator at `pc` if that operator consumes the character. */
  method EatWord(g: Guts, start: nat, pc: nat, stop: nat, here: bv32, bef: bv32, ch: Input, was: bv32)
      returns (aft: bv32)
    requires FramedHere(g, start, pc, stop) && |g.strip| <= WORD_BITS && here == Bit(pc)
    requires g.strip[pc].op in {OChar, OAny, OAnyOf}
    ensures Spreads(g, start, pc, stop, WordSet(bef), ch, WordSet(was), WordSet(aft))
  {
    hide Bit, IsIn;
    var s := g.strip[pc];
    aft := was;
    match s.op {
      case OChar => if ch.Ch? && ch.c == s.opnd { aft := FwdWord(aft, bef, here, 1, pc); }
      case OAny => if ch.Ch? { aft := FwdWord(aft, bef, here, 1, pc); }
      case OAnyOf => if ch.Ch? && s.opnd < |g.sets| && ch.c in g.sets[s.opnd] { aft := FwdWord(aft, bef, here, 1, pc); }
    }
  }

  /** The end of a branch leads behind the whole choice. */
  method ChoiceWord(g: Guts, start: nat, pc: nat, stop: nat, here: bv32, ghost bef: set<nat>, ghost ch: Input,
      was: bv32) returns (aft: bv32)
    requires FramedHere(g, start, pc, stop) && |g.strip| <= WORD_BITS && here == Bit(pc) && g.strip[pc].op == OOr1
    ensures Spreads(g, start, pc, stop, bef, ch, WordSet(was), WordSet(aft))
  {
    InWord(was, pc);
    hide Bit, IsIn, And, Spreads, WordSet, LeadsTo;
    FlowTargets(g, start, pc, stop);
    aft := was;
    if And(was, here) != 0 {
      var look := FindChoiceEnd(g, pc);
      aft := FwdWord(aft, aft, here, look, pc);
    }
    ghost var t := ChoiceEnd(g, pc + 1);
    SpreadBoth(g, start, pc, stop, bef, ch, t, t, WordSet(was), WordSet(aft));
  }

  /** Adds the states that the operator at `pc`, which consumes nothing and ends no loop, leads to. */
  method FlowWord(g: Guts, start: nat, pc: nat, stop: nat, here: bv32, ghost bef: set<nat>, ghost ch: Input, was: bv32)
    returns (aft: bv32)
    requires FramedHere(g, start, pc, stop) && |g.strip| <= WORD_BITS && here == Bit(pc)
    requires g.strip[pc].op !in {OChar, OAny, OAnyOf, OPlusEnd}
    ensures Spreads(g, start, pc, stop, bef, ch, WordSet(was), WordSet(aft))
  {
    hide Bit, IsIn, And, Spreads, WordSet, LeadsTo;
    var s := g.strip[pc];
    aft := was;
    if s.op == OEnd {
      SpreadNone(g, start, pc, stop, bef, ch, WordSet(was));
    } else if s.op == OOr1 {
      aft := ChoiceWord(g, start, pc, stop, here, bef, ch, was);
    } else {
      FlowTargets(g, start, pc, stop);
      aft := FwdWord(aft, aft, here, 1, pc);
      if s.op in {OQuestBegin, OChBegin} || (s.op == OOr2 && g.strip[pc + s.opnd].op != OChEnd) {
        aft := FwdWord(aft, aft, here, s.opnd, pc);
      }
      SpreadBoth(g, start, pc, stop, bef, ch, pc + 1, Other(g, pc), WordSet(was), WordSet(aft));
    }
  }

  /** The end of a loop leads on and back; true if a new state was set behind it. */
  method LoopWord(g: Guts, start: nat, pc: nat, stop: nat, here: bv32, was: bv32) returns (aft: bv32, back: bool)
    requires FramedHere(g, start, pc, stop) && |g.strip| <= WORD_BITS && g.strip[pc].op == OPlusEnd && here == Bit(pc)
    ensures forall bef, ch :: Spreads(g, start, pc, stop, bef, ch, WordSet(was), WordSet(aft))
    ensures back <==> pc - g.strip[pc].opnd in WordSet(aft) && pc - g.strip[pc].opnd !in WordSet(was)
  {
    hide Bit, Shr, And;
    var n := g.strip[pc].opnd;
    ShrBit(pc, n);
    aft := FwdWord(was, was, here, 1, pc);
    ghost var mid := aft;
    var i := And(aft, Shr(here, n)) != 0;
    assert i <==> pc - n in WordSet(mid);
    aft := Back(aft, aft, here, n, pc);
    back := !i && And(aft, Shr(here, n)) != 0;
    assert And(aft, Shr(here, n)) != 0 <==> pc - n in WordSet(aft);
  }

  /** Adds what the operator at `pc` adds; true if the step must go back. */
  method SpreadWord(g: Guts, start: nat, pc: nat, stop: nat, here: bv32, bef: bv32, ch: Input, was: bv32)
    returns (aft: bv32, back: bool)
    requires FramedHere(g, start, pc, stop) && |g.strip| <= WORD_BITS && here == Bit(pc)
    ensures Spreads(g, start, pc, stop, WordSet(bef), ch, WordSet(was), WordSet(aft))
    ensures back <==> g.strip[pc].op == OPlusEnd
                      && pc - g.strip[pc].opnd in WordSet(aft) && pc - g.strip[pc].opnd !in WordSet(was)
  {
    hide Bit, IsIn, Spreads;
    var op := g.strip[pc].op;
    back := false;
    if op == OPlusEnd {
      aft, back := LoopWord(g, start, pc, stop, here, was);
    } else if op in {OChar, OAny, OAnyOf} {
      aft := EatWord(g, start, pc, stop, here, bef, ch, was);
    } else {
      aft := FlowWord(g, start, pc, stop, here, WordSet(bef), ch, was);
    }
  }

  ghost function UnsetBits(v: bv32): (s: set<nat>) {
    StateSet(seq(WORD_BITS, _ => true)) - WordSet(v)
  }

  lemma {:induction false} FewerUnset(v: bv32, was: bv32, r: nat)
    requires WordSet(was) <= WordSet(v)
    ensures |UnsetBits(v)| <= |UnsetBits(was)|
    ensures r in WordSet(v) && r !in WordSet(was) ==> |UnsetBits(v)| < |UnsetBits(was)|
  {
    hide IsIn;
    SmallerSet(UnsetBits(v), UnsetBits(was));
  }

  /** Handles the operator at `pc`; `pc'` is the operator to go on with. */
  method StepWordAt(g: Guts, start: nat, pc: nat, stop: nat, here: bv32, bef: bv32, ch: Input, old_: bv32,
      ghost seed: set<nat>, ghost was: set<nat>) returns (aft: bv32, pc': nat, here': bv32)
    requires Framed(g, start, stop) && start <= pc < stop < |g.strip| <= WORD_BITS && here == Bit(pc)
    requires Eaten(g, start, stop, WordSet(bef), ch) <= seed
    requires StepInv(g, start, pc, stop, WordSet(bef), ch, seed, WordSet(old_), was)
    ensures start <= pc' <= stop && here' == Bit(pc')
    ensures StepInv(g, start, pc', stop, WordSet(bef), ch, seed, WordSet(aft), was)
    ensures if pc' == pc + 1 then |UnsetBits(aft)| <= |UnsetBits(old_)| else |UnsetBits(aft)| < |UnsetBits(old_)|
  {
    assert FramedHere(g, start, pc, stop);
    hide StepInv, Framed, Eaten, Spreads, Bit, IsIn, UnsetBits, Up, Shl;
    var back;
    aft, back := SpreadWord(g, start, pc, stop, here, bef, ch, old_);
    if back {
      pc' := pc - g.strip[pc].opnd;
      SpreadBack(g, start, pc, stop, WordSet(bef), ch, seed, WordSet(old_), WordSet(aft), was);
    } else {
      pc' := pc + 1;
      SpreadOn(g, start, pc, stop, WordSet(bef), ch, seed, WordSet(old_), WordSet(aft), was);
    }
    FewerUnset(aft, old_, pc');
    BitNext(pc);
    BitIsShl(pc');
    here' := if back then Shl(1, pc') else Up(here);
  }

  lemma {:induction false} BitIsShl(p: nat)
    ensures Bit(p) == Shl(1, p)
  {
  }

  /** The word form of `RegexEngine.Step`: it computes the same set. */
  method StepWord(g: Guts, start: nat, stop: nat, bef: bv32, ch: Input, was: bv32) returns (aft: bv32)
    requires Framed(g, start, stop) && stop < |g.strip| <= WORD_BITS
    ensures LeastClosed(g, start, stop, WordSet(was) + Eaten(g, start, stop, WordSet(bef), ch), WordSet(aft))
  {
    hide Bit, IsIn, StepInv, Eaten;
    ghost var seed := WordSet(was) + Eaten(g, start, stop, WordSet(bef), ch);
    StepStart(g, start, stop, WordSet(bef), ch, WordSet(was));
    aft := was;
    var pc, here := start, Shl(1, start);
    BitIsShl(start);
    while pc != stop
      invariant start <= pc <= stop && here == Bit(pc)
      invariant StepInv(g, start, pc, stop, WordSet(bef), ch, seed, WordSet(aft), WordSet(was))
      decreases |UnsetBits(aft)|, stop - pc
    {
      aft, pc, here := StepWordAt(g, start, pc, stop, here, bef, ch, aft, seed, WordSet(was));
    }
    StepDone(g, start, stop, WordSet(bef), ch, WordSet(aft), WordSet(was));
  }

  // ------------------------------------------------------------------
  // The scans
  // ------------------------------------------------------------------

  /** The states reached before any character. */
  method Start(g: Guts, startst: nat, stopst: nat) returns (st: bv32)
    requires Framed(g, startst, stopst) && stopst < |g.strip| <= WORD_BITS
    ensures LeastClosed(g, startst, stopst, {startst}, WordSet(st))
  {
    hide Bit, IsIn;
    OrBit(0, startst);
    NoBits();
    st := Or(0, Shl(1, startst));
    BitIsShl(startst);
    assert WordSet(st) == {startst};
    assert Eaten(g, startst, stopst, {startst}, NonChar) == {};
    assert {startst} + {} == {startst};
    st := StepWord(g, startst, stopst, st, NonChar, st);
  }

  lemma {:induction false} NoBits()
    ensures WordSet(0) == {}
  {
    forall p: nat ensures !IsIn(0, p) { ZeroAnd(Bit(p)); }
  }

  lemma {:induction false} ZeroAnd(v: bv32)
    ensures And(0, v) == 0
  {
  }

  /** A step on a word boundary; there is no operator that minds it. */
  method Idle(g: Guts, startst: nat, stopst: nat, was: bv32) returns (st: bv32)
    requires Framed(g, startst, stopst) && stopst < |g.strip| <= WORD_BITS && Closed(g, startst, stopst, WordSet(was))
    ensures WordSet(st) == WordSet(was)
  {
    st := StepWord(g, startst, stopst, was, NonChar, was);
    StepIdle(g, startst, stopst, WordSet(was), WordSet(st));
  }

  /** Whether there is a match between `start` and `stop`; the result is one past where it ends. */
  method Fast(g: Guts, text: seq<Byte>, isWord: Byte -> bool, start: nat, stop: nat, startst: nat, stopst: nat)
    returns (endp: Option<nat>)
    requires Framed(g, startst, stopst) && stopst < |g.strip| <= WORD_BITS && start <= stop <= |text|
    ensures endp.Some? <==> MatchIn(g, startst, stopst, text, start, stop)
  {
    hide Reaches, Minimal, Closed, Framed, Underway, Bit;
    var p := start;
    var c := if start == 0 then None else Some(text[start - 1]);
    var st := Start(g, startst, stopst);
    var fresh_ := st;
    FirstReach(g, startst, stopst, WordSet(st));
    FirstUnderway(g, startst, stopst, text, start, WordSet(st));
    LeastIsClosed(g, startst, stopst, {startst}, WordSet(st));
    while true
      invariant start <= p <= stop
      invariant Closed(g, startst, stopst, WordSet(st)) && IsReach(g, startst, stopst, [], WordSet(fresh_))
      invariant IsUnderway(g, startst, stopst, text, start, p, WordSet(st))
      invariant forall i: nat, j: nat | start <= i && j < p :: !MatchAt(g, startst, stopst, text, i, j)
      decreases stop - p
    {
      var lastc := c;
      c := if p == |text| then None else Some(text[p]);
      if WordEdge(isWord, lastc, c) { st := Idle(g, startst, stopst, st); }
      BitIsShl(stopst);
      UnderwayMatch(g, startst, stopst, text, start, p);
      if And(st, Shl(1, stopst)) != 0 || p == stop { break; }
      st := AdvanceAll(g, text, startst, stopst, start, p, fresh_, st);
      p := p + 1;
    }
    return if And(st, Shl(1, stopst)) != 0 then Some(p + 1) else None;
  }

  /** Consumes a character of the matches that are underway, and starts a match behind it. */
  method AdvanceAll(g: Guts, text: seq<Byte>, startst: nat, stopst: nat, ghost start: nat, p: nat, fresh_: bv32,
      was: bv32) returns (st: bv32)
    requires Framed(g, startst, stopst) && stopst < |g.strip| <= WORD_BITS && start <= p < |text|
    requires IsReach(g, startst, stopst, [], WordSet(fresh_))
    requires IsUnderway(g, startst, stopst, text, start, p, WordSet(was))
    ensures IsUnderway(g, startst, stopst, text, start, p + 1, WordSet(st))
    ensures Closed(g, startst, stopst, WordSet(st))
  {
    hide Reaches, Minimal, Closed, Underway, IsReach, IsUnderway;
    st := StepWord(g, startst, stopst, was, Ch(text[p]), fresh_);
    NextUnderway(g, startst, stopst, text, start, p, WordSet(fresh_), WordSet(was), WordSet(st));
    LeastIsClosed(g, startst, stopst, WordSet(fresh_) + Eaten(g, startst, stopst, WordSet(was), Ch(text[p])),
      WordSet(st));
  }

  /** Consumes a character of the only match that is underway. */
  method Advance(g: Guts, startst: nat, stopst: nat, c: Byte, ghost w: seq<Byte>, was: bv32) returns (st: bv32)
    requires Framed(g, startst, stopst) && stopst < |g.strip| <= WORD_BITS
    requires IsReach(g, startst, stopst, w, WordSet(was))
    ensures IsReach(g, startst, stopst, w + [c], WordSet(st)) && Closed(g, startst, stopst, WordSet(st))
  {
    hide Reaches, Minimal, Closed, IsReach, IsIn;
    NoBits();
    ghost var eaten := Eaten(g, startst, stopst, WordSet(was), Ch(c));
    assert {} + eaten == eaten;
    st := StepWord(g, startst, stopst, was, Ch(c), 0);
    NextReach(g, startst, stopst, w, c, WordSet(was), WordSet(st));
    LeastIsClosed(g, startst, stopst, eaten, WordSet(st));
  }

  /** The end of the longest match from `start` that ends at or before `stop`. */
  method Slow(g: Guts, text: seq<Byte>, isWord: Byte -> bool, start: nat, stop: nat, startst: nat, stopst: nat)
    returns (matchp: Option<nat>)
    requires Framed(g, startst, stopst) && stopst < |g.strip| <= WORD_BITS && start <= stop <= |text|
    ensures IsLongest(g, startst, stopst, text, start, stop, matchp)
  {
    hide Reaches, Minimal, Closed, Framed, Bit, IsIn;
    var p := start;
    var c := if start == 0 then None else Some(text[start - 1]);
    var st := Start(g, startst, stopst);
    FirstReach(g, startst, stopst, WordSet(st));
    LeastIsClosed(g, startst, stopst, {startst}, WordSet(st));
    NoBits();
    BitIsShl(stopst);
    assert text[start..start] == [];
    matchp := None;
    while true
      invariant start <= p <= stop
      invariant Closed(g, startst, stopst, WordSet(st)) && IsReach(g, startst, stopst, text[start..p], WordSet(st))
      invariant p == start ==> matchp == None
      invariant p > start ==> IsLongest(g, startst, stopst, text, start, p - 1, matchp)
      decreases stop - p
    {
      hide Reaches, Minimal, Closed, Framed, Bit, IsIn;
      var lastc := c;
      c := if p == |text| then None else Some(text[p]);
      if WordEdge(isWord, lastc, c) { st := Idle(g, startst, stopst, st); }
      InWord(st, stopst);
      assert stopst in WordSet(st) <==> MatchAt(g, startst, stopst, text, start, p);
      if And(st, Shl(1, stopst)) != 0 { matchp := Some(p); }
      if st == 0 || p == stop {
        if p != stop { NoneAfter(g, startst, stopst, text, start, p, stop); }
        break;
      }
      st := Advance(g, startst, stopst, text[p], text[start..p], st);
      assert text[start..p + 1] == text[start..p] + [text[p]];
      p := p + 1;
    }
  }

  lemma {:induction false} InWord(v: bv32, p: nat)
    requires p < WORD_BITS
    ensures And(v, Bit(p)) != 0 <==> p in WordSet(v)
  {
    hide And, Bit;
  }

  /** The longest match is the same for both matchers. */
  lemma {:induction false} LongestOnce(g: Guts, lo: nat, hi: nat, text: seq<Byte>, start: nat, stop: nat,
      e: Option<nat>, f: Option<nat>)
    requires IsLongest(g, lo, hi, text, start, stop, e) && IsLongest(g, lo, hi, text, start, stop, f)
    ensures e == f
  {
    hide MatchAt;
  }
}
