/** The matching engine over byte arrays of states: the closure step, the deliberate and the fast scan. */
module RegexEngine {
  import opened Basics
  import opened RegexStrip

  /** What a step is taken on: a character, or a code that is none. */
  datatype Input = Ch(c: Byte) | NonChar

  ghost function StateSet(a: seq<bool>): (s: set<nat>)
    ensures forall p: nat :: p in s <==> p < |a| && a[p]
  {
    set p: nat | p < |a| && a[p]
  }

  /** The states behind the operators in `[lo, hi)` that are in `s` and consume the input. */
  ghost function Eaten(g: Guts, lo: nat, hi: nat, s: set<nat>, ch: Input): (r: set<nat>)
    ensures forall q: nat :: q in r <==> 1 <= q && EatenAt(g, lo, hi, s, ch, q - 1)
  {
    set p: nat | p in s && EatenAt(g, lo, hi, s, ch, p) :: p + 1
  }

  predicate EatenAt(g: Guts, lo: nat, hi: nat, s: set<nat>, ch: Input, p: nat) {
    p in s && lo <= p < hi && ch.Ch? && Eats(g, p, ch.c)
  }

  /** The set contains every state that a move without input from `[lo, hi)` leads to. */
  ghost predicate Closed(g: Guts, lo: nat, hi: nat, s: set<nat>) {
    forall p: nat, q: nat | p in s && lo <= p < hi && Eps(g, p, q) :: q in s
  }

  /** Every closed set that contains the seed contains `s`. */
  ghost predicate Minimal(g: Guts, lo: nat, hi: nat, seed: set<nat>, s: set<nat>) {
    forall c: set<nat> | seed <= c && Closed(g, lo, hi, c) :: s <= c
  }

  ghost predicate LeastClosed(g: Guts, lo: nat, hi: nat, seed: set<nat>, s: set<nat>) {
    seed <= s && Closed(g, lo, hi, s) && Minimal(g, lo, hi, seed, s)
  }

  lemma {:induction false} LeastClosedUnique(g: Guts, lo: nat, hi: nat, seed: set<nat>, s: set<nat>, t: set<nat>)
    requires LeastClosed(g, lo, hi, seed, s) && LeastClosed(g, lo, hi, seed, t)
    ensures s == t
  {
  }

  // ------------------------------------------------------------------
  // One step
  // ------------------------------------------------------------------

  /** What the step keeps: everything before `pc` is done, and nothing too much is set. */
  ghost predicate StepInv(g: Guts, lo: nat, pc: nat, hi: nat, bef: set<nat>, ch: Input, seed: set<nat>, s: set<nat>,
      aft: set<nat>) {
    && aft <= s && Eaten(g, lo, pc, bef, ch) <= s
    && Closed(g, lo, pc, s) && Minimal(g, lo, hi, seed, s)
  }

  /** The state sets that two writes of the step can lead from `s` to, seen from operator `pc`. */
  ghost predicate Adds(g: Guts, lo: nat, pc: nat, hi: nat, bef: set<nat>, ch: Input, s: set<nat>, s': set<nat>) {
    && s <= s'
    && forall q | q in s' && q !in s :: (pc in s' && Eps(g, pc, q)) || (EatenAt(g, lo, hi, bef, ch, pc) && q == pc + 1)
  }

  lemma {:induction false} AddsMinimal(g: Guts, lo: nat, pc: nat, hi: nat, bef: set<nat>, ch: Input, seed: set<nat>,
      s: set<nat>, s': set<nat>)
    requires lo <= pc < hi && Minimal(g, lo, hi, seed, s) && Eaten(g, lo, hi, bef, ch) <= seed
    requires Adds(g, lo, pc, hi, bef, ch, s, s') && (pc in s' ==> pc in s)
    ensures Minimal(g, lo, hi, seed, s')
  {
    forall c: set<nat> | seed <= c && Closed(g, lo, hi, c) ensures s' <= c {
      forall q | q in s' && q !in s ensures q in c {
        if EatenAt(g, lo, hi, bef, ch, pc) && q == pc + 1 {
          assert q in Eaten(g, lo, hi, bef, ch);
        }
      }
    }
  }

  lemma {:induction false} StepStart(g: Guts, lo: nat, hi: nat, bef: set<nat>, ch: Input, aft: set<nat>)
    ensures StepInv(g, lo, lo, hi, bef, ch, aft + Eaten(g, lo, hi, bef, ch), aft, aft)
  {
    assert Eaten(g, lo, lo, bef, ch) == {};
  }

  lemma {:induction false} StepDone(g: Guts, lo: nat, hi: nat, bef: set<nat>, ch: Input, s: set<nat>, aft: set<nat>)
    requires StepInv(g, lo, hi, hi, bef, ch, aft + Eaten(g, lo, hi, bef, ch), s, aft)
    ensures LeastClosed(g, lo, hi, aft + Eaten(g, lo, hi, bef, ch), s)
  {
  }

  /** The step goes on to the next operator. */
  lemma {:induction false} StepOn(g: Guts, lo: nat, pc: nat, hi: nat, bef: set<nat>, ch: Input, seed: set<nat>,
      s: set<nat>, s': set<nat>, aft: set<nat>)
    requires lo <= pc < hi && StepInv(g, lo, pc, hi, bef, ch, seed, s, aft) && Eaten(g, lo, hi, bef, ch) <= seed
    requires Adds(g, lo, pc, hi, bef, ch, s, s') && (forall q | q in s' && q !in s :: pc < q)
    requires forall q: nat | pc in s && Eps(g, pc, q) :: q in s'
    requires EatenAt(g, lo, hi, bef, ch, pc) ==> pc + 1 in s'
    ensures StepInv(g, lo, pc + 1, hi, bef, ch, seed, s', aft)
  {
    AddsMinimal(g, lo, pc, hi, bef, ch, seed, s, s');
    forall q | q in Eaten(g, lo, pc + 1, bef, ch) ensures q in s' {
      if q - 1 < pc { assert q in Eaten(g, lo, pc, bef, ch); }
      assert EatenAt(g, lo, pc + 1, bef, ch, q - 1);
    }
  }

  /** The step goes back to `r`, which was not set before. */
  lemma {:induction false} StepBack(g: Guts, lo: nat, r: nat, pc: nat, hi: nat, bef: set<nat>, ch: Input,
      seed: set<nat>, s: set<nat>, s': set<nat>, aft: set<nat>)
    requires lo <= r <= pc < hi && StepInv(g, lo, pc, hi, bef, ch, seed, s, aft) && Eaten(g, lo, hi, bef, ch) <= seed
    requires Adds(g, lo, pc, hi, bef, ch, s, s') && (forall q | q in s' && q !in s :: r <= q) && (pc in s' ==> pc in s)
    ensures StepInv(g, lo, r, hi, bef, ch, seed, s', aft)
  {
    AddsMinimal(g, lo, pc, hi, bef, ch, seed, s, s');
    forall q | q in Eaten(g, lo, r, bef, ch) ensures q in s' {
      assert EatenAt(g, lo, r, bef, ch, q - 1);
      assert q in Eaten(g, lo, pc, bef, ch);
    }
  }

  /** `s'` is `s` with what the operator at `pc` adds to it. */
  ghost predicate Spreads(g: Guts, lo: nat, pc: nat, hi: nat, bef: set<nat>, ch: Input, s: set<nat>, s': set<nat>) {
    forall q: nat ::
      q in s' <==> q in s || (pc in s && Eps(g, pc, q)) || (EatenAt(g, lo, hi, bef, ch, pc) && q == pc + 1)
  }

  /** The one or two states that an operator which consumes nothing leads to. */
  ghost predicate LeadsTo(g: Guts, pc: nat, t: nat, u: nat) {
    pc < |g.strip| && g.strip[pc].op !in {OChar, OAny, OAnyOf} && forall q: nat :: Eps(g, pc, q) <==> q == t || q == u
  }

  lemma {:induction false} SpreadBoth(g: Guts, lo: nat, pc: nat, hi: nat, bef: set<nat>, ch: Input, t: nat, u: nat,
      s: set<nat>, s': set<nat>)
    requires LeadsTo(g, pc, t, u) && s' == s + if pc in s then {t, u} else {}
    ensures Spreads(g, lo, pc, hi, bef, ch, s, s')
  {
    hide Eps;
    assert !EatenAt(g, lo, hi, bef, ch, pc);
  }

  /** The second state that an operator without input leads to, or the first again. */
  function Other(g: Guts, pc: nat): nat
    requires pc < |g.strip|
  {
    var s := g.strip[pc];
    if s.op in {OQuestBegin, OChBegin} || (s.op == OOr2 && pc + s.opnd < |g.strip| && g.strip[pc + s.opnd].op != OChEnd)
    then pc + s.opnd
    else pc + 1
  }

  lemma {:induction false} FlowTargets(g: Guts, start: nat, pc: nat, stop: nat)
    requires FramedHere(g, start, pc, stop) && g.strip[pc].op !in {OEnd, OChar, OAny, OAnyOf, OPlusEnd}
    ensures g.strip[pc].op == OOr1 ==> LeadsTo(g, pc, ChoiceEnd(g, pc + 1), ChoiceEnd(g, pc + 1))
    ensures g.strip[pc].op != OOr1 ==> LeadsTo(g, pc, pc + 1, Other(g, pc)) && pc < Other(g, pc) <= stop
    ensures g.strip[pc].op == OOr1 ==>
      pc + 1 <= ChoiceEnd(g, pc + 1) < stop && g.strip[ChoiceEnd(g, pc + 1)].op == OChEnd
  {
    ChoiceEndAhead(g, pc + 1);
  }

  lemma {:induction false} SpreadNone(g: Guts, lo: nat, pc: nat, hi: nat, bef: set<nat>, ch: Input, s: set<nat>)
    requires pc < |g.strip| && g.strip[pc].op == OEnd
    ensures Spreads(g, lo, pc, hi, bef, ch, s, s)
  {
  }

  lemma {:induction false} SpreadOn(g: Guts, lo: nat, pc: nat, hi: nat, bef: set<nat>, ch: Input, seed: set<nat>,
      s: set<nat>, s': set<nat>, aft: set<nat>)
    requires lo <= pc < hi && StepInv(g, lo, pc, hi, bef, ch, seed, s, aft) && Eaten(g, lo, hi, bef, ch) <= seed
    requires Spreads(g, lo, pc, hi, bef, ch, s, s') && pc < |g.strip|
    requires if g.strip[pc].op == OPlusEnd then pc - g.strip[pc].opnd in s' ==> pc - g.strip[pc].opnd in s
             else FramedHere(g, lo, pc, hi)
    ensures StepInv(g, lo, pc + 1, hi, bef, ch, seed, s', aft) && s <= s'
  {
    hide StepInv;
    if g.strip[pc].op != OPlusEnd { EpsAhead(g, pc); }
    StepOn(g, lo, pc, hi, bef, ch, seed, s, s', aft);
  }

  lemma {:induction false} SpreadBack(g: Guts, lo: nat, pc: nat, hi: nat, bef: set<nat>, ch: Input, seed: set<nat>,
      s: set<nat>, s': set<nat>, aft: set<nat>)
    requires lo <= pc < hi && StepInv(g, lo, pc, hi, bef, ch, seed, s, aft) && Eaten(g, lo, hi, bef, ch) <= seed
    requires Spreads(g, lo, pc, hi, bef, ch, s, s') && pc < |g.strip| && g.strip[pc].op == OPlusEnd
    requires lo <= pc - g.strip[pc].opnd
    ensures StepInv(g, lo, pc - g.strip[pc].opnd, hi, bef, ch, seed, s', aft) && s <= s'
  {
    hide StepInv;
    StepBack(g, lo, pc - g.strip[pc].opnd, pc, hi, bef, ch, seed, s, s', aft);
  }

  ghost predicate FramedHere(g: Guts, start: nat, pc: nat, stop: nat) {
    start <= pc < stop < |g.strip| && FramedAt(g, start, stop, pc)
  }

  /** Only loop ends lead backwards. */
  lemma {:induction false} EpsAhead(g: Guts, pc: nat)
    requires pc < |g.strip| && g.strip[pc].op != OPlusEnd
    requires g.strip[pc].op in {OQuestBegin, OChBegin, OOr2} ==> 0 < g.strip[pc].opnd
    ensures forall q: nat | Eps(g, pc, q) :: pc < q
  {
    ChoiceEndAhead(g, pc + 1);
  }

  lemma {:induction false} SmallerSet(a: set<nat>, b: set<nat>)
    requires a <= b
    ensures |a| <= |b| && (a != b ==> |a| < |b|)
  {
    var c := b - a;
    assert b == a + c;
  }

  /** "If here, then also there." */
  method Fwd(dst: array<bool>, src: array<bool>, here: nat, there: nat)
    requires here < src.Length && there < dst.Length
    modifies dst
    ensures StateSet(dst[..]) == StateSet(old(dst[..])) + if here in StateSet(old(src[..])) then {there} else {}
  {
    dst[there] := dst[there] || src[here];
  }

  /** The offset from `pc` to the end of the choice that the branch end at `pc` belongs to. */
  method FindChoiceEnd(g: Guts, pc: nat) returns (look: nat)
    requires pc + 1 <= ChoiceEnd(g, pc + 1) < |g.strip| && g.strip[ChoiceEnd(g, pc + 1)].op == OChEnd
    ensures pc + look == ChoiceEnd(g, pc + 1)
  {
    look := 1;
    while g.strip[pc + look].op != OChEnd
      invariant pc + look <= ChoiceEnd(g, pc + look) == ChoiceEnd(g, pc + 1)
      decreases ChoiceEnd(g, pc + 1) - look
    {
      ChoiceEndAhead(g, pc + look + g.strip[pc + look].opnd);
      look := look + g.strip[pc + look].opnd;
    }
  }

  /** The states `aft` does not contain yet. */
  ghost function Unset(g: Guts, aft: seq<bool>): set<nat> {
    StateSet(seq(|g.strip|, _ => true)) - StateSet(aft)
  }

  /** Sets the state behind the operator at `pc` if that operator consumes the character. */
  method Eat(g: Guts, start: nat, pc: nat, stop: nat, bef: array<bool>, ch: Input, aft: array<bool>)
    requires FramedHere(g, start, pc, stop) && bef.Length == aft.Length == |g.strip|
    requires g.strip[pc].op in {OChar, OAny, OAnyOf} && (bef == aft ==> ch == NonChar)
    modifies aft
    ensures Spreads(g, start, pc, stop, StateSet(old(bef[..])), ch, StateSet(old(aft[..])), StateSet(aft[..]))
  {
    var s := g.strip[pc];
    match s.op {
      case OChar => if ch.Ch? && ch.c == s.opnd { Fwd(aft, bef, pc, pc + 1); }
      case OAny => if ch.Ch? { Fwd(aft, bef, pc, pc + 1); }
      case OAnyOf => if ch.Ch? && s.opnd < |g.sets| && ch.c in g.sets[s.opnd] { Fwd(aft, bef, pc, pc + 1); }
    }
  }

  /** Sets the states that the operator at `pc`, which consumes nothing and ends no loop, leads to. */
  method Flow(g: Guts, start: nat, pc: nat, stop: nat, ghost bef: set<nat>, ghost ch: Input, aft: array<bool>)
    requires FramedHere(g, start, pc, stop) && aft.Length == |g.strip|
    requires g.strip[pc].op !in {OChar, OAny, OAnyOf, OPlusEnd}
    modifies aft
    ensures Spreads(g, start, pc, stop, bef, ch, StateSet(old(aft[..])), StateSet(aft[..]))
  {
    hide Spreads;
    var s := g.strip[pc];
    ghost var s0 := StateSet(aft[..]);
    if s.op == OEnd {
      SpreadNone(g, start, pc, stop, bef, ch, s0);
      return;
    }
    FlowTargets(g, start, pc, stop);
    hide LeadsTo;
    if s.op == OOr1 {
      if aft[pc] {
        var look := FindChoiceEnd(g, pc);
        Fwd(aft, aft, pc, pc + look);
      }
      ghost var t := ChoiceEnd(g, pc + 1);
      SpreadBoth(g, start, pc, stop, bef, ch, t, t, s0, StateSet(aft[..]));
    } else {
      Fwd(aft, aft, pc, pc + 1);
      if s.op in {OQuestBegin, OChBegin} || (s.op == OOr2 && g.strip[pc + s.opnd].op != OChEnd) {
        Fwd(aft, aft, pc, pc + s.opnd);
      }
      SpreadBoth(g, start, pc, stop, bef, ch, pc + 1, Other(g, pc), s0, StateSet(aft[..]));
    }
  }

  /** The end of a loop leads on and back; true if a new state was set behind it. */
  method Loop(g: Guts, start: nat, pc: nat, stop: nat, aft: array<bool>) returns (back: bool)
    requires FramedHere(g, start, pc, stop) && g.strip[pc].op == OPlusEnd && aft.Length == |g.strip|
    modifies aft
    ensures forall bef, ch :: Spreads(g, start, pc, stop, bef, ch, StateSet(old(aft[..])), StateSet(aft[..]))
    ensures back <==> pc - g.strip[pc].opnd in StateSet(aft[..]) && pc - g.strip[pc].opnd !in StateSet(old(aft[..]))
  {
    var back_ := pc - g.strip[pc].opnd;
    Fwd(aft, aft, pc, pc + 1);
    var i := aft[back_];
    Fwd(aft, aft, pc, back_);
    back := !i && aft[back_];
  }

  /** Handles the operator at `pc`; `pc'` is the operator to go on with. */
  method StepAt(g: Guts, start: nat, pc: nat, stop: nat, bef: array<bool>, ch: Input, aft: array<bool>,
      ghost from: set<nat>, ghost seed: set<nat>, ghost was: set<nat>) returns (pc': nat)
    requires Framed(g, start, stop) && start <= pc < stop < |g.strip| && bef.Length == aft.Length == |g.strip|
    requires bef == aft ==> ch == NonChar
    requires bef != aft ==> StateSet(bef[..]) == from
    requires Eaten(g, start, stop, from, ch) <= seed &&
      StepInv(g, start, pc, stop, from, ch, seed, StateSet(aft[..]), was)
    modifies aft
    ensures start <= pc' <= stop
    ensures StepInv(g, start, pc', stop, from, ch, seed, StateSet(aft[..]), was)
    ensures StateSet(old(aft[..])) <= StateSet(aft[..])
    ensures pc' == pc + 1 || exists r: nat :: r in StateSet(aft[..]) && r !in StateSet(old(aft[..]))
  {
    assert FramedHere(g, start, pc, stop);
    hide StepInv, Framed, Eaten, Spreads;
    ghost var s0 := StateSet(aft[..]);
    pc' := pc + 1;
    if g.strip[pc].op == OPlusEnd {
      var back := Loop(g, start, pc, stop, aft);
      if back {
        pc' := pc - g.strip[pc].opnd;
        SpreadBack(g, start, pc, stop, from, ch, seed, s0, StateSet(aft[..]), was);
        return;
      }
    } else if g.strip[pc].op in {OChar, OAny, OAnyOf} {
      Eat(g, start, pc, stop, bef, ch, aft);
    } else {
      Flow(g, start, pc, stop, from, ch, aft);
    }
    SpreadOn(g, start, pc, stop, from, ch, seed, s0, StateSet(aft[..]), was);
  }

  /** Closes `aft`, together with the states that `ch` leads to from `bef`, under the moves in `[start, stop)`. */
  method Step(g: Guts, start: nat, stop: nat, bef: array<bool>, ch: Input, aft: array<bool>)
    requires Framed(g, start, stop) && stop < |g.strip| && bef.Length == aft.Length == |g.strip|
    requires bef == aft ==> ch == NonChar
    modifies aft
    ensures LeastClosed(g, start, stop,
                        StateSet(old(aft[..])) + Eaten(g, start, stop, StateSet(old(bef[..])), ch),
                        StateSet(aft[..]))
  {
    hide StepInv, Eaten;
    ghost var was, from := StateSet(aft[..]), StateSet(bef[..]);
    ghost var seed := was + Eaten(g, start, stop, from, ch);
    StepStart(g, start, stop, from, ch, was);
    var pc := start;
    while pc != stop
      invariant start <= pc <= stop
      invariant bef != aft ==> StateSet(bef[..]) == from
      invariant StepInv(g, start, pc, stop, from, ch, seed, StateSet(aft[..]), was)
      decreases |Unset(g, aft[..])|, stop - pc
    {
      ghost var before := aft[..];
      pc := StepAt(g, start, pc, stop, bef, ch, aft, from, seed, was);
      SmallerSet(Unset(g, aft[..]), Unset(g, before));
    }
    StepDone(g, start, stop, from, ch, StateSet(aft[..]), was);
  }
}
