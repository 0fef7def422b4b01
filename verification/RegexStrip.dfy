/** The strip of a compiled expression: its operators, the code of each syntax tree, and the moves the matching
    engine may make over it. */
module RegexStrip {
  import opened Basics
  import opened RegexSyntax

  datatype Op =
    | OEnd | OChar | OAny | OAnyOf
    | OPlusBegin | OPlusEnd
    | OQuestBegin | OQuestEnd
    | OLParen | ORParen
    | OChBegin | OOr1 | OOr2 | OChEnd

  /** An operator and its operand; the offsets of the flow operators are relative. */
  datatype Sop = Sop(op: Op, opnd: nat)

  type Code = seq<Sop>

  /** The part of a compiled expression that matching uses. */
  datatype Guts = Guts(strip: Code, sets: Sets)

  // ------------------------------------------------------------------
  // Code of a tree
  // ------------------------------------------------------------------

  function PlusCode(x: Code): Code {
    [Sop(OPlusBegin, |x| + 1)] + x + [Sop(OPlusEnd, |x| + 1)]
  }

  function QuestCode(x: Code): Code {
    [Sop(OQuestBegin, |x| + 1)] + x + [Sop(OQuestEnd, |x| + 1)]
  }

  /** `x` or nothing, written as the two-way choice `(x|)`. */
  function MaybeCode(x: Code): Code {
    [Sop(OChBegin, |x| + 2)] + x + [Sop(OOr1, |x| + 1), Sop(OOr2, 1), Sop(OChEnd, 2)]
  }

  /** `x{least,most}`. */
  function RepeatCode(x: Code, least: nat, most: Bound): Code
    requires InOrder(least, most)
    decreases least
  {
    if most == Finite(0) then []
    else if least == 0 then MaybeCode(RepeatCode1(x, most))
    else if least == 1 then RepeatCode1(x, most)
    else x + RepeatCode(x, least - 1, Less(most))
  }

  /** `x{1,most}`. */
  function RepeatCode1(x: Code, most: Bound): Code
    requires InOrder(1, most)
    decreases if most.Finite? then most.n else 0
  {
    match most
    case Unbounded => PlusCode(x)
    case Finite(n) => if n == 1 then x else MaybeCode(x) + RepeatCode1(x, Finite(n - 1))
  }

  function PostCode(x: Code, post: Post): Code
    requires post.Interval? ==> InOrder(post.least, post.most)
  {
    match post
    case Once => x
    case Star => QuestCode(PlusCode(x))
    case Plus => PlusCode(x)
    case Quest => MaybeCode(x)
    case Interval(least, most) => RepeatCode(x, least, most)
  }

  /** The first alternative of a choice, up to the second. */
  function FirstAlt(x: Code): Code {
    [Sop(OChBegin, |x| + 2)] + x + [Sop(OOr1, |x| + 1)]
  }

  function MiddleAlt(x: Code): Code {
    [Sop(OOr2, |x| + 2)] + x + [Sop(OOr1, |x| + 2)]
  }

  function LastAlt(x: Code): Code {
    [Sop(OOr2, |x| + 1)] + x + [Sop(OChEnd, |x| + 2)]
  }

  /** The bounds of every interval in the tree are in order. */
  predicate BoundsOkAtom(a: Atom) {
    a.Sub? ==> BoundsOk(a.body)
  }

  predicate BoundsOkExp(e: Exp) {
    BoundsOkAtom(e.atom) &&
    (e.post.Interval? ==> InOrder(e.post.least, e.post.most))
  }

  predicate BoundsOkExps(es: seq<Exp>) {
    forall i | 0 <= i < |es| :: BoundsOkExp(es[i])
  }

  predicate BoundsOk(t: Ere) {
    forall i | 0 <= i < |t| :: BoundsOkExps(t[i].exps)
  }

  function AtomCode(a: Atom): Code
    requires BoundsOkAtom(a)
    decreases a, 0
  {
    match a
    case Chr(c) => [Sop(OChar, c)]
    case Any => [Sop(OAny, 0)]
    case AnyOf(n) => [Sop(OAnyOf, n)]
    case Sub(subno, body) =>
      [Sop(OLParen, subno)] + (if body == [] then [] else EreCode(body)) + [Sop(ORParen, subno)]
  }

  function ExpCode(e: Exp): Code
    requires BoundsOkExp(e)
  {
    PostCode(AtomCode(e.atom), e.post)
  }

  function ExpsCode(es: seq<Exp>): Code
    requires BoundsOkExps(es)
  {
    if es == [] then [] else ExpCode(es[0]) + ExpsCode(es[1..])
  }

  /** The alternatives of a choice but the first. */
  function TailCode(t: Ere): Code
    requires BoundsOk(t) && t != []
    decreases t, 0
  {
    var x := ExpsCode(t[0].exps);
    if |t| == 1 then LastAlt(x) else MiddleAlt(x) + TailCode(t[1..])
  }

  function EreCode(t: Ere): Code
    requires BoundsOk(t) && t != []
    decreases t, 1
  {
    var x := ExpsCode(t[0].exps);
    if |t| == 1 then x else FirstAlt(x) + TailCode(t[1..])
  }

  // ------------------------------------------------------------------
  // Moves
  // ------------------------------------------------------------------

  /** The end of the choice that the second half of a branch mark at `p` belongs to. */
  function ChoiceEnd(g: Guts, p: nat): nat
    decreases |g.strip| - p
  {
    if p < |g.strip| && g.strip[p].op == OOr2 && g.strip[p].opnd > 0
    then ChoiceEnd(g, p + g.strip[p].opnd)
    else p
  }

  /** From the state before operator `p` the state before `q` is reached without input. */
  predicate Eps(g: Guts, p: nat, q: nat) {
    p < |g.strip| &&
    var s := g.strip[p];
    match s.op
    case OEnd => false
    case OChar => false
    case OAny => false
    case OAnyOf => false
    case OPlusBegin => q == p + 1
    case OPlusEnd => q == p + 1 || q == p - s.opnd
    case OQuestBegin => q == p + 1 || q == p + s.opnd
    case OQuestEnd => q == p + 1
    case OLParen => q == p + 1
    case ORParen => q == p + 1
    case OChBegin => q == p + 1 || q == p + s.opnd
    case OOr1 => q == ChoiceEnd(g, p + 1)
    case OOr2 =>
      q == p + 1 ||
      (q == p + s.opnd && q < |g.strip| && g.strip[q].op != OChEnd)
    case OChEnd => q == p + 1
  }

  /** Operator `p` consumes the character `c`. */
  predicate Eats(g: Guts, p: nat, c: Byte) {
    p < |g.strip| &&
    var s := g.strip[p];
    match s.op
    case OChar => s.opnd == c
    case OAny => true
    case OAnyOf => s.opnd < |g.sets| && c in g.sets[s.opnd]
    case _ => false
  }

  ghost predicate Move(g: Guts, p: nat, w: seq<Byte>, q: nat, v: seq<Byte>) {
    (Eps(g, p, q) && v == w) ||
    (w != [] && Eats(g, p, w[0]) && q == p + 1 && v == w[1..])
  }

  /** `n` moves, all from states in `[lo, hi)`, lead from `s` to `t` and consume `w`. */
  ghost predicate Path(g: Guts, lo: nat, hi: nat, s: nat, w: seq<Byte>, t: nat, n: nat)
    decreases n
  {
    if n == 0 then
      s == t && w == []
    else
      lo <= s < hi &&
      exists q, v :: Move(g, s, w, q, v) && Path(g, lo, hi, q, v, t, n - 1)
  }

  ghost predicate Reaches(g: Guts, lo: nat, hi: nat, s: nat, w: seq<Byte>, t: nat) {
    exists n: nat :: Path(g, lo, hi, s, w, t, n)
  }

  /** The operators in `[i, j)` accept `w`. */
  ghost predicate Accepts(g: Guts, i: nat, j: nat, w: seq<Byte>) {
    Reaches(g, i, j, i, w, j)
  }

  /** No move from `[lo, hi)` leaves `[lo, hi]`, and only loop ends lead backwards. */
  ghost predicate Framed(g: Guts, lo: nat, hi: nat) {
    lo <= hi <= |g.strip| &&
    forall p | lo <= p < hi :: FramedAt(g, lo, hi, p)
  }

  ghost predicate FramedAt(g: Guts, lo: nat, hi: nat, p: nat)
    requires p < hi <= |g.strip|
  {
    var s := g.strip[p];
    match s.op
    case OPlusEnd => lo <= p - s.opnd
    case OQuestBegin => 0 < s.opnd && p + s.opnd <= hi
    case OChBegin => 0 < s.opnd && p + s.opnd <= hi
    case OOr1 => p + 1 < hi && ChoiceEnd(g, p + 1) < hi && g.strip[ChoiceEnd(g, p + 1)].op == OChEnd
    case OOr2 => 0 < s.opnd && p + s.opnd < hi
    case _ => true
  }

  lemma {:induction false} FramedMove(g: Guts, lo: nat, hi: nat, p: nat, w: seq<Byte>, q: nat, v: seq<Byte>)
    requires Framed(g, lo, hi) && lo <= p < hi
    requires Move(g, p, w, q, v)
    ensures lo <= q <= hi
    ensures |v| <= |w| && v == w[|w| - |v|..]
  {
    assert FramedAt(g, lo, hi, p);
    if g.strip[p].op == OOr1 { ChoiceEndAhead(g, p + 1); }
  }

  lemma {:induction false} ChoiceEndAhead(g: Guts, p: nat)
    ensures p <= ChoiceEnd(g, p)
    decreases |g.strip| - p
  {
    if p < |g.strip| && g.strip[p].op == OOr2 && g.strip[p].opnd > 0 {
      ChoiceEndAhead(g, p + g.strip[p].opnd);
    }
  }
}
