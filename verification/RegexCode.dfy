/** The code of a syntax tree accepts exactly the language of the tree, wherever it stands in a strip. */
module RegexCode {
  import opened Basics
  import opened RegexSyntax
  import opened RegexStrip
  import opened RegexPaths

  ghost predicate At(g: Guts, i: nat, x: Code) {
    i + |x| <= |g.strip| && g.strip[i..i + |x|] == x
  }

  lemma {:induction false} AtParts(g: Guts, i: nat, x: Code, y: Code)
    requires At(g, i, x + y)
    ensures At(g, i, x) && At(g, i + |x|, y)
  {
    var c := g.strip[i..i + |x + y|];
    assert c[..|x|] == x && c[|x|..] == y;
  }

  lemma {:induction false} AtOp(g: Guts, i: nat, x: Code, k: nat)
    requires At(g, i, x) && k < |x|
    ensures g.strip[i + k] == x[k]
  {
    assert g.strip[i..i + |x|][k] == x[k];
  }

  lemma {:induction false} AtInner(g: Guts, i: nat, a: Sop, x: Code, y: Code)
    requires At(g, i, [a] + x + y)
    ensures g.strip[i] == a && At(g, i + 1, x) && At(g, i + 1 + |x|, y)
  {
    AtParts(g, i, [a] + x, y);
    AtParts(g, i, [a], x);
    AtOp(g, i, [a], 0);
  }

  // ------------------------------------------------------------------
  // Operators around one operand
  // ------------------------------------------------------------------

  /** `[i, j)` accepts one or more words that `[p, q)` accepts. */
  ghost predicate IsLoop(g: Guts, i: nat, j: nat, p: nat, q: nat) {
    Framed(g, i, j) && forall w :: Accepts(g, i, j, w) <==> IteratesSome(g, p, q, w)
  }

  /** `[i, j)` accepts the empty word and what `[p, q)` accepts. */
  ghost predicate IsBypass(g: Guts, i: nat, j: nat, p: nat, q: nat) {
    Framed(g, i, j) && forall w :: Accepts(g, i, j, w) <==> w == [] || Accepts(g, p, q, w)
  }

  lemma {:induction false} PlusPiece(g: Guts, i: nat, x: Code)
    requires At(g, i, PlusCode(x)) && Framed(g, i + 1, i + 1 + |x|)
    ensures IsLoop(g, i, i + |x| + 2, i + 1, i + 1 + |x|)
  {
    var j := i + |x| + 2;
    AtInner(g, i, Sop(OPlusBegin, |x| + 1), x, [Sop(OPlusEnd, |x| + 1)]);
    AtOp(g, j - 1, [Sop(OPlusEnd, |x| + 1)], 0);
    FrameAround(g, i, j);
    forall w ensures Accepts(g, i, j, w) <==> IteratesSome(g, i + 1, j - 1, w) { PlusAccepts(g, i, j, w); }
  }

  lemma {:induction false} QuestPiece(g: Guts, i: nat, x: Code)
    requires At(g, i, QuestCode(x)) && Framed(g, i + 1, i + 1 + |x|)
    ensures IsBypass(g, i, i + |x| + 2, i + 1, i + 1 + |x|)
  {
    var j := i + |x| + 2;
    AtInner(g, i, Sop(OQuestBegin, |x| + 1), x, [Sop(OQuestEnd, |x| + 1)]);
    AtOp(g, j - 1, [Sop(OQuestEnd, |x| + 1)], 0);
    FrameAround(g, i, j);
    forall w ensures Accepts(g, i, j, w) <==> w == [] || Accepts(g, i + 1, j - 1, w) { QuestAccepts(g, i, j, w); }
  }

  /** The operand of `MaybeCode`. */
  lemma {:induction false} AtMaybe(g: Guts, i: nat, x: Code)
    requires At(g, i, MaybeCode(x))
    ensures At(g, i + 1, x) && g.strip[i] == Sop(OChBegin, |x| + 2)
    ensures At(g, i + 1 + |x|, [Sop(OOr1, |x| + 1), Sop(OOr2, 1), Sop(OChEnd, 2)])
  {
    AtInner(g, i, Sop(OChBegin, |x| + 2), x, [Sop(OOr1, |x| + 1), Sop(OOr2, 1), Sop(OChEnd, 2)]);
  }

  lemma {:induction false} MaybePiece(g: Guts, i: nat, x: Code)
    requires At(g, i, MaybeCode(x)) && Framed(g, i + 1, i + 1 + |x|)
    ensures IsBypass(g, i, i + |x| + 4, i + 1, i + 1 + |x|)
  {
    hide Accepts, At;
    var j, m := i + |x| + 4, i + |x| + 2;
    AtMaybe(g, i, x);
    AtMarks(g, m - 1, Sop(OOr1, |x| + 1));
    ChoicePiece(g, i, m, j);
    forall w ensures Accepts(g, i, j, w) <==> w == [] || Accepts(g, i + 1, m - 1, w) {
      WrapAccepts(g, m, j, w);
      AcceptsEmpty(g, m + 1, w);
    }
  }

  /** The end marks of a choice with an empty last alternative. */
  lemma {:induction false} AtMarks(g: Guts, i: nat, a: Sop)
    requires At(g, i, [a, Sop(OOr2, 1), Sop(OChEnd, 2)])
    ensures i + 3 <= |g.strip| && g.strip[i] == a
    ensures g.strip[i + 1] == Sop(OOr2, 1) && g.strip[i + 2] == Sop(OChEnd, 2)
    ensures Framed(g, i + 1, i + 3) && ChoiceEnd(g, i + 1) == i + 2
  {
    var y := [a, Sop(OOr2, 1), Sop(OChEnd, 2)];
    AtOp(g, i, y, 0);
    AtOp(g, i, y, 1);
    AtOp(g, i, y, 2);
    assert ChoiceEnd(g, i + 2) == i + 2;
    assert FramedAt(g, i + 1, i + 3, i + 1) && FramedAt(g, i + 1, i + 3, i + 2);
  }

  /** A fork, an alternative, its end mark, and the remaining alternatives. */
  lemma {:induction false} ChoicePiece(g: Guts, i: nat, m: nat, j: nat)
    requires i + 1 < m < j && Framed(g, i + 1, m - 1) && Framed(g, m, j)
    requires (g.strip[i].op == OChBegin || g.strip[i].op == OOr2) && g.strip[i].opnd == m - i
    requires g.strip[m].op == OOr2 && g.strip[m - 1].op == OOr1
    requires g.strip[j - 1].op == OChEnd && ChoiceEnd(g, m) == j - 1
    ensures Framed(g, i, j)
    ensures forall w :: Accepts(g, i, j, w) <==> Accepts(g, i + 1, m - 1, w) || Accepts(g, m, j, w)
  {
    forall p | i <= p < j ensures FramedAt(g, i, j, p) {
      if i < p < m - 1 { assert FramedAt(g, i + 1, m - 1, p); }
      if m <= p { assert FramedAt(g, m, j, p); }
    }
    forall w ensures Accepts(g, i, j, w) <==> Accepts(g, i + 1, m - 1, w) || Accepts(g, m, j, w) {
      ChoiceAccepts(g, i, m, j, w);
    }
  }

  lemma {:induction false} FrameAround(g: Guts, i: nat, j: nat)
    requires i + 1 < j <= |g.strip| && Framed(g, i + 1, j - 1)
    requires g.strip[i].op in {OPlusBegin, OLParen} || (g.strip[i].op == OQuestBegin && g.strip[i].opnd == j - 1 - i)
    requires g.strip[j - 1].op in {OQuestEnd, ORParen} ||
      (g.strip[j - 1].op == OPlusEnd && g.strip[j - 1].opnd == j - 1 - i)
    ensures Framed(g, i, j)
  {
    forall p | i <= p < j ensures FramedAt(g, i, j, p) {
      if i < p < j - 1 { assert FramedAt(g, i + 1, j - 1, p); }
    }
  }

  // ------------------------------------------------------------------
  // Atoms and repetitions
  // ------------------------------------------------------------------

  ghost predicate IsAtom(g: Guts, i: nat, j: nat, a: Atom) {
    Framed(g, i, j) && forall w :: Accepts(g, i, j, w) <==> InAtom(a, g.sets, w)
  }

  ghost predicate IsExp(g: Guts, i: nat, j: nat, e: Exp) {
    Framed(g, i, j) && forall w :: Accepts(g, i, j, w) <==> InExp(e, g.sets, w)
  }

  /** The code `x` accepts the atom's language wherever it stands. */
  ghost predicate IsAtomEverywhere(g: Guts, x: Code, a: Atom) {
    forall p: nat :: At(g, p, x) ==> IsAtom(g, p, p + |x|, a)
  }

  lemma {:induction false} IteratesRepeats(g: Guts, i: nat, j: nat, a: Atom, n: nat, w: seq<Byte>)
    requires IsAtom(g, i, j, a)
    ensures Iterates(g, i, j, n, w) <==> Repeats(a, g.sets, n, w)
    decreases n
  {
    if n > 0 {
      forall k | 0 <= k <= |w| ensures Iterates(g, i, j, n - 1, w[k..]) <==> Repeats(a, g.sets, n - 1, w[k..]) {
        IteratesRepeats(g, i, j, a, n - 1, w[k..]);
      }
    }
  }

  lemma {:induction false} RepeatsOnce(a: Atom, sets: Sets, w: seq<Byte>)
    ensures Repeats(a, sets, 1, w) <==> InAtom(a, sets, w)
  {
    if Repeats(a, sets, 1, w) {
      var k :| 0 <= k <= |w| && InAtom(a, sets, w[..k]) && Repeats(a, sets, 0, w[k..]);
      assert w[..k] == w;
    }
    if InAtom(a, sets, w) {
      assert w[..|w|] == w && Repeats(a, sets, 0, w[|w|..]);
    }
  }

  /** One more repetition in front. */
  lemma {:induction false} RepeatsCons(a: Atom, sets: Sets, k: nat, n: nat, w: seq<Byte>)
    requires k <= |w| && InAtom(a, sets, w[..k]) && Repeats(a, sets, n, w[k..])
    ensures Repeats(a, sets, n + 1, w)
  {
  }

  /** Two ways of allowing the same numbers of repetitions. */
  lemma {:induction false} SamePost(a: Atom, sets: Sets, p: Post, q: Post, w: seq<Byte>)
    requires forall n: nat :: Allowed(p, n) <==> Allowed(q, n)
    ensures InExp(Exp(a, p), sets, w) <==> InExp(Exp(a, q), sets, w)
  {
  }

  lemma {:induction false} OnceExp(a: Atom, sets: Sets, w: seq<Byte>)
    ensures InExp(Exp(a, Once), sets, w) <==> InAtom(a, sets, w)
  {
    RepeatsOnce(a, sets, w);
    assert Allowed(Once, 1);
    assert forall n: nat :: Allowed(Exp(a, Once).post, n) ==> n == 1;
  }

  lemma {:induction false} PlusExp(g: Guts, i: nat, x: Code, a: Atom)
    requires At(g, i, PlusCode(x)) && IsAtomEverywhere(g, x, a)
    ensures IsExp(g, i, i + |x| + 2, Exp(a, Plus))
  {
    hide Accepts;
    AtInner(g, i, Sop(OPlusBegin, |x| + 1), x, [Sop(OPlusEnd, |x| + 1)]);
    PlusPiece(g, i, x);
    LoopExp(g, i, i + |x| + 2, i + 1, i + 1 + |x|, a);
  }

  lemma {:induction false} LoopExp(g: Guts, i: nat, j: nat, p: nat, q: nat, a: Atom)
    requires IsLoop(g, i, j, p, q) && IsAtom(g, p, q, a)
    ensures IsExp(g, i, j, Exp(a, Plus))
  {
    hide Accepts;
    forall w ensures IteratesSome(g, p, q, w) <==> InExp(Exp(a, Plus), g.sets, w) {
      if IteratesSome(g, p, q, w) {
        var n: nat :| 1 <= n && Iterates(g, p, q, n, w);
        IteratesRepeats(g, p, q, a, n, w);
        assert Allowed(Exp(a, Plus).post, n);
      }
      if InExp(Exp(a, Plus), g.sets, w) {
        var n: nat :| Allowed(Exp(a, Plus).post, n) && Repeats(Exp(a, Plus).atom, g.sets, n, w);
        IteratesRepeats(g, p, q, a, n, w);
      }
    }
  }

  lemma {:induction false} PlusInterval(g: Guts, i: nat, j: nat, a: Atom)
    requires IsExp(g, i, j, Exp(a, Plus))
    ensures IsExp(g, i, j, Exp(a, Interval(1, Unbounded)))
  {
    forall w ensures InExp(Exp(a, Interval(1, Unbounded)), g.sets, w) <==> InExp(Exp(a, Plus), g.sets, w) {
      SamePost(a, g.sets, Interval(1, Unbounded), Plus, w);
    }
  }

  lemma {:induction false} OnceInterval(g: Guts, i: nat, j: nat, a: Atom)
    requires IsAtom(g, i, j, a)
    ensures IsExp(g, i, j, Exp(a, Interval(1, Finite(1))))
  {
    forall w ensures InExp(Exp(a, Interval(1, Finite(1))), g.sets, w) <==> InAtom(a, g.sets, w) {
      SamePost(a, g.sets, Interval(1, Finite(1)), Once, w);
      OnceExp(a, g.sets, w);
    }
  }

  lemma {:induction false} AtRepeat(g: Guts, i: nat, x: Code, top: nat)
    requires 1 < top && At(g, i, RepeatCode1(x, Finite(top)))
    ensures At(g, i, MaybeCode(x)) && At(g, i + 1, x)
    ensures At(g, i + |x| + 4, RepeatCode1(x, Finite(top - 1)))
    ensures |RepeatCode1(x, Finite(top))| == |x| + 4 + |RepeatCode1(x, Finite(top - 1))|
  {
    AtParts(g, i, MaybeCode(x), RepeatCode1(x, Finite(top - 1)));
    AtMaybe(g, i, x);
  }

  /** `x{1,most}`. */
  lemma {:induction false} Repeat1Exp(g: Guts, i: nat, x: Code, a: Atom, most: Bound)
    requires InOrder(1, most) && At(g, i, RepeatCode1(x, most)) && IsAtomEverywhere(g, x, a)
    ensures IsExp(g, i, i + |RepeatCode1(x, most)|, Exp(a, Interval(1, most)))
    decreases if most.Finite? then most.n else 0
  {
    hide At, Framed, Accepts;
    match most
    case Unbounded =>
      PlusExp(g, i, x, a);
      PlusInterval(g, i, i + |x| + 2, a);
    case Finite(top) =>
      if top == 1 {
        OnceInterval(g, i, i + |x|, a);
      } else {
        AtRepeat(g, i, x, top);
        var m, y := i + |x| + 4, RepeatCode1(x, Finite(top - 1));
        Repeat1Exp(g, m, x, a, Finite(top - 1));
        MaybeExp(g, i, x, a);
        OptionalFirst(g, i, i + 1, i + 1 + |x|, m, m + |y|, a, top - 1);
      }
  }

  lemma {:induction false} MaybeExp(g: Guts, i: nat, x: Code, a: Atom)
    requires At(g, i, MaybeCode(x)) && IsAtomEverywhere(g, x, a)
    ensures IsAtom(g, i + 1, i + 1 + |x|, a) && IsBypass(g, i, i + |x| + 4, i + 1, i + 1 + |x|)
  {
    hide Accepts;
    AtMaybe(g, i, x);
    MaybePiece(g, i, x);
  }

  /** `(x|)x{1,n}` accepts what `x{1,n+1}` should. */
  lemma {:induction false} OptionalFirst(g: Guts, i: nat, p: nat, q: nat, m: nat, j: nat, a: Atom, n: nat)
    requires 1 <= n && IsBypass(g, i, m, p, q) && IsAtom(g, p, q, a)
    requires IsExp(g, m, j, Exp(a, Interval(1, Finite(n))))
    ensures IsExp(g, i, j, Exp(a, Interval(1, Finite(n + 1))))
  {
    SeqFramed(g, i, m, j);
    forall w ensures Accepts(g, i, j, w) <==> InExp(Exp(a, Interval(1, Finite(n + 1))), g.sets, w) {
      SeqAccepts(g, i, m, j, w);
      OptionalThenLess(a, g.sets, n, w);
    }
  }

  lemma {:induction false} OptionalThenLess(a: Atom, sets: Sets, n: nat, w: seq<Byte>)
    requires 1 <= n
    ensures InExp(Exp(a, Interval(1, Finite(n + 1))), sets, w) <==>
            exists k | 0 <= k <= |w| ::
              (w[..k] == [] || InAtom(a, sets, w[..k])) && InExp(Exp(a, Interval(1, Finite(n))), sets, w[k..])
  {
    var all, less := Exp(a, Interval(1, Finite(n + 1))), Exp(a, Interval(1, Finite(n)));
    if InExp(all, sets, w) {
      var c: nat :| Allowed(all.post, c) && Repeats(all.atom, sets, c, w);
      if c == 1 {
        assert w[0..] == w && Allowed(less.post, c);
        assert InExp(less, sets, w[0..]);
      } else {
        var k :| 0 <= k <= |w| && InAtom(a, sets, w[..k]) && Repeats(a, sets, c - 1, w[k..]);
        assert Allowed(less.post, c - 1);
        assert InExp(less, sets, w[k..]);
      }
    }
    if k :| 0 <= k <= |w| && (w[..k] == [] || InAtom(a, sets, w[..k])) && InExp(less, sets, w[k..]) {
      var c: nat :| Allowed(less.post, c) && Repeats(less.atom, sets, c, w[k..]);
      if w[..k] == [] {
        assert w[k..] == w && Allowed(all.post, c);
      } else {
        RepeatsCons(a, sets, k, c, w);
        assert Allowed(all.post, c + 1);
      }
    }
  }

  /** `x{least,most}`. */
  lemma {:induction false} RepeatExp(g: Guts, i: nat, x: Code, a: Atom, least: nat, most: Bound)
    requires InOrder(least, most) && At(g, i, RepeatCode(x, least, most)) && IsAtomEverywhere(g, x, a)
    ensures IsExp(g, i, i + |RepeatCode(x, least, most)|, Exp(a, Interval(least, most)))
    decreases least
  {
    hide At, Framed, Accepts;
    if most == Finite(0) {
      EmptyExp(g, i, a);
    } else if least == 0 {
      var y := RepeatCode1(x, most);
      AtMaybe(g, i, y);
      Repeat1Exp(g, i + 1, x, a, most);
      MaybePiece(g, i, y);
      BypassExp(g, i, i + |y| + 4, i + 1, i + 1 + |y|, a, most);
    } else if least == 1 {
      Repeat1Exp(g, i, x, a, most);
    } else {
      var y := RepeatCode(x, least - 1, Less(most));
      AtParts(g, i, x, y);
      RepeatExp(g, i + |x|, x, a, least - 1, Less(most));
      OneMore(g, i, i + |x|, i + |x| + |y|, a, least, most);
    }
  }

  lemma {:induction false} EmptyExp(g: Guts, i: nat, a: Atom)
    requires At(g, i, [])
    ensures IsExp(g, i, i, Exp(a, Interval(0, Finite(0))))
  {
    forall w ensures Accepts(g, i, i, w) <==> InExp(Exp(a, Interval(0, Finite(0))), g.sets, w) {
      AcceptsEmpty(g, i, w);
      NoneExp(a, g.sets, w);
    }
  }

  lemma {:induction false} BypassExp(g: Guts, i: nat, j: nat, p: nat, q: nat, a: Atom, most: Bound)
    requires most != Finite(0) && IsBypass(g, i, j, p, q) && IsExp(g, p, q, Exp(a, Interval(1, most)))
    ensures IsExp(g, i, j, Exp(a, Interval(0, most)))
  {
    hide Accepts;
    forall w
      ensures InExp(Exp(a, Interval(0, most)), g.sets, w) <==> w == [] || InExp(Exp(a, Interval(1, most)), g.sets, w)
    {
      NoneOrSome(a, g.sets, most, w);
    }
  }

  lemma {:induction false} NoneExp(a: Atom, sets: Sets, w: seq<Byte>)
    ensures InExp(Exp(a, Interval(0, Finite(0))), sets, w) <==> w == []
  {
    var e := Exp(a, Interval(0, Finite(0)));
    if InExp(e, sets, w) {
      var n: nat :| Allowed(e.post, n) && Repeats(e.atom, sets, n, w);
    }
    if w == [] { assert Allowed(e.post, 0) && Repeats(e.atom, sets, 0, w); }
  }

  lemma {:induction false} NoneOrSome(a: Atom, sets: Sets, most: Bound, w: seq<Byte>)
    requires most != Finite(0)
    ensures InExp(Exp(a, Interval(0, most)), sets, w) <==> w == [] || InExp(Exp(a, Interval(1, most)), sets, w)
  {
    var e0, e1 := Exp(a, Interval(0, most)), Exp(a, Interval(1, most));
    if InExp(e0, sets, w) {
      var n: nat :| Allowed(e0.post, n) && Repeats(e0.atom, sets, n, w);
      if n > 0 { assert Allowed(e1.post, n); }
    }
    if w == [] { assert Allowed(e0.post, 0) && Repeats(e0.atom, sets, 0, w); }
    if InExp(e1, sets, w) {
      var n: nat :| Allowed(e1.post, n) && Repeats(e1.atom, sets, n, w);
      assert Allowed(e0.post, n);
    }
  }

  /** `xx{m-1,n-1}` accepts what `x{m,n}` should. */
  lemma {:induction false} OneMore(g: Guts, i: nat, m: nat, j: nat, a: Atom, least: nat, most: Bound)
    requires 1 < least && InOrder(least, most)
    requires IsAtom(g, i, m, a) && IsExp(g, m, j, Exp(a, Interval(least - 1, Less(most))))
    ensures IsExp(g, i, j, Exp(a, Interval(least, most)))
  {
    SeqFramed(g, i, m, j);
    forall w ensures Accepts(g, i, j, w) <==> InExp(Exp(a, Interval(least, most)), g.sets, w) {
      SeqAccepts(g, i, m, j, w);
      OneThenLess(a, g.sets, least, most, w);
    }
  }

  lemma {:induction false} OneThenLess(a: Atom, sets: Sets, least: nat, most: Bound, w: seq<Byte>)
    requires 1 < least && InOrder(least, most)
    ensures InExp(Exp(a, Interval(least, most)), sets, w) <==>
            exists k | 0 <= k <= |w| ::
              InAtom(a, sets, w[..k]) && InExp(Exp(a, Interval(least - 1, Less(most))), sets, w[k..])
  {
    var e, e' := Exp(a, Interval(least, most)), Exp(a, Interval(least - 1, Less(most)));
    if InExp(e, sets, w) {
      var n: nat :| Allowed(e.post, n) && Repeats(e.atom, sets, n, w);
      var k :| 0 <= k <= |w| && InAtom(a, sets, w[..k]) && Repeats(a, sets, n - 1, w[k..]);
      assert Allowed(e'.post, n - 1);
      assert InExp(e', sets, w[k..]);
    }
    if k :| 0 <= k <= |w| && InAtom(a, sets, w[..k]) && InExp(e', sets, w[k..]) {
      var n: nat :| Allowed(e'.post, n) && Repeats(e'.atom, sets, n, w[k..]);
      RepeatsCons(a, sets, k, n, w);
      assert Allowed(e.post, n + 1);
    }
  }

  lemma {:induction false} OnePiece(g: Guts, i: nat, a: Atom)
    requires !a.Sub? && At(g, i, AtomCode(a))
    ensures IsAtom(g, i, i + 1, a)
  {
    AtOp(g, i, AtomCode(a), 0);
    assert Framed(g, i, i + 1) by { assert FramedAt(g, i, i + 1, i); }
    forall w ensures Accepts(g, i, i + 1, w) <==> InAtom(a, g.sets, w) {
      OneAccepts(g, i, w);
    }
  }

  lemma {:induction false} GroupPiece(g: Guts, i: nat, j: nat, a: Atom)
    requires a.Sub? && i + 1 < j
    requires if a.body == [] then i + 2 == j && j <= |g.strip| else IsEre(g, i + 1, j - 1, a.body)
    requires j <= |g.strip| && g.strip[i].op == OLParen && g.strip[j - 1].op == ORParen
    ensures IsAtom(g, i, j, a)
  {
    FrameAround(g, i, j);
    forall w ensures Accepts(g, i, j, w) <==> InAtom(a, g.sets, w) {
      WrapAccepts(g, i, j, w);
      if a.body == [] { AcceptsEmpty(g, i + 1, w); }
    }
  }

  lemma {:induction false} StarExp(g: Guts, i: nat, x: Code, a: Atom)
    requires At(g, i, QuestCode(PlusCode(x))) && IsAtomEverywhere(g, x, a)
    ensures IsExp(g, i, i + |x| + 4, Exp(a, Star))
  {
    hide Accepts;
    var y := PlusCode(x);
    AtInner(g, i, Sop(OQuestBegin, |y| + 1), y, [Sop(OQuestEnd, |y| + 1)]);
    PlusExp(g, i + 1, x, a);
    PlusInterval(g, i + 1, i + 1 + |y|, a);
    QuestPiece(g, i, y);
    BypassExp(g, i, i + |y| + 2, i + 1, i + 1 + |y|, a, Unbounded);
    forall w ensures InExp(Exp(a, Star), g.sets, w) <==> InExp(Exp(a, Interval(0, Unbounded)), g.sets, w) {
      SamePost(a, g.sets, Star, Interval(0, Unbounded), w);
    }
  }

  lemma {:induction false} QuestExp(g: Guts, i: nat, x: Code, a: Atom)
    requires At(g, i, MaybeCode(x)) && IsAtomEverywhere(g, x, a)
    ensures IsExp(g, i, i + |x| + 4, Exp(a, Quest))
  {
    hide Accepts;
    MaybeExp(g, i, x, a);
    OnceInterval(g, i + 1, i + 1 + |x|, a);
    BypassExp(g, i, i + |x| + 4, i + 1, i + 1 + |x|, a, Finite(1));
    forall w ensures InExp(Exp(a, Quest), g.sets, w) <==> InExp(Exp(a, Interval(0, Finite(1))), g.sets, w) {
      SamePost(a, g.sets, Quest, Interval(0, Finite(1)), w);
    }
  }

  lemma {:induction false} OnceOnly(g: Guts, i: nat, j: nat, a: Atom)
    requires IsAtom(g, i, j, a)
    ensures IsExp(g, i, j, Exp(a, Once))
  {
    hide Accepts;
    forall w ensures InExp(Exp(a, Once), g.sets, w) <==> InAtom(a, g.sets, w) { OnceExp(a, g.sets, w); }
  }

  /** Every repetition of a piece of code is the repetition of its language. */
  lemma {:induction false} PostCorrect(g: Guts, i: nat, x: Code, a: Atom, post: Post)
    requires post.Interval? ==> InOrder(post.least, post.most)
    requires At(g, i, PostCode(x, post)) && IsAtomEverywhere(g, x, a)
    ensures IsExp(g, i, i + |PostCode(x, post)|, Exp(a, post))
  {
    hide At, IsExp, IsAtom;
    match post
    case Once => OnceOnly(g, i, i + |x|, a);
    case Plus => PlusExp(g, i, x, a);
    case Star => StarExp(g, i, x, a);
    case Quest => QuestExp(g, i, x, a);
    case Interval(least, most) => RepeatExp(g, i, x, a, least, most);
  }

  lemma {:induction false} AtomCorrect(g: Guts, i: nat, a: Atom)
    requires BoundsOkAtom(a) && At(g, i, AtomCode(a))
    ensures IsAtom(g, i, i + |AtomCode(a)|, a)
    decreases a, 0
  {
    if a.Sub? {
      hide At, Framed, Accepts;
      AtGroup(g, i, a);
      if a.body != [] { EreCorrect(g, i + 1, a.body); }
      GroupPiece(g, i, i + |AtomCode(a)|, a);
    } else {
      OnePiece(g, i, a);
    }
  }

  lemma {:induction false} AtGroup(g: Guts, i: nat, a: Atom)
    requires a.Sub? && BoundsOkAtom(a) && At(g, i, AtomCode(a))
    ensures var j := i + |AtomCode(a)|;
      && j <= |g.strip| && g.strip[i].op == OLParen && g.strip[j - 1].op == ORParen
      && if a.body == [] then i + 2 == j else At(g, i + 1, EreCode(a.body)) && i + |EreCode(a.body)| + 2 == j
  {
    hide EreCode;
    var y := if a.body == [] then [] else EreCode(a.body);
    AtInner(g, i, Sop(OLParen, a.subno), y, [Sop(ORParen, a.subno)]);
    AtOp(g, i + 1 + |y|, [Sop(ORParen, a.subno)], 0);
  }

  lemma {:induction false} ExpCorrect(g: Guts, i: nat, e: Exp)
    requires BoundsOkExp(e) && At(g, i, ExpCode(e))
    ensures IsExp(g, i, i + |ExpCode(e)|, e)
    decreases e, 3
  {
    hide At, IsExp, IsAtom, PostCode;
    forall p: nat | At(g, p, AtomCode(e.atom)) ensures IsAtom(g, p, p + |AtomCode(e.atom)|, e.atom) {
      AtomCorrect(g, p, e.atom);
    }
    PostCorrect(g, i, AtomCode(e.atom), e.atom, e.post);
  }

  // ------------------------------------------------------------------
  // Concatenation and alternation
  // ------------------------------------------------------------------

  ghost predicate IsExps(g: Guts, i: nat, j: nat, es: seq<Exp>) {
    Framed(g, i, j) && forall w :: Accepts(g, i, j, w) <==> InExps(es, g.sets, w)
  }

  ghost predicate IsEre(g: Guts, i: nat, j: nat, t: Ere) {
    Framed(g, i, j) && forall w :: Accepts(g, i, j, w) <==> InEre(t, g.sets, w)
  }

  lemma {:induction false} ExpsCorrect(g: Guts, i: nat, es: seq<Exp>)
    requires BoundsOkExps(es) && At(g, i, ExpsCode(es))
    ensures IsExps(g, i, i + |ExpsCode(es)|, es)
    decreases es, 4
  {
    hide At, Framed, Accepts;
    if es == [] {
      EmptyExps(g, i);
    } else {
      var x, y := ExpCode(es[0]), ExpsCode(es[1..]);
      var m, j := i + |x|, i + |x| + |y|;
      AtParts(g, i, x, y);
      ExpCorrect(g, i, es[0]);
      ExpsCorrect(g, m, es[1..]);
      SeqFramed(g, i, m, j);
      forall w ensures Accepts(g, i, j, w) <==> InExps(es, g.sets, w) {
        SeqAccepts(g, i, m, j, w);
      }
    }
  }

  lemma {:induction false} EmptyExps(g: Guts, i: nat)
    requires At(g, i, [])
    ensures IsExps(g, i, i, [])
  {
    forall w ensures Accepts(g, i, i, w) <==> InExps([], g.sets, w) { AcceptsEmpty(g, i, w); }
  }

  lemma {:induction false} InEreCons(t: Ere, sets: Sets, w: seq<Byte>)
    requires t != []
    ensures InEre(t, sets, w) <==> InExps(t[0].exps, sets, w) || InEre(t[1..], sets, w)
  {
    if i :| 0 <= i < |t| && InExps(t[i].exps, sets, w) {
      if i > 0 { assert t[1..][i - 1] == t[i]; }
    }
    if i :| 0 <= i < |t[1..]| && InExps(t[1..][i].exps, sets, w) {
      assert t[1..][i] == t[i + 1];
    }
  }

  /** The shape of the alternatives from the branch mark at `i` on. */
  ghost predicate IsTail(g: Guts, i: nat, j: nat, t: Ere) {
    i < j && IsEre(g, i, j, t) && g.strip[i].op == OOr2 && g.strip[j - 1].op == OChEnd && ChoiceEnd(g, i) == j - 1
  }

  lemma {:induction false} LastPiece(g: Guts, i: nat, b: Branch)
    requires BoundsOkExps(b.exps) && At(g, i, LastAlt(ExpsCode(b.exps)))
    requires IsExps(g, i + 1, i + 1 + |ExpsCode(b.exps)|, b.exps)
    ensures IsTail(g, i, i + |ExpsCode(b.exps)| + 2, [b])
  {
    var x := ExpsCode(b.exps);
    var j := i + |x| + 2;
    AtInner(g, i, Sop(OOr2, |x| + 1), x, [Sop(OChEnd, |x| + 2)]);
    AtOp(g, i, LastAlt(x), |x| + 1);
    assert ChoiceEnd(g, j - 1) == j - 1;
    forall p | i <= p < j ensures FramedAt(g, i, j, p) {
      if i < p < j - 1 { assert FramedAt(g, i + 1, j - 1, p); }
    }
    forall w ensures Accepts(g, i, j, w) <==> InEre([b], g.sets, w) {
      WrapAccepts(g, i, j, w);
      InEreCons([b], g.sets, w);
    }
  }

  lemma {:induction false} ForkPiece(g: Guts, i: nat, m: nat, j: nat, t: Ere)
    requires |t| > 1 && i + 1 < m && IsExps(g, i + 1, m - 1, t[0].exps) && IsTail(g, m, j, t[1..])
    requires (g.strip[i].op == OChBegin || g.strip[i].op == OOr2) && g.strip[i].opnd == m - i &&
      g.strip[m - 1].op == OOr1
    ensures IsEre(g, i, j, t)
    ensures g.strip[i].op == OOr2 ==> IsTail(g, i, j, t)
  {
    hide At, Framed, Accepts;
    ChoicePiece(g, i, m, j);
    forall w ensures Accepts(g, i, j, w) <==> InEre(t, g.sets, w) {
      InEreCons(t, g.sets, w);
    }
  }

  /** Where the parts of the alternatives from a branch mark on stand. */
  lemma {:induction false} AtTail(g: Guts, i: nat, t: Ere)
    requires BoundsOk(t) && |t| > 1 && At(g, i, TailCode(t))
    ensures var x, m := ExpsCode(t[0].exps), i + |ExpsCode(t[0].exps)| + 2;
      && At(g, i + 1, x) && At(g, m, TailCode(t[1..]))
      && g.strip[i] == Sop(OOr2, |x| + 2) && g.strip[m - 1].op == OOr1
      && |TailCode(t)| == |x| + 2 + |TailCode(t[1..])|
  {
    hide At, ExpsCode;
    var x := ExpsCode(t[0].exps);
    AtParts(g, i, MiddleAlt(x), TailCode(t[1..]));
    AtInner(g, i, Sop(OOr2, |x| + 2), x, [Sop(OOr1, |x| + 2)]);
    AtOp(g, i, MiddleAlt(x), |x| + 1);
  }

  /** Where the parts of a choice stand. */
  lemma {:induction false} AtChoice(g: Guts, i: nat, t: Ere)
    requires BoundsOk(t) && |t| > 1 && At(g, i, EreCode(t))
    ensures var x, m := ExpsCode(t[0].exps), i + |ExpsCode(t[0].exps)| + 2;
      && At(g, i + 1, x) && At(g, m, TailCode(t[1..]))
      && g.strip[i] == Sop(OChBegin, |x| + 2) && g.strip[m - 1].op == OOr1
      && |EreCode(t)| == |x| + 2 + |TailCode(t[1..])|
  {
    hide At, ExpsCode;
    var x := ExpsCode(t[0].exps);
    AtParts(g, i, FirstAlt(x), TailCode(t[1..]));
    AtInner(g, i, Sop(OChBegin, |x| + 2), x, [Sop(OOr1, |x| + 1)]);
    AtOp(g, i, FirstAlt(x), |x| + 1);
  }

  lemma {:induction false} TailCorrect(g: Guts, i: nat, t: Ere)
    requires BoundsOk(t) && t != [] && At(g, i, TailCode(t))
    ensures IsTail(g, i, i + |TailCode(t)|, t)
    decreases t, 5
  {
    hide At, Framed, Accepts, ExpsCode;
    var x := ExpsCode(t[0].exps);
    if |t| == 1 {
      assert t == [t[0]];
      AtInner(g, i, Sop(OOr2, |x| + 1), x, [Sop(OChEnd, |x| + 2)]);
      ExpsCorrect(g, i + 1, t[0].exps);
      LastPiece(g, i, t[0]);
    } else {
      var m := i + |x| + 2;
      AtTail(g, i, t);
      ExpsCorrect(g, i + 1, t[0].exps);
      TailCorrect(g, m, t[1..]);
      ForkPiece(g, i, m, m + |TailCode(t[1..])|, t);
    }
  }

  lemma {:induction false} SingleEre(g: Guts, i: nat, j: nat, t: Ere)
    requires |t| == 1 && IsExps(g, i, j, t[0].exps)
    ensures IsEre(g, i, j, t)
  {
    hide At, Framed, Accepts;
    forall w ensures InExps(t[0].exps, g.sets, w) <==> InEre(t, g.sets, w) { InEreCons(t, g.sets, w); }
  }

  /** The strip of an expression accepts exactly the language of its tree. */
  lemma {:induction false} EreCorrect(g: Guts, i: nat, t: Ere)
    requires BoundsOk(t) && t != [] && At(g, i, EreCode(t))
    ensures IsEre(g, i, i + |EreCode(t)|, t)
    decreases t, 6
  {
    hide At, Framed, Accepts;
    var x := ExpsCode(t[0].exps);
    if |t| == 1 {
      ExpsCorrect(g, i, t[0].exps);
      SingleEre(g, i, i + |x|, t);
    } else {
      var m := i + |x| + 2;
      AtChoice(g, i, t);
      ExpsCorrect(g, i + 1, t[0].exps);
      TailCorrect(g, m, t[1..]);
      ForkPiece(g, i, m, m + |TailCode(t[1..])|, t);
    }
  }
}
