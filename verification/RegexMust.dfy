/** The literal string every match must contain, found by one pass over the strip. */
module RegexMust {
  import opened Basics
  import opened RegexSyntax
  import opened RegexStrip
  import opened RegexCode

  /** The pass at operator `pos`: the literal sequence it is in, and the longest one it has left. */
  datatype Scan = Scan(pos: nat, cur: seq<int>, best: seq<int>) | BadScan

  /** From an operator that may be skipped, or a branch mark, to the end of what is skipped. */
  function SkipTo(g: Guts, p: nat): Option<nat>
    decreases |g.strip| - p
  {
    if p >= |g.strip| || g.strip[p].opnd == 0 then None
    else
      var q := p + g.strip[p].opnd;
      if q >= |g.strip| then None
      else match g.strip[q].op
        case OQuestEnd => Some(q)
        case OChEnd => Some(q)
        case OOr2 => SkipTo(g, q)
        case _ => None
  }

  function BreakAt(s: Scan, p: nat): Scan
    requires s.Scan?
  {
    Scan(p, [], if |s.cur| > |s.best| then s.cur else s.best)
  }

  /** One turn of the pass; it stands still at the end of the strip. */
  function Turn(g: Guts, s: Scan): Scan {
    if s.BadScan? || s.pos >= |g.strip| then BadScan
    else
      var op := g.strip[s.pos];
      match op.op
      case OEnd => s
      case OChar => Scan(s.pos + 1, s.cur + [op.opnd], s.best)
      case OPlusBegin => s.(pos := s.pos + 1)
      case OLParen => s.(pos := s.pos + 1)
      case ORParen => s.(pos := s.pos + 1)
      case OQuestBegin => (match SkipTo(g, s.pos) case None => BadScan case Some(q) => BreakAt(s, q))
      case OChBegin => (match SkipTo(g, s.pos) case None => BadScan case Some(q) => BreakAt(s, q))
      case _ => BreakAt(s, s.pos + 1)
  }

  function Turns(g: Guts, s: Scan, n: nat): Scan
    decreases n
  {
    if n == 0 then s else Turns(g, Turn(g, s), n - 1)
  }

  lemma {:induction false} TurnsConcat(g: Guts, s: Scan, m: nat, n: nat)
    ensures Turns(g, s, m + n) == Turns(g, Turns(g, s, m), n)
    decreases m
  {
    hide Turn;
    if m > 0 { TurnsConcat(g, Turn(g, s), m - 1, n); }
  }

  ghost predicate Leads(g: Guts, s: Scan, s': Scan) {
    exists n: nat :: Turns(g, s, n) == s'
  }

  lemma {:induction false} LeadsNone(g: Guts, s: Scan)
    ensures Leads(g, s, s)
  {
    assert Turns(g, s, 0) == s;
  }

  lemma {:induction false} LeadsOne(g: Guts, s: Scan)
    ensures Leads(g, s, Turn(g, s))
  {
    assert Turns(g, s, 1) == Turns(g, Turn(g, s), 0);
  }

  lemma {:induction false} LeadsTrans(g: Guts, s: Scan, s': Scan, s'': Scan)
    requires Leads(g, s, s') && Leads(g, s', s'')
    ensures Leads(g, s, s'')
  {
    var m: nat :| Turns(g, s, m) == s';
    var n: nat :| Turns(g, s', n) == s'';
    TurnsConcat(g, s, m, n);
  }

  predicate AtEnd(g: Guts, s: Scan) {
    s.Scan? && s.pos < |g.strip| && g.strip[s.pos].op == OEnd
  }

  lemma {:induction false} EndStays(g: Guts, s: Scan, n: nat)
    requires AtEnd(g, s)
    ensures Turns(g, s, n) == s
    decreases n
  {
    if n > 0 { EndStays(g, s, n - 1); }
  }

  /** Two passes from the same point that come to an end come to the same end. */
  lemma {:induction false} EndUnique(g: Guts, s: Scan, s1: Scan, s2: Scan)
    requires Leads(g, s, s1) && AtEnd(g, s1) && Leads(g, s, s2) && AtEnd(g, s2)
    ensures s1 == s2
  {
    var m: nat :| Turns(g, s, m) == s1;
    var n: nat :| Turns(g, s, n) == s2;
    if m <= n {
      TurnsConcat(g, s, m, n - m);
      EndStays(g, s1, n - m);
    } else {
      TurnsConcat(g, s, n, m - n);
      EndStays(g, s2, m - n);
    }
  }

  // ------------------------------------------------------------------
  // What the pass keeps
  // ------------------------------------------------------------------

  ghost predicate Occurs(x: seq<int>, u: seq<int>) {
    exists k: nat :: OccursAt(x, u, k)
  }

  ghost predicate OccursAt(x: seq<int>, u: seq<int>, k: nat) {
    k + |x| <= |u| && u[k..k + |x|] == x
  }

  lemma {:induction false} OccursMore(x: seq<int>, a: seq<int>, u: seq<int>, b: seq<int>)
    requires Occurs(x, u)
    ensures Occurs(x, a + u + b)
  {
    var k: nat :| OccursAt(x, u, k);
    assert (a + u + b)[|a| + k..|a| + k + |x|] == u[k..k + |x|];
    assert OccursAt(x, a + u + b, |a| + k);
  }

  /** `u` is text the operators passed so far may have consumed. */
  ghost predicate Carries(s: Scan, u: seq<int>) {
    s.Scan? && |s.cur| <= |u| && u[|u| - |s.cur|..] == s.cur && Occurs(s.best, u)
  }

  lemma {:induction false} BreakCarries(s: Scan, u: seq<int>, w: seq<int>, p: nat)
    requires Carries(s, u)
    ensures Carries(BreakAt(s, p), u + w)
  {
    if |s.cur| > |s.best| { assert OccursAt(s.cur, u, |u| - |s.cur|); }
    var best := BreakAt(s, p).best;
    OccursMore(best, [], u, w);
    assert [] + u + w == u + w;
  }

  lemma {:induction false} CarriesPos(s: Scan, u: seq<int>, p: nat)
    requires s.Scan?
    ensures Carries(s, u) <==> Carries(s.(pos := p), u)
  {
  }

  lemma {:induction false} CarriesOn(s: Scan, u: seq<int>, w: seq<Byte>, k: nat)
    requires k <= |w| && Carries(s, (u + w[..k]) + w[k..])
    ensures Carries(s, u + w)
  {
    assert u + w == (u + w[..k]) + w[k..];
  }

  ghost predicate OverAtom(s: Scan, s': Scan, a: Atom, sets: Sets) {
    forall u: seq<int>, w: seq<Byte> | Carries(s, u) && InAtom(a, sets, w) :: Carries(s', u + w)
  }

  ghost predicate OverExp(s: Scan, s': Scan, e: Exp, sets: Sets) {
    forall u: seq<int>, w: seq<Byte> | Carries(s, u) && InExp(e, sets, w) :: Carries(s', u + w)
  }

  ghost predicate OverExps(s: Scan, s': Scan, es: seq<Exp>, sets: Sets) {
    forall u: seq<int>, w: seq<Byte> | Carries(s, u) && InExps(es, sets, w) :: Carries(s', u + w)
  }

  ghost predicate OverEre(s: Scan, s': Scan, t: Ere, sets: Sets) {
    forall u: seq<int>, w: seq<Byte> | Carries(s, u) && InEre(t, sets, w) :: Carries(s', u + w)
  }

  /** The pass gets over the code `x` of the atom wherever it stands. */
  ghost predicate ScansAtom(g: Guts, x: Code, a: Atom) {
    forall s: Scan :: s.Scan? && At(g, s.pos, x) ==> ScansAtomFrom(g, x, a, s)
  }

  ghost predicate ScansAtomFrom(g: Guts, x: Code, a: Atom, s: Scan)
    requires s.Scan?
  {
    exists s': Scan :: s'.Scan? && s'.pos == s.pos + |x| && Leads(g, s, s') && OverAtom(s, s', a, g.sets)
  }

  /** The code of an optional operand is skipped. */
  lemma {:induction false} MaybeScan(g: Guts, x: Code, s: Scan) returns (s': Scan)
    requires s.Scan? && At(g, s.pos, MaybeCode(x))
    ensures s' == BreakAt(s, s.pos + |x| + 4) && Leads(g, s, s')
  {
    var i := s.pos;
    AtMaybe(g, i, x);
    AtMarks(g, i + 1 + |x|, Sop(OOr1, |x| + 1));
    assert SkipTo(g, i + |x| + 2) == Some(i + |x| + 3);
    assert SkipTo(g, i) == Some(i + |x| + 3);
    LeadsOne(g, s);
    LeadsOne(g, Turn(g, s));
    s' := Turn(g, Turn(g, s));
    LeadsTrans(g, s, Turn(g, s), s');
  }

  lemma {:induction false} QuestScan(g: Guts, x: Code, s: Scan) returns (s': Scan)
    requires s.Scan? && At(g, s.pos, QuestCode(x))
    ensures s' == BreakAt(s, s.pos + |x| + 2) && Leads(g, s, s')
  {
    var i := s.pos;
    AtInner(g, i, Sop(OQuestBegin, |x| + 1), x, [Sop(OQuestEnd, |x| + 1)]);
    AtOp(g, i + 1 + |x|, [Sop(OQuestEnd, |x| + 1)], 0);
    assert SkipTo(g, i) == Some(i + |x| + 1);
    LeadsOne(g, s);
    LeadsOne(g, Turn(g, s));
    s' := Turn(g, Turn(g, s));
    LeadsTrans(g, s, Turn(g, s), s');
  }

  /** A skipped operand may stand for any text. */
  lemma {:induction false} BreakOver(s: Scan, p: nat, e: Exp, sets: Sets)
    requires s.Scan?
    ensures OverExp(s, BreakAt(s, p), e, sets)
  {
    forall u: seq<int>, w: seq<Byte> | Carries(s, u) && InExp(e, sets, w) ensures Carries(BreakAt(s, p), u + w) {
      BreakCarries(s, u, w, p);
    }
  }

  lemma {:induction false} PlusScan(g: Guts, x: Code, a: Atom, s: Scan) returns (s': Scan)
    requires s.Scan? && At(g, s.pos, PlusCode(x)) && ScansAtom(g, x, a)
    ensures s'.Scan? && s'.pos == s.pos + |x| + 2 && Leads(g, s, s')
    ensures forall post: Post | !Allowed(post, 0) :: OverExp(s, s', Exp(a, post), g.sets)
  {
    hide Carries, Leads;
    var i := s.pos;
    AtInner(g, i, Sop(OPlusBegin, |x| + 1), x, [Sop(OPlusEnd, |x| + 1)]);
    AtOp(g, i + 1 + |x|, [Sop(OPlusEnd, |x| + 1)], 0);
    var s1 := Turn(g, s);
    LeadsOne(g, s);
    assert ScansAtomFrom(g, x, a, s1);
    var s2: Scan :| s2.Scan? && s2.pos == s1.pos + |x| && Leads(g, s1, s2) && OverAtom(s1, s2, a, g.sets);
    s' := Turn(g, s2);
    LeadsOne(g, s2);
    LeadsTrans(g, s, s1, s2);
    LeadsTrans(g, s, s2, s');
    forall post: Post | !Allowed(post, 0) ensures OverExp(s, s', Exp(a, post), g.sets) {
      LoopOver(s, s1, s2, s', a, post, g.sets);
    }
  }

  /** What the first turn of a loop contains, all turns contain. */
  lemma {:induction false} LoopOver(s: Scan, s1: Scan, s2: Scan, s': Scan, a: Atom, post: Post, sets: Sets)
    requires s.Scan? && s1.Scan? && s2.Scan? && s'.Scan? && s1 == s.(pos := s1.pos) && s' == BreakAt(s2, s'.pos)
    requires OverAtom(s1, s2, a, sets) && !Allowed(post, 0)
    ensures OverExp(s, s', Exp(a, post), sets)
  {
    hide Carries;
    var e := Exp(a, post);
    forall u: seq<int>, w: seq<Byte> | Carries(s, u) && InExp(e, sets, w) ensures Carries(s', u + w) {
      var n: nat :| Allowed(e.post, n) && Repeats(e.atom, sets, n, w);
      var k :| 0 <= k <= |w| && InAtom(a, sets, w[..k]) && Repeats(a, sets, n - 1, w[k..]);
      CarriesPos(s, u, s1.pos);
      BreakCarries(s2, u + w[..k], w[k..], s'.pos);
      CarriesOn(s', u, w, k);
    }
  }

  /** One operand, once. */
  lemma {:induction false} OnceScan(g: Guts, x: Code, a: Atom, post: Post, s: Scan) returns (s': Scan)
    requires s.Scan? && At(g, s.pos, x) && ScansAtom(g, x, a)
    requires forall n: nat :: Allowed(post, n) <==> n == 1
    ensures s'.Scan? && s'.pos == s.pos + |x| && Leads(g, s, s') && OverExp(s, s', Exp(a, post), g.sets)
  {
    assert ScansAtomFrom(g, x, a, s);
    s' :| s'.Scan? && s'.pos == s.pos + |x| && Leads(g, s, s') && OverAtom(s, s', a, g.sets);
    forall u: seq<int>, w: seq<Byte> | Carries(s, u) && InExp(Exp(a, post), g.sets, w) ensures Carries(s', u + w) {
      RepeatsOnce(a, g.sets, w);
    }
  }

  lemma {:induction false} Repeat1Scan(g: Guts, x: Code, a: Atom, most: Bound, s: Scan) returns (s': Scan)
    requires InOrder(1, most) && s.Scan? && At(g, s.pos, RepeatCode1(x, most)) && ScansAtom(g, x, a)
    ensures s'.Scan? && s'.pos == s.pos + |RepeatCode1(x, most)| && Leads(g, s, s')
    ensures OverExp(s, s', Exp(a, Interval(1, most)), g.sets)
    decreases if most.Finite? then most.n else 0
  {
    hide At, Carries, Leads;
    match most
    case Unbounded => s' := PlusScan(g, x, a, s);
    case Finite(top) =>
      if top == 1 {
        s' := OnceScan(g, x, a, Interval(1, most), s);
      } else {
        AtRepeat(g, s.pos, x, top);
        var s1 := MaybeScan(g, x, s);
        s' := Repeat1Scan(g, x, a, Finite(top - 1), s1);
        LeadsTrans(g, s, s1, s');
        OptionalOver(s, s1, s', a, top - 1, g.sets);
      }
  }

  lemma {:induction false} OptionalOver(s: Scan, s1: Scan, s': Scan, a: Atom, n: nat, sets: Sets)
    requires 1 <= n && s.Scan? && s1.Scan? && s1 == BreakAt(s, s1.pos)
    requires OverExp(s1, s', Exp(a, Interval(1, Finite(n))), sets)
    ensures OverExp(s, s', Exp(a, Interval(1, Finite(n + 1))), sets)
  {
    hide Carries, Allowed;
    forall u: seq<int>, w: seq<Byte> | Carries(s, u) && InExp(Exp(a, Interval(1, Finite(n + 1))), sets, w)
      ensures Carries(s', u + w)
    {
      OptionalThenLess(a, sets, n, w);
      var k :| 0 <= k <= |w| && InExp(Exp(a, Interval(1, Finite(n))), sets, w[k..]);
      BreakCarries(s, u, w[..k], s1.pos);
      CarriesOn(s', u, w, k);
    }
  }

  lemma {:induction false} RepeatScan(g: Guts, x: Code, a: Atom, least: nat, most: Bound, s: Scan) returns (s': Scan)
    requires InOrder(least, most) && s.Scan? && At(g, s.pos, RepeatCode(x, least, most)) && ScansAtom(g, x, a)
    ensures s'.Scan? && s'.pos == s.pos + |RepeatCode(x, least, most)| && Leads(g, s, s')
    ensures OverExp(s, s', Exp(a, Interval(least, most)), g.sets)
    decreases least
  {
    hide At, Carries, Leads;
    if most == Finite(0) {
      s' := s;
      LeadsNone(g, s);
      forall u: seq<int>, w: seq<Byte> | Carries(s, u) && InExp(Exp(a, Interval(least, most)), g.sets, w)
        ensures Carries(s', u + w)
      {
        NoneExp(a, g.sets, w);
        assert u + w == u;
      }
    } else if least == 0 {
      s' := MaybeScan(g, RepeatCode1(x, most), s);
      BreakOver(s, s'.pos, Exp(a, Interval(least, most)), g.sets);
    } else if least == 1 {
      s' := Repeat1Scan(g, x, a, most, s);
    } else {
      var y := RepeatCode(x, least - 1, Less(most));
      AtParts(g, s.pos, x, y);
      var s1 := OnceScan(g, x, a, Once, s);
      s' := RepeatScan(g, x, a, least - 1, Less(most), s1);
      LeadsTrans(g, s, s1, s');
      MoreOver(s, s1, s', a, least, most, g.sets);
    }
  }

  lemma {:induction false} MoreOver(s: Scan, s1: Scan, s': Scan, a: Atom, least: nat, most: Bound, sets: Sets)
    requires 1 < least && InOrder(least, most)
    requires OverExp(s, s1, Exp(a, Once), sets) && OverExp(s1, s', Exp(a, Interval(least - 1, Less(most))), sets)
    ensures OverExp(s, s', Exp(a, Interval(least, most)), sets)
  {
    hide Carries, Allowed;
    forall u: seq<int>, w: seq<Byte> | Carries(s, u) && InExp(Exp(a, Interval(least, most)), sets, w)
      ensures Carries(s', u + w)
    {
      OneThenLess(a, sets, least, most, w);
      var k :| 0 <= k <= |w| && InAtom(a, sets, w[..k]) && InExp(Exp(a, Interval(least - 1, Less(most))), sets, w[k..]);
      OnceExp(a, sets, w[..k]);
      CarriesOn(s', u, w, k);
    }
  }

  lemma {:induction false} PostScan(g: Guts, x: Code, a: Atom, post: Post, s: Scan) returns (s': Scan)
    requires post.Interval? ==> InOrder(post.least, post.most)
    requires s.Scan? && At(g, s.pos, PostCode(x, post)) && ScansAtom(g, x, a)
    ensures s'.Scan? && s'.pos == s.pos + |PostCode(x, post)| && Leads(g, s, s') && OverExp(s, s', Exp(a, post), g.sets)
  {
    hide At;
    match post
    case Once => s' := OnceScan(g, x, a, Once, s);
    case Plus => s' := PlusScan(g, x, a, s);
    case Star =>
      s' := QuestScan(g, PlusCode(x), s);
      BreakOver(s, s'.pos, Exp(a, Star), g.sets);
    case Quest =>
      s' := MaybeScan(g, x, s);
      BreakOver(s, s'.pos, Exp(a, Quest), g.sets);
    case Interval(least, most) => s' := RepeatScan(g, x, a, least, most, s);
  }

  // ------------------------------------------------------------------
  // Over a whole tree
  // ------------------------------------------------------------------

  lemma {:induction false} OneScan(g: Guts, a: Atom, s: Scan) returns (s': Scan)
    requires !a.Sub? && s.Scan? && At(g, s.pos, AtomCode(a))
    ensures s'.Scan? && s'.pos == s.pos + 1 && Leads(g, s, s') && OverAtom(s, s', a, g.sets)
  {
    AtOp(g, s.pos, AtomCode(a), 0);
    s' := Turn(g, s);
    LeadsOne(g, s);
    forall u: seq<int>, w: seq<Byte> | Carries(s, u) && InAtom(a, g.sets, w) ensures Carries(s', u + w) {
      if a.Chr? {
        OccursMore(s.best, [], u, w);
        assert [] + u + w == u + w;
      } else {
        BreakCarries(s, u, w, s'.pos);
      }
    }
  }

  /** The marks around a group break nothing. */
  lemma {:induction false} GroupOver(s: Scan, s1: Scan, s2: Scan, s': Scan, a: Atom, sets: Sets)
    requires s.Scan? && s1.Scan? && s2.Scan? && s'.Scan? && s1 == s.(pos := s1.pos) && s' == s2.(pos := s'.pos)
    requires a.Sub? && if a.body == [] then s2 == s1 else OverEre(s1, s2, a.body, sets)
    ensures OverAtom(s, s', a, sets)
  {
    hide Carries;
    forall u: seq<int>, w: seq<Byte> | Carries(s, u) && InAtom(a, sets, w) ensures Carries(s', u + w) {
      CarriesPos(s, u, s1.pos);
      if a.body == [] { assert u + w == u; }
      CarriesPos(s2, u + w, s'.pos);
    }
  }

  lemma {:induction false} AtomScan(g: Guts, a: Atom, s: Scan) returns (s': Scan)
    requires BoundsOkAtom(a) && s.Scan? && At(g, s.pos, AtomCode(a))
    ensures s'.Scan? && s'.pos == s.pos + |AtomCode(a)| && Leads(g, s, s') && OverAtom(s, s', a, g.sets)
    decreases a, 0
  {
    hide At, EreCode, Carries, Leads;
    if a.Sub? {
      AtGroup(g, s.pos, a);
      var s1 := Turn(g, s);
      LeadsOne(g, s);
      var s2 := s1;
      if a.body != [] {
        s2 := EreScan(g, a.body, s1);
        LeadsTrans(g, s, s1, s2);
      }
      s' := Turn(g, s2);
      LeadsOne(g, s2);
      LeadsTrans(g, s, s2, s');
      GroupOver(s, s1, s2, s', a, g.sets);
    } else {
      s' := OneScan(g, a, s);
    }
  }

  lemma {:induction false} ExpScan(g: Guts, e: Exp, s: Scan) returns (s': Scan)
    requires BoundsOkExp(e) && s.Scan? && At(g, s.pos, ExpCode(e))
    ensures s'.Scan? && s'.pos == s.pos + |ExpCode(e)| && Leads(g, s, s') && OverExp(s, s', e, g.sets)
    decreases e, 1
  {
    hide At, PostCode;
    forall r: Scan | r.Scan? && At(g, r.pos, AtomCode(e.atom)) ensures ScansAtomFrom(g, AtomCode(e.atom), e.atom, r) {
      var r' := AtomScan(g, e.atom, r);
    }
    s' := PostScan(g, AtomCode(e.atom), e.atom, e.post, s);
  }

  lemma {:induction false} ExpsScan(g: Guts, es: seq<Exp>, s: Scan) returns (s': Scan)
    requires BoundsOkExps(es) && s.Scan? && At(g, s.pos, ExpsCode(es))
    ensures s'.Scan? && s'.pos == s.pos + |ExpsCode(es)| && Leads(g, s, s') && OverExps(s, s', es, g.sets)
    decreases es, 2
  {
    hide At, ExpCode, Carries, Leads, Turn;
    if es == [] {
      s' := s;
      LeadsNone(g, s);
      forall u: seq<int>, w: seq<Byte> | Carries(s, u) && InExps(es, g.sets, w)
        ensures Carries(s', u + w)
      {
        assert u + w == u;
      }
    } else {
      AtParts(g, s.pos, ExpCode(es[0]), ExpsCode(es[1..]));
      var s1 := ExpScan(g, es[0], s);
      s' := ExpsScan(g, es[1..], s1);
      LeadsTrans(g, s, s1, s');
      forall u: seq<int>, w: seq<Byte> | Carries(s, u) && InExps(es, g.sets, w) ensures Carries(s', u + w) {
        var k :| 0 <= k <= |w| && InExp(es[0], g.sets, w[..k]) && InExps(es[1..], g.sets, w[k..]);
        assert Carries(s1, u + w[..k]);
        CarriesOn(s', u, w, k);
      }
    }
  }

  /** A branch mark is followed up to the end of its choice. */
  lemma {:induction false} TailSkip(g: Guts, i: nat, t: Ere)
    requires BoundsOk(t) && t != [] && At(g, i, TailCode(t))
    ensures i + |TailCode(t)| <= |g.strip| && 2 <= |TailCode(t)| && g.strip[i].op == OOr2
    ensures SkipTo(g, i) == Some(i + |TailCode(t)| - 1) && g.strip[i + |TailCode(t)| - 1].op == OChEnd
    decreases |t|
  {
    hide ExpsCode, At, SkipTo;
    var x := ExpsCode(t[0].exps);
    if |t| == 1 {
      AtInner(g, i, Sop(OOr2, |x| + 1), x, [Sop(OChEnd, |x| + 2)]);
      AtOp(g, i + 1 + |x|, [Sop(OChEnd, |x| + 2)], 0);
      SkipStep(g, i, i + |x| + 1);
    } else {
      AtTail(g, i, t);
      TailSkip(g, i + |x| + 2, t[1..]);
      SkipStep(g, i, i + |x| + 2);
    }
  }

  lemma {:induction false} SkipStep(g: Guts, p: nat, q: nat)
    requires p < q < |g.strip| && g.strip[p].opnd == q - p
    ensures g.strip[q].op == OChEnd ==> SkipTo(g, p) == Some(q)
    ensures g.strip[q].op == OOr2 ==> SkipTo(g, p) == SkipTo(g, q)
  {
  }

  lemma {:induction false} EreScan(g: Guts, t: Ere, s: Scan) returns (s': Scan)
    requires BoundsOk(t) && t != [] && s.Scan? && At(g, s.pos, EreCode(t))
    ensures s'.Scan? && s'.pos == s.pos + |EreCode(t)| && Leads(g, s, s') && OverEre(s, s', t, g.sets)
    decreases t, 3
  {
    hide At, ExpsCode, TailCode;
    if |t| == 1 {
      s' := ExpsScan(g, t[0].exps, s);
      forall u: seq<int>, w: seq<Byte> | Carries(s, u) && InEre(t, g.sets, w)
        ensures Carries(s', u + w)
      {
        InEreCons(t, g.sets, w);
      }
    } else {
      s' := ChoiceScan(g, t, s);
    }
  }

  lemma {:induction false} ChoiceScan(g: Guts, t: Ere, s: Scan) returns (s': Scan)
    requires BoundsOk(t) && |t| > 1 && s.Scan? && At(g, s.pos, EreCode(t))
    ensures s'.Scan? && s'.pos == s.pos + |EreCode(t)| && Leads(g, s, s') && OverEre(s, s', t, g.sets)
  {
    hide At, ExpsCode, TailCode;
    AtChoice(g, s.pos, t);
    TailSkip(g, s.pos + |ExpsCode(t[0].exps)| + 2, t[1..]);
    LeadsOne(g, s);
    LeadsOne(g, Turn(g, s));
    s' := Turn(g, Turn(g, s));
    LeadsTrans(g, s, Turn(g, s), s');
    forall u: seq<int>, w: seq<Byte> | Carries(s, u) && InEre(t, g.sets, w) ensures Carries(s', u + w) {
      BreakCarries(s, u, w, s'.pos);
    }
  }

  // ------------------------------------------------------------------
  // The pass itself
  // ------------------------------------------------------------------

  /** The characters of the literal operators in `[p, q)`. */
  function Chars(g: Guts, p: nat, q: nat): seq<int>
    requires q <= |g.strip|
    decreases q
  {
    if q <= p then []
    else Chars(g, p, q - 1) + if g.strip[q - 1].op == OChar then [g.strip[q - 1].opnd] else []
  }

  lemma {:induction false} CharsPrefix(g: Guts, p: nat, q: nat, r: nat)
    requires q <= r <= |g.strip|
    ensures |Chars(g, p, q)| <= |Chars(g, p, r)| && Chars(g, p, r)[..|Chars(g, p, q)|] == Chars(g, p, q)
    decreases r
  {
    if q < r { CharsPrefix(g, p, q, r - 1); }
  }

  /** Follows the offsets from the operator at `p` to the end of what is skipped. */
  method Skip(g: Guts, p: nat) returns (q: Option<nat>)
    requires 2 <= |g.strip| && g.strip[|g.strip| - 1].op == OEnd
    requires Framed(g, 1, |g.strip| - 1) && 1 <= p < |g.strip| - 1 && g.strip[p].op in {OQuestBegin, OChBegin}
    ensures q == SkipTo(g, p) && (q.Some? ==> p < q.value < |g.strip|)
  {
    var at := p;
    while true
      invariant p <= at < |g.strip| - 1 && g.strip[at].op in {OQuestBegin, OChBegin, OOr2}
      invariant SkipTo(g, at) == SkipTo(g, p)
      decreases |g.strip| - at
    {
      assert FramedAt(g, 1, |g.strip| - 1, at);
      at := at + g.strip[at].opnd;
      var op := g.strip[at].op;
      if op != OQuestEnd && op != OChEnd && op != OOr2 { return None; }
      if op == OQuestEnd || op == OChEnd { return Some(at); }
    }
  }

  /** The longest literal sequence the pass finds (empty if there is none), unless the strip is malformed. */
  method FindMust(g: Guts) returns (bad: bool, must: seq<int>, ghost end: Scan)
    requires 2 <= |g.strip| && Framed(g, 1, |g.strip| - 1) && g.strip[|g.strip| - 1].op == OEnd
    ensures Leads(g, Scan(1, [], []), end)
    ensures bad ==> end == BadScan
    ensures !bad ==> AtEnd(g, end) && must == BreakAt(end, 0).best
  {
    ghost var s, bestEnd := Scan(1, [], []), 1;
    ghost var first := s;
    LeadsNone(g, s);
    var scan, start, mlen, newstart, newlen := 1, 0, 0, 0, 0;
    while g.strip[scan].op != OEnd
      invariant 1 <= scan < |g.strip| && s.Scan? && s.pos == scan && Leads(g, first, s)
      invariant newlen == |s.cur| && (newlen > 0 ==> newstart < scan && s.cur == Chars(g, newstart, scan))
      invariant mlen == |s.best| && bestEnd < |g.strip| && (mlen > 0 ==> s.best == Chars(g, start, bestEnd))
      decreases |g.strip| - scan
    {
      hide Leads;
      LeadsOne(g, s);
      LeadsTrans(g, first, s, Turn(g, s));
      ghost var was := s;
      s := Turn(g, s);
      var op := g.strip[scan];
      match op.op {
        case OChar =>
          if newlen == 0 { newstart := scan; assert Chars(g, scan, scan) == []; }
          newlen := newlen + 1;
          scan := scan + 1;
        case OPlusBegin | OLParen | ORParen =>
          scan := scan + 1;
        case OQuestBegin | OChBegin =>
          var q := Skip(g, scan);
          if q == None { return true, [], s; }
          if newlen > mlen { start, mlen := newstart, newlen; bestEnd := scan; }
          newlen := 0;
          scan := q.value;
        case OAny | OAnyOf | OPlusEnd | OQuestEnd | OOr1 | OOr2 | OChEnd =>
          if newlen > mlen { start, mlen := newstart, newlen; bestEnd := scan; }
          newlen := 0;
          scan := scan + 1;
      }
    }
    if newlen > mlen { start, mlen := newstart, newlen; bestEnd := scan; }
    must := Extract(g, start, mlen, bestEnd);
    return false, must, s;
  }

  /** The first `mlen` literal characters from `start` on. */
  method Extract(g: Guts, start: nat, mlen: nat, ghost end: nat) returns (must: seq<int>)
    requires end <= |g.strip| && mlen <= |Chars(g, start, end)|
    ensures must == Chars(g, start, end)[..mlen]
  {
    must := [];
    var scan := start;
    while |must| < mlen
      invariant |must| <= mlen && start <= scan && (scan <= end || mlen == 0)
      invariant mlen > 0 ==> must == Chars(g, start, scan)
      decreases end - scan
    {
      CharsPrefix(g, start, scan, end);
      if g.strip[scan].op == OChar { must := must + [g.strip[scan].opnd]; }
      scan := scan + 1;
    }
    if mlen > 0 { CharsPrefix(g, start, scan, end); }
  }

  // ------------------------------------------------------------------
  // The prescreen is sound
  // ------------------------------------------------------------------

  /** The strip of a whole expression. */
  ghost predicate IsCompiled(g: Guts, t: Ere) {
    BoundsOk(t) && t != [] && g.strip == [Sop(OEnd, 0)] + EreCode(t) + [Sop(OEnd, 0)]
  }

  /** What the pass finds is in every word of the language, and it finds the strip well formed. */
  lemma {:induction false} MustOccurs(g: Guts, t: Ere, end: Scan)
    requires IsCompiled(g, t) && Leads(g, Scan(1, [], []), end) && (end == BadScan || AtEnd(g, end))
    ensures end.Scan?
    ensures forall w: seq<Byte> | InEre(t, g.sets, w) :: Occurs(BreakAt(end, 0).best, w)
  {
    var first := Scan(1, [], []);
    var x := EreCode(t);
    assert At(g, 1, x);
    var s' := EreScan(g, t, first);
    assert AtEnd(g, s');
    if end == BadScan {
      BadNever(g, first, s');
    } else {
      EndUnique(g, first, end, s');
    }
    forall w: seq<Byte> | InEre(t, g.sets, w) ensures Occurs(BreakAt(s', 0).best, w) {
      var none: seq<int> := [];
      assert OccursAt([], none, 0) && Carries(first, none);
      assert none + w == w;
      BreakCarries(s', w, [], 0);
      assert w + none == w;
    }
  }

  /** No run of literals that the pass comes to is longer than what it finds. */
  lemma {:induction false} MustLongest(g: Guts, s: Scan, end: Scan)
    requires s.Scan? && Leads(g, s, end) && AtEnd(g, end)
    ensures |s.cur| <= |BreakAt(end, 0).best|
  {
    var n: nat :| Turns(g, s, n) == end;
    LongestStays(g, s, n);
  }

  lemma {:induction false} LongestStays(g: Guts, s: Scan, n: nat)
    requires s.Scan? && Turns(g, s, n).Scan?
    ensures var e := Turns(g, s, n);
      (|s.cur| <= |e.cur| || |s.cur| <= |e.best|) && (|s.best| <= |e.cur| || |s.best| <= |e.best|)
    decreases n
  {
    hide SkipTo;
    if n > 0 {
      if Turn(g, s).BadScan? {
        BadStays(g, n - 1);
      } else {
        LongestStays(g, Turn(g, s), n - 1);
      }
    }
  }

  lemma {:induction false} BadStays(g: Guts, n: nat)
    ensures Turns(g, BadScan, n) == BadScan
    decreases n
  {
    if n > 0 { BadStays(g, n - 1); }
  }

  /** A pass that comes to the end of the strip is never found bad. */
  lemma {:induction false} BadNever(g: Guts, s: Scan, s': Scan)
    requires Leads(g, s, s') && AtEnd(g, s')
    ensures !Leads(g, s, BadScan)
  {
    if Leads(g, s, BadScan) {
      var m: nat :| Turns(g, s, m) == BadScan;
      var n: nat :| Turns(g, s, n) == s';
      if m <= n {
        TurnsConcat(g, s, m, n - m);
        BadStays(g, n - m);
      } else {
        TurnsConcat(g, s, n, m - n);
        EndStays(g, s', m - n);
      }
    }
  }
}
