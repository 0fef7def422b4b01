/** What small patterns match, from their tokens to the words. */
module RegexPatterns {
  import opened Basics
  import opened RegexSyntax
  import opened RegexStrip
  import opened RegexParse

  /** The word is `c` over and over. */
  predicate AllAre(c: Byte, w: seq<Byte>) {
    forall i | 0 <= i < |w| :: w[i] == c
  }

  lemma {:induction false} RepeatsOf(c: Byte, sets: Sets, n: nat, w: seq<Byte>)
    ensures Repeats(Chr(c), sets, n, w) <==> |w| == n && AllAre(c, w)
    decreases n
  {
    if n > 0 {
      if k :| 0 <= k <= |w| && InAtom(Chr(c), sets, w[..k]) && Repeats(Chr(c), sets, n - 1, w[k..]) {
        RepeatsOf(c, sets, n - 1, w[k..]);
        assert w == [c] + w[1..];
      }
      if |w| == n && AllAre(c, w) {
        RepeatsOf(c, sets, n - 1, w[1..]);
        assert w[..1] == [c];
      }
    }
  }

  /** A character with what follows it. */
  lemma {:induction false} CharWords(c: Byte, post: Post, sets: Sets, w: seq<Byte>)
    ensures InExp(Exp(Chr(c), post), sets, w) <==> AllAre(c, w) && Allowed(post, |w|)
  {
    hide Repeats, AllAre, Allowed;
    forall n: nat ensures Repeats(Chr(c), sets, n, w) <==> |w| == n && AllAre(c, w) { RepeatsOf(c, sets, n, w); }
    if AllAre(c, w) && Allowed(post, |w|) { assert Repeats(Chr(c), sets, |w|, w); }
  }

  /** An atom by itself. */
  lemma {:induction false} OnceWords(a: Atom, sets: Sets, w: seq<Byte>)
    ensures InExp(Exp(a, Once), sets, w) <==> InAtom(a, sets, w)
  {
    hide InAtom;
    if InAtom(a, sets, w) {
      assert w[..|w|] == w && w[|w|..] == [];
      assert Repeats(a, sets, 0, w[|w|..]);
      assert Allowed(Once, 1) && Repeats(a, sets, 1, w);
    }
    if n: nat :| Allowed(Once, n) && Repeats(a, sets, n, w) {
      assert n == 1;
      var k :| 0 <= k <= |w| && InAtom(a, sets, w[..k]) && Repeats(a, sets, 0, w[k..]);
      assert w[..k] == w;
    }
  }

  lemma {:induction false} OneExp(e: Exp, sets: Sets, w: seq<Byte>)
    ensures InExps([e], sets, w) <==> InExp(e, sets, w)
  {
    hide InExp;
    assert [e][1..] == [];
    if InExp(e, sets, w) { assert w[..|w|] == w && w[|w|..] == [] && InExps([], sets, w[|w|..]); }
    if InExps([e], sets, w) {
      var k :| 0 <= k <= |w| && InExp(e, sets, w[..k]) && InExps([e][1..], sets, w[k..]);
      assert w[..k] == w;
    }
  }

  lemma {:induction false} OneBranch(es: seq<Exp>, sets: Sets, w: seq<Byte>)
    ensures InEre([Branch(es)], sets, w) <==> InExps(es, sets, w)
  {
    hide InExps;
    if InExps(es, sets, w) { assert InExps([Branch(es)][0].exps, sets, w); }
  }

  /** One expression is parsed as a pattern. */
  lemma {:induction false} OneParses(ts: seq<Tok>, e: Exp, k: nat)
    requires ts != [] && !BranchEnds(ts, false) && ParseExp(ts, 0) == Ok(e, [], k) && e.post != Interval(0, Finite(0))
    ensures ParseEre(ts, 0, false) == Ok([Branch([e])], [], k)
  {
    hide ParseExp, ExpsCode;
    assert ParseExps([], k, false) == Ok([], [], k) && [e] + [] == [e];
    EmptyCode([e]);
    assert !Dropped([e][0]);
  }

  /** Repetitions: `c*`, `c+`, `c?`, `c{m,n}` with bounds up to 255, and `c{m,}`. */
  lemma {:induction false} RepeatedChar(c: Byte, sets: Sets, w: seq<Byte>, m: nat, n: nat)
    ensures var r := ParseEre([TChar(c)], 0, false); r.Ok? && (InEre(r.tree, sets, w) <==> w == [c])
    ensures var r := ParseEre([TChar(c), TStar], 0, false); r.Ok? && (InEre(r.tree, sets, w) <==> AllAre(c, w))
    ensures var r := ParseEre([TChar(c), TPlus], 0, false);
      r.Ok? && (InEre(r.tree, sets, w) <==> AllAre(c, w) && |w| >= 1)
    ensures var r := ParseEre([TChar(c), TQuest], 0, false);
      r.Ok? && (InEre(r.tree, sets, w) <==> AllAre(c, w) && |w| <= 1)
    ensures var r := ParseEre([TChar(c), TBrace(m, Unbounded)], 0, false);
      (r.Ok? <==> m <= 255) && (r.Ok? ==> (InEre(r.tree, sets, w) <==> AllAre(c, w) && m <= |w|))
    ensures var r := ParseEre([TChar(c), TBrace(m, Finite(n))], 0, false);
      (r.Ok? <==> m <= n <= 255 && n > 0) && (r.Ok? ==> (InEre(r.tree, sets, w) <==> AllAre(c, w) && m <= |w| <= n))
  {
    hide InEre, ParseEre;
    CharAlone(c, sets, w);
    CharRepeated(c, TStar, Star, sets, w);
    CharRepeated(c, TPlus, Plus, sets, w);
    CharRepeated(c, TQuest, Quest, sets, w);
    CharBounded(c, m, Unbounded, sets, w);
    CharBounded(c, m, Finite(n), sets, w);
  }

  lemma {:induction false} CharAlone(c: Byte, sets: Sets, w: seq<Byte>)
    ensures var r := ParseEre([TChar(c)], 0, false); r.Ok? && (InEre(r.tree, sets, w) <==> w == [c])
  {
    hide InEre, ParseEre, InExps, InExp;
    var e := Exp(Chr(c), Once);
    assert [TChar(c)][1..] == [];
    OneParses([TChar(c)], e, 0);
    OneBranch([e], sets, w);
    OneExp(e, sets, w);
    OnceWords(Chr(c), sets, w);
  }

  lemma {:induction false} CharRepeated(c: Byte, t: Tok, post: Post, sets: Sets, w: seq<Byte>)
    requires ParsePost([t]) == Ok(post, [], 0) && post != Once && post != Interval(0, Finite(0))
    ensures var r := ParseEre([TChar(c), t], 0, false);
      r.Ok? && (InEre(r.tree, sets, w) <==> AllAre(c, w) && Allowed(post, |w|))
  {
    hide InEre, ParseEre, InExps, InExp, ParsePost, AllAre, Allowed;
    var ts, e := [TChar(c), t], Exp(Chr(c), post);
    assert ts[1..] == [t];
    OneParses(ts, e, 0);
    OneBranch([e], sets, w);
    OneExp(e, sets, w);
    CharWords(c, post, sets, w);
  }

  lemma {:induction false} CharBounded(c: Byte, m: nat, most: Bound, sets: Sets, w: seq<Byte>)
    ensures var r := ParseEre([TChar(c), TBrace(m, most)], 0, false);
      (r.Ok? <==> m <= 255 && (most.Finite? ==> m <= most.n <= 255 && most.n > 0)) &&
      (r.Ok? ==> (InEre(r.tree, sets, w) <==> AllAre(c, w) && m <= |w| && (most.Finite? ==> |w| <= most.n)))
  {
    hide InEre, ParseEre, AllAre;
    var t := TBrace(m, most);
    if !BoundFits(m, most) {
      BadParses(c, t);
    } else if most == Finite(0) {
      NoTimesRejected(c, sets, 0);
    } else {
      assert [t][1..] == [];
      CharRepeated(c, t, Interval(m, most), sets, w);
    }
  }

  lemma {:induction false} BadParses(c: Byte, t: Tok)
    requires ParsePost([t]).Bad?
    ensures ParseEre([TChar(c), t], 0, false).Bad?
  {
    hide ParsePost;
    var ts := [TChar(c), t];
    assert ts[1..] == [t];
    assert ParseAtom(ts, 0) == Ok(Chr(c), [t], 0);
    assert ParseExp(ts, 0).Bad?;
    assert ParseExps(ts, 0, false).Bad?;
  }

  /** `.` and bracket expressions match one byte, a group what is in it. */
  lemma {:induction false} OneByte(c: Byte, n: nat, sets: Sets, w: seq<Byte>)
    ensures var r := ParseEre([TDot], 0, false); r.Ok? && (InEre(r.tree, sets, w) <==> |w| == 1)
    ensures var r := ParseEre([TBracket(n)], 0, false);
      r.Ok? && (InEre(r.tree, sets, w) <==> |w| == 1 && n < |sets| && w[0] in sets[n])
    ensures var r := ParseEre([TLParen, TChar(c), TRParen], 0, false); r.Ok? && (InEre(r.tree, sets, w) <==> w == [c])
  {
    hide InEre, ParseEre, InExps, InExp;
    AtomWords([TDot], Any, 0, sets, w);
    AtomWords([TBracket(n)], AnyOf(n), 0, sets, w);
    GroupWords(c, sets, w);
  }

  lemma {:induction false} AtomWords(ts: seq<Tok>, a: Atom, k: nat, sets: Sets, w: seq<Byte>)
    requires ts != [] && !BranchEnds(ts, false) && ParseAtom(ts, 0) == Ok(a, [], k)
    ensures var r := ParseEre(ts, 0, false); r.Ok? && (InEre(r.tree, sets, w) <==> InAtom(a, sets, w))
  {
    hide InEre, ParseEre, InExps, InExp, ParseAtom, InAtom;
    OneParses(ts, Exp(a, Once), k);
    OneBranch([Exp(a, Once)], sets, w);
    OneExp(Exp(a, Once), sets, w);
    OnceWords(a, sets, w);
  }

  lemma {:induction false} GroupWords(c: Byte, sets: Sets, w: seq<Byte>)
    ensures var r := ParseEre([TLParen, TChar(c), TRParen], 0, false); r.Ok? && (InEre(r.tree, sets, w) <==> w == [c])
  {
    hide InEre, ParseEre, InExps, InExp;
    var ts := [TLParen, TChar(c), TRParen];
    var t := [Branch([Exp(Chr(c), Once)])];
    assert ts[1..] == [TChar(c), TRParen] && ts[1..][1..] == [TRParen];
    InsideParses(c);
    AtomWords(ts, Sub(1, t), 1, sets, w);
    OneBranch(t[0].exps, sets, w);
    OneExp(Exp(Chr(c), Once), sets, w);
    OnceWords(Chr(c), sets, w);
  }

  lemma {:induction false} InsideParses(c: Byte)
    ensures ParseEre([TChar(c), TRParen], 1, true) == Ok([Branch([Exp(Chr(c), Once)])], [TRParen], 1)
  {
    hide ExpsCode;
    var ts, e := [TChar(c), TRParen], Exp(Chr(c), Once);
    assert ts[1..] == [TRParen];
    assert ParseExp(ts, 1) == Ok(e, [TRParen], 1);
    assert ParseExps([TRParen], 1, true) == Ok([], [TRParen], 1) && [e] + [] == [e];
    EmptyCode([e]);
    assert !Dropped([e][0]);
  }

  /** One after the other, and one or the other. */
  lemma {:induction false} TwoChars(c: Byte, d: Byte, sets: Sets, w: seq<Byte>)
    ensures var r := ParseEre([TChar(c), TChar(d)], 0, false); r.Ok? && (InEre(r.tree, sets, w) <==> w == [c, d])
    ensures var r := ParseEre([TChar(c), TBar, TChar(d)], 0, false);
      r.Ok? && (InEre(r.tree, sets, w) <==> w == [c] || w == [d])
  {
    hide InEre, ParseEre, InExps, InExp;
    var e, f := Exp(Chr(c), Once), Exp(Chr(d), Once);
    TwoParse(c, d);
    OneBranch([e, f], sets, w);
    TwoInOrder(c, d, sets, w);
    TwoBranches([e], [f], sets, w);
    OneExp(e, sets, w);
    OneExp(f, sets, w);
    OnceWords(Chr(c), sets, w);
    OnceWords(Chr(d), sets, w);
  }

  lemma {:induction false} TwoInOrder(c: Byte, d: Byte, sets: Sets, w: seq<Byte>)
    ensures InExps([Exp(Chr(c), Once), Exp(Chr(d), Once)], sets, w) <==> w == [c, d]
  {
    hide InExp;
    var e, f := Exp(Chr(c), Once), Exp(Chr(d), Once);
    assert [e, f][1..] == [f];
    forall k | 0 <= k <= |w|
      ensures InExp(e, sets, w[..k]) && InExps([f], sets, w[k..]) <==> w[..k] == [c] && w[k..] == [d]
    {
      OneExp(f, sets, w[k..]);
      OnceWords(Chr(c), sets, w[..k]);
      OnceWords(Chr(d), sets, w[k..]);
    }
    if w == [c, d] { assert w[..1] == [c] && w[1..] == [d]; }
    if InExps([e, f], sets, w) {
      var k :| 0 <= k <= |w| && InExp(e, sets, w[..k]) && InExps([e, f][1..], sets, w[k..]);
      assert w == w[..k] + w[k..];
    }
  }

  lemma {:induction false} TwoBranches(es: seq<Exp>, fs: seq<Exp>, sets: Sets, w: seq<Byte>)
    ensures InEre([Branch(es), Branch(fs)], sets, w) <==> InExps(es, sets, w) || InExps(fs, sets, w)
  {
    hide InExps;
    var t := [Branch(es), Branch(fs)];
    if InExps(es, sets, w) { assert InExps(t[0].exps, sets, w); }
    if InExps(fs, sets, w) { assert InExps(t[1].exps, sets, w); }
  }

  lemma {:induction false} TwoParse(c: Byte, d: Byte)
    ensures var e, f := Exp(Chr(c), Once), Exp(Chr(d), Once);
      ParseEre([TChar(c), TChar(d)], 0, false) == Ok([Branch([e, f])], [], 0) &&
      ParseEre([TChar(c), TBar, TChar(d)], 0, false) == Ok([Branch([e]), Branch([f])], [], 0)
  {
    hide ExpsCode;
    var e, f := Exp(Chr(c), Once), Exp(Chr(d), Once);
    var ts, us := [TChar(c), TChar(d)], [TChar(c), TBar, TChar(d)];
    assert ts[1..] == [TChar(d)] && [TChar(d)][1..] == [] && us[1..] == [TBar, TChar(d)] && us[1..][1..] == [TChar(d)];
    assert ParseExp([TChar(d)], 0) == Ok(f, [], 0);
    assert ParseExps([], 0, false) == Ok([], [], 0) && [f] + [] == [f];
    assert ParseExps([TChar(d)], 0, false) == Ok([f], [], 0);
    assert ParseExp(ts, 0) == Ok(e, [TChar(d)], 0) && [e] + [f] == [e, f];
    assert ParseExps(ts, 0, false) == Ok([e, f], [], 0);
    assert ParseExps(us[1..], 0, false) == Ok([], us[1..], 0) && [e] + [] == [e];
    assert ParseExp(us, 0) == Ok(e, us[1..], 0);
    assert ParseExps(us, 0, false) == Ok([e], us[1..], 0);
    EmptyCode([e]);
    EmptyCode([f]);
    EmptyCode([e, f]);
    assert !Dropped([e][0]) && !Dropped([f][0]) && !Dropped([e, f][0]);
    assert ParseEre([TChar(d)], 0, false) == Ok([Branch([f])], [], 0);
    assert [Branch([e])] + [Branch([f])] == [Branch([e]), Branch([f])];
  }
}
