/** The grammar of patterns as a reference parser: from the tokens of a pattern to its syntax tree or its error. */
module RegexParse {
  import opened Basics
  import opened RegexSyntax
  import opened RegexStrip

  /** `TBrace` is a `{` that a digit follows, with the bounds read from it; other characters with no special
      meaning, among them a `{` without a digit and escaped ones, are `TChar`. */
  datatype Tok =
    | TLParen | TRParen | TBar | TStar | TPlus | TQuest | TDot
    | TBracket(set_: nat) | TChar(c: Byte) | TBrace(least: nat, most: Bound)

  datatype Error = EmptyBranch | BadParen | BadRepeat | BadBound

  datatype Parsed<T> = Ok(tree: T, rest: seq<Tok>, nsub: nat) | Bad(error: Error)

  /** The largest bound a pattern may name. */
  const DUP_MAX: nat := 255

  predicate BranchEnds(ts: seq<Tok>, inside: bool) {
    ts == [] || ts[0] == TBar || (inside && ts[0] == TRParen)
  }

  predicate IsRepeat(ts: seq<Tok>) {
    ts != [] && (ts[0].TStar? || ts[0].TPlus? || ts[0].TQuest? || ts[0].TBrace?)
  }

  predicate BoundFits(least: nat, most: Bound) {
    least <= DUP_MAX && InOrder(least, most) && (most.Finite? ==> most.n <= DUP_MAX)
  }

  function ParseAtom(ts: seq<Tok>, k: nat): (r: Parsed<Atom>)
    requires ts != []
    ensures r.Ok? ==> |r.rest| < |ts| && BoundsOkAtom(r.tree)
    decreases |ts|, 0
  {
    match ts[0]
    case TLParen =>
      if |ts| == 1 then Bad(BadParen)
      else if ts[1] == TRParen then Ok(Sub(k + 1, []), ts[2..], k + 1)
      else (
        match ParseEre(ts[1..], k + 1, true)
        case Bad(e) => Bad(e)
        case Ok(t, rest, k') =>
          if rest == [] || rest[0] != TRParen then Bad(BadParen) else Ok(Sub(k + 1, t), rest[1..], k'))
    case TRParen => Bad(BadParen)
    case TBar => Bad(EmptyBranch)
    case TDot => Ok(Any, ts[1..], k)
    case TBracket(n) => Ok(AnyOf(n), ts[1..], k)
    case TChar(c) => Ok(Chr(c), ts[1..], k)
    case _ => Bad(BadRepeat)
  }

  /** The repetition operator at the head of `ts`, if there is one. */
  function ParsePost(ts: seq<Tok>): (r: Parsed<Post>)
    ensures r.Ok? ==> |r.rest| <= |ts|
    ensures r.Ok? && r.tree.Interval? ==> BoundFits(r.tree.least, r.tree.most)
  {
    if !IsRepeat(ts) then Ok(Once, ts, 0)
    else if ts[0].TBrace? && !BoundFits(ts[0].least, ts[0].most) then Bad(BadBound)
    else if IsRepeat(ts[1..]) then Bad(BadRepeat)
    else (
      match ts[0]
      case TStar => Ok(Star, ts[1..], 0)
      case TPlus => Ok(Plus, ts[1..], 0)
      case TBrace(least, most) => Ok(Interval(least, most), ts[1..], 0)
      case _ => Ok(Quest, ts[1..], 0))
  }

  function ParseExp(ts: seq<Tok>, k: nat): (r: Parsed<Exp>)
    requires ts != []
    ensures r.Ok? ==> |r.rest| < |ts| && BoundsOkExp(r.tree)
    decreases |ts|, 1
  {
    match ParseAtom(ts, k)
    case Bad(e) => Bad(e)
    case Ok(a, rest, k') => (
      match ParsePost(rest)
      case Bad(e) => Bad(e)
      case Ok(post, rest', _) => Ok(Exp(a, post), rest', k'))
  }

  function ParseExps(ts: seq<Tok>, k: nat, inside: bool): (r: Parsed<seq<Exp>>)
    ensures r.Ok? ==> |r.rest| <= |ts| && BoundsOkExps(r.tree) && BranchEnds(r.rest, inside)
    decreases |ts|, 2
  {
    if BranchEnds(ts, inside) then Ok([], ts, k)
    else (
      match ParseExp(ts, k)
      case Bad(e) => Bad(e)
      case Ok(e, rest, k') => PrefixExps([e], ParseExps(rest, k', inside)))
  }

  function PrefixExps(es: seq<Exp>, r: Parsed<seq<Exp>>): Parsed<seq<Exp>> {
    match r
    case Bad(e) => r
    case Ok(t, rest, k) => Ok(es + t, rest, k)
  }

  /** A branch whose code is empty is an error, even `x{0}`. */
  function ParseEre(ts: seq<Tok>, k: nat, inside: bool): (r: Parsed<Ere>)
    ensures r.Ok? ==> |r.rest| <= |ts| && BoundsOk(r.tree) && r.tree != []
    ensures r.Ok? ==> BranchEnds(r.rest, inside) && (r.rest != [] ==> r.rest[0] != TBar)
    decreases |ts|, 3
  {
    match ParseExps(ts, k, inside)
    case Bad(e) => Bad(e)
    case Ok(es, rest, k') =>
      if ExpsCode(es) == [] then Bad(EmptyBranch)
      else if rest != [] && rest[0] == TBar then PrefixEre([Branch(es)], ParseEre(rest[1..], k', inside))
      else Ok([Branch(es)], rest, k')
  }

  function PrefixEre(bs: seq<Branch>, r: Parsed<Ere>): Parsed<Ere> {
    match r
    case Bad(e) => r
    case Ok(t, rest, k) => Ok(bs + t, rest, k)
  }

  // ------------------------------------------------------------------
  // Branches that are rejected though they have a meaning
  // ------------------------------------------------------------------

  /** An operand that is repeated no time at all. */
  predicate Dropped(e: Exp) {
    e.post == Interval(0, Finite(0))
  }

  lemma {:induction false} AtomEmits(a: Atom)
    requires BoundsOkAtom(a)
    ensures AtomCode(a) != []
  {
  }

  lemma {:induction false} RepeatEmits(x: Code, least: nat, most: Bound)
    requires InOrder(least, most) && x != []
    ensures RepeatCode(x, least, most) == [] <==> most == Finite(0)
    decreases least
  {
    if least == 1 && most != Finite(0) {
      Repeat1Emits(x, most);
    }
  }

  lemma {:induction false} Repeat1Emits(x: Code, most: Bound)
    requires InOrder(1, most) && x != []
    ensures RepeatCode1(x, most) != []
  {
  }

  lemma {:induction false} ExpEmits(e: Exp)
    requires BoundsOkExp(e)
    ensures ExpCode(e) == [] <==> Dropped(e)
  {
    AtomEmits(e.atom);
    if e.post.Interval? { RepeatEmits(AtomCode(e.atom), e.post.least, e.post.most); }
  }

  /** The code of a branch is empty, so that the branch is rejected, exactly if it repeats all of its operands no time:
      then the branch stands for the empty word alone, and so it does if it has no operand. */
  lemma {:induction false} EmptyCode(es: seq<Exp>)
    requires BoundsOkExps(es)
    ensures ExpsCode(es) == [] <==> forall i | 0 <= i < |es| :: Dropped(es[i])
  {
    hide Dropped, ExpCode;
    if es != [] {
      ExpEmits(es[0]);
      EmptyCode(es[1..]);
      forall i | 0 < i < |es| ensures Dropped(es[i]) == Dropped(es[1..][i - 1]) {}
    }
  }

  /** `x{0}` is rejected, though its language holds the empty word. */
  lemma {:induction false} NoTimesRejected(c: Byte, sets: Sets, k: nat)
    ensures ParseEre([TChar(c), TBrace(0, Finite(0))], k, false) == Bad(EmptyBranch)
    ensures InEre([Branch([Exp(Chr(c), Interval(0, Finite(0)))])], sets, [])
  {
    var e := Exp(Chr(c), Interval(0, Finite(0)));
    var ts := [TChar(c), TBrace(0, Finite(0))];
    assert ts[1..] == [TBrace(0, Finite(0))] && ts[1..][1..] == [];
    assert ParsePost(ts[1..]) == Ok(e.post, [], 0) && ParseExp(ts, k) == Ok(e, [], k);
    assert ParseExps([], k, false) == Ok([], [], k) && [e] + [] == [e];
    assert ParseExps(ts, k, false) == Ok([e], [], k);
    EmptyCode([e]);
    assert Repeats(e.atom, sets, 0, []) && Allowed(e.post, 0);
    assert InExp(e, sets, []);
    var w: seq<Byte> := [];
    assert w[..0] == [] && w[0..] == [] && [e][1..] == [];
    assert InExps([e], sets, w);
    assert InEre([Branch([e])], sets, w) by { assert InExps([Branch([e])][0].exps, sets, w); }
  }

  // ------------------------------------------------------------------
  // The parser inverts printing
  // ------------------------------------------------------------------

  function ShowPost(post: Post): seq<Tok> {
    match post
    case Once => []
    case Star => [TStar]
    case Plus => [TPlus]
    case Quest => [TQuest]
    case Interval(least, most) => [TBrace(least, most)]
  }

  function ShowAtom(a: Atom): (s: seq<Tok>)
    ensures s != []
    decreases a, 0
  {
    match a
    case Chr(c) => [TChar(c)]
    case Any => [TDot]
    case AnyOf(n) => [TBracket(n)]
    case Sub(_, body) => [TLParen] + (if body == [] then [] else ShowEre(body)) + [TRParen]
  }

  function ShowExp(e: Exp): seq<Tok>
    decreases e
  {
    ShowAtom(e.atom) + ShowPost(e.post)
  }

  function ShowExps(es: seq<Exp>): seq<Tok>
    decreases es, 0
  {
    if es == [] then [] else ShowExp(es[0]) + ShowExps(es[1..])
  }

  function ShowEre(t: Ere): seq<Tok>
    requires t != []
    decreases t, 0
  {
    if |t| == 1 then ShowExps(t[0].exps) else ShowExps(t[0].exps) + [TBar] + ShowEre(t[1..])
  }

  /** The number of groups in a tree. */
  function GroupsAtom(a: Atom): nat
    decreases a, 0
  {
    if a.Sub? then 1 + GroupsEre(a.body) else 0
  }

  function GroupsExps(es: seq<Exp>): nat
    decreases es, 0
  {
    if es == [] then 0 else GroupsExp(es[0]) + GroupsExps(es[1..])
  }

  function GroupsExp(e: Exp): nat
    decreases e
  {
    GroupsAtom(e.atom)
  }

  function GroupsEre(t: Ere): nat
    decreases t, 0
  {
    if t == [] then 0 else GroupsExps(t[0].exps) + GroupsEre(t[1..])
  }

  /** Trees a pattern can have: groups numbered from `k + 1` on in order, bounds that fit, and no branch without
      code. */
  predicate ProperAtom(a: Atom, k: nat)
    decreases a, 0
  {
    a.Sub? ==> a.subno == k + 1 && (a.body != [] ==> ProperEre(a.body, k + 1))
  }

  predicate ProperExps(es: seq<Exp>, k: nat)
    decreases es, 0
  {
    es != [] ==>
      ProperExp(es[0], k) && ProperExps(es[1..], k + GroupsExp(es[0]))
  }

  predicate ProperExp(e: Exp, k: nat)
    decreases e
  {
    ProperAtom(e.atom, k) && (e.post.Interval? ==> BoundFits(e.post.least, e.post.most))
  }

  predicate ProperEre(t: Ere, k: nat)
    decreases t, 0
  {
    t != [] ==>
      ProperExps(t[0].exps, k) && BoundsOkExps(t[0].exps) && ExpsCode(t[0].exps) != [] &&
      ProperEre(t[1..], k + GroupsExps(t[0].exps))
  }

  lemma {:induction false} AtomShows(ts: seq<Tok>, k: nat)
    requires ts != [] && ParseAtom(ts, k).Ok?
    ensures var r := ParseAtom(ts, k);
      ts == ShowAtom(r.tree) + r.rest && ProperAtom(r.tree, k) && r.nsub == k + GroupsAtom(r.tree)
    decreases |ts|, 0
  {
    hide ParseEre, ShowEre, ProperEre;
    var r := ParseAtom(ts, k);
    if ts[0] == TLParen {
      if ts[1] == TRParen {
        assert ts == [TLParen] + [] + [TRParen] + r.rest;
      } else {
        EreShows(ts[1..], k + 1, true);
        var b := ParseEre(ts[1..], k + 1, true);
        assert ts == [TLParen] + (ShowEre(b.tree) + b.rest);
        assert b.rest == [TRParen] + r.rest;
        Assoc([TLParen], ShowEre(b.tree), b.rest);
        Assoc([TLParen] + ShowEre(b.tree), [TRParen], r.rest);
      }
    } else {
      assert ts == [ts[0]] + ts[1..];
    }
  }

  lemma {:induction false} PostShows(ts: seq<Tok>)
    requires ParsePost(ts).Ok?
    ensures ts == ShowPost(ParsePost(ts).tree) + ParsePost(ts).rest
  {
  }

  lemma {:induction false} ExpShows(ts: seq<Tok>, k: nat)
    requires ts != [] && ParseExp(ts, k).Ok?
    ensures var r := ParseExp(ts, k);
      ts == ShowExp(r.tree) + r.rest && ProperExp(r.tree, k) && r.nsub == k + GroupsExp(r.tree)
    decreases |ts|, 1
  {
    hide ParseAtom, ShowAtom, ProperAtom, GroupsAtom, ParsePost, ShowPost;
    var r := ParseExp(ts, k);
    AtomShows(ts, k);
    var a := ParseAtom(ts, k);
    PostShows(a.rest);
    Assoc(ShowAtom(a.tree), ShowPost(r.tree.post), r.rest);
  }

  lemma {:induction false} ExpsShows(ts: seq<Tok>, k: nat, inside: bool)
    requires ParseExps(ts, k, inside).Ok?
    ensures var r := ParseExps(ts, k, inside);
      ts == ShowExps(r.tree) + r.rest && ProperExps(r.tree, k) && r.nsub == k + GroupsExps(r.tree)
    decreases |ts|, 2
  {
    hide ParseExp, ShowExp, ProperExp, GroupsExp;
    if !BranchEnds(ts, inside) {
      ExpShows(ts, k);
      var e := ParseExp(ts, k);
      ExpsShows(e.rest, e.nsub, inside);
      var r := ParseExps(e.rest, e.nsub, inside);
      assert ([e.tree] + r.tree)[1..] == r.tree;
      Assoc(ShowExp(e.tree), ShowExps(r.tree), r.rest);
    }
  }

  /** What the parser reads is the printed form of the tree it returns. */
  lemma {:induction false} EreShows(ts: seq<Tok>, k: nat, inside: bool)
    requires ParseEre(ts, k, inside).Ok?
    ensures var r := ParseEre(ts, k, inside);
      ts == ShowEre(r.tree) + r.rest && ProperEre(r.tree, k) && r.nsub == k + GroupsEre(r.tree)
    decreases |ts|, 3
  {
    hide ParseExps, ShowExps, ProperExps, GroupsExps, ExpsCode;
    ExpsShows(ts, k, inside);
    var b := ParseExps(ts, k, inside);
    if b.rest != [] && b.rest[0] == TBar {
      EreShows(b.rest[1..], b.nsub, inside);
      var r := ParseEre(b.rest[1..], b.nsub, inside);
      assert ([Branch(b.tree)] + r.tree)[1..] == r.tree;
      assert b.rest == [TBar] + b.rest[1..];
      Assoc([TBar], ShowEre(r.tree), r.rest);
      Assoc(ShowExps(b.tree), [TBar] + ShowEre(r.tree), r.rest);
      Assoc(ShowExps(b.tree), [TBar], ShowEre(r.tree));
    }
  }

  lemma {:induction false} AtomParses(a: Atom, k: nat, rest: seq<Tok>)
    requires ProperAtom(a, k)
    ensures ParseAtom(ShowAtom(a) + rest, k) == Ok(a, rest, k + GroupsAtom(a))
    ensures !IsRepeat(ShowAtom(a)) && !BranchEnds(ShowAtom(a), true)
    decreases a, 0
  {
    hide ParseEre, ShowEre, ProperEre;
    var ts := ShowAtom(a) + rest;
    if a.Sub? {
      if a.body == [] {
        assert ts == [TLParen, TRParen] + rest;
        assert ts[2..] == rest;
      } else {
        var tail := [TRParen] + rest;
        EreParses(a.body, k + 1, true, tail);
        Assoc([TLParen] + ShowEre(a.body), [TRParen], rest);
        Assoc([TLParen], ShowEre(a.body), tail);
        assert ts[1..] == ShowEre(a.body) + tail;
        assert ts[1] == ShowEre(a.body)[0];
        assert tail[1..] == rest;
      }
    } else {
      assert ts[1..] == rest;
    }
  }

  lemma {:induction false} PostParses(post: Post, rest: seq<Tok>)
    requires !IsRepeat(rest) && (post.Interval? ==> BoundFits(post.least, post.most))
    ensures ParsePost(ShowPost(post) + rest) == Ok(post, rest, 0)
  {
    var ts := ShowPost(post) + rest;
    if post == Once { assert ts == rest; } else { assert ts[1..] == rest; }
  }

  lemma {:induction false} ExpParses(e: Exp, k: nat, rest: seq<Tok>)
    requires ProperExp(e, k) && !IsRepeat(rest)
    ensures ParseExp(ShowExp(e) + rest, k) == Ok(e, rest, k + GroupsExp(e))
    ensures ShowExp(e) != [] && !IsRepeat(ShowExp(e)) && !BranchEnds(ShowExp(e), true)
    decreases e, 1
  {
    hide ParseAtom, ShowAtom, ProperAtom, GroupsAtom, ParsePost, ShowPost;
    AtomParses(e.atom, k, ShowPost(e.post) + rest);
    PostParses(e.post, rest);
    Assoc(ShowAtom(e.atom), ShowPost(e.post), rest);
    assert ShowExp(e)[0] == ShowAtom(e.atom)[0];
  }

  lemma {:induction false} ExpsParses(es: seq<Exp>, k: nat, inside: bool, rest: seq<Tok>)
    requires ProperExps(es, k) && BranchEnds(rest, inside)
    ensures ParseExps(ShowExps(es) + rest, k, inside) == Ok(es, rest, k + GroupsExps(es))
    ensures es != [] ==> ShowExps(es) != [] && !IsRepeat(ShowExps(es)) && !BranchEnds(ShowExps(es), true)
    decreases es, 0
  {
    hide ParseExp, ShowExp, ProperExp, GroupsExp;
    if es == [] {
      assert ShowExps(es) + rest == rest;
    } else {
      var tail := ShowExps(es[1..]) + rest;
      ExpsParses(es[1..], k + GroupsExp(es[0]), inside, rest);
      if es[1..] == [] { assert tail == rest; } else { assert tail[0] == ShowExps(es[1..])[0]; }
      ExpParses(es[0], k, tail);
      Assoc(ShowExp(es[0]), ShowExps(es[1..]), rest);
      assert (ShowExp(es[0]) + tail)[0] == ShowExp(es[0])[0] == ShowExps(es)[0];
      assert [es[0]] + es[1..] == es;
    }
  }

  /** Every proper tree is what the parser reads from its printed form. */
  lemma {:induction false} EreParses(t: Ere, k: nat, inside: bool, rest: seq<Tok>)
    requires t != [] && ProperEre(t, k) && BranchEnds(rest, inside) && (rest != [] ==> rest[0] != TBar)
    ensures ParseEre(ShowEre(t) + rest, k, inside) == Ok(t, rest, k + GroupsEre(t))
    ensures ShowEre(t) != [] && !BranchEnds(ShowEre(t), true)
    decreases t, 0
  {
    hide ParseExps, ShowExps, ProperExps, GroupsExps;
    var es := t[0].exps;
    var k' := k + GroupsExps(es);
    assert t == [Branch(es)] + t[1..];
    if |t| == 1 {
      ExpsParses(es, k, inside, rest);
      assert t[1..] == [] && t == [Branch(es)];
    } else {
      var tail := [TBar] + (ShowEre(t[1..]) + rest);
      ExpsParses(es, k, inside, tail);
      EreParses(t[1..], k', inside, rest);
      Assoc(ShowExps(es), [TBar], ShowEre(t[1..]));
      Assoc(ShowExps(es), [TBar] + ShowEre(t[1..]), rest);
      Assoc([TBar], ShowEre(t[1..]), rest);
      assert tail[1..] == ShowEre(t[1..]) + rest;
      assert ShowEre(t)[0] == ShowExps(es)[0];
    }
  }
}
