/** The one-pass pattern compiler: it emits operators while it reads the pattern, moves code already emitted to
    insert prefixes, and patches offsets afterwards. */
module RegexCompile {
  import opened Basics
  import opened RegexSyntax
  import opened RegexStrip
  import opened RegexParse

  // ------------------------------------------------------------------
  // The code of a choice, as far as it is known while alternatives still follow
  // ------------------------------------------------------------------

  function OpenCode(t: Ere): Code
    requires BoundsOk(t)
    decreases |t|
  {
    if t == [] then []
    else
      var n := |t| - 1;
      var x := ExpsCode(t[n].exps);
      OpenCode(t[..n]) + if n == 0 then FirstAlt(x) else MiddleAlt(x)
  }

  lemma {:induction false} OpenSnoc(t: Ere, b: Branch)
    requires BoundsOk(t) && BoundsOkExps(b.exps)
    ensures BoundsOk(t + [b])
    ensures OpenCode(t + [b]) ==
      OpenCode(t) + if t == [] then FirstAlt(ExpsCode(b.exps)) else MiddleAlt(ExpsCode(b.exps))
  {
    assert (t + [b])[..|t|] == t;
  }

  lemma {:induction false} OpenCons(t: Ere)
    requires BoundsOk(t) && t != []
    ensures OpenCode(t) == FirstAlt(ExpsCode(t[0].exps)) + MiddlesCode(t[1..])
    decreases |t|
  {
    hide ExpsCode, FirstAlt, MiddleAlt;
    var n := |t| - 1;
    var x := ExpsCode(t[n].exps);
    var first := FirstAlt(ExpsCode(t[0].exps));
    if n == 0 {
      assert OpenCode(t[..n]) == [] && MiddlesCode(t[1..]) == [];
      assert [] + first == first + [];
    } else {
      assert t[1..][n - 1] == t[n] && t[1..][..n - 1] == t[..n][1..] && t[..n][0] == t[0];
      OpenCons(t[..n]);
      Assoc(first, MiddlesCode(t[..n][1..]), MiddleAlt(x));
    }
  }

  /** Alternatives that are neither the first nor the last. */
  function MiddlesCode(t: Ere): Code
    requires BoundsOk(t)
    decreases |t|
  {
    if t == [] then [] else MiddlesCode(t[..|t| - 1]) + MiddleAlt(ExpsCode(t[|t| - 1].exps))
  }

  lemma {:induction false} MiddlesTail(t: Ere, u: Ere)
    requires BoundsOk(t) && BoundsOk(u) && u != []
    ensures BoundsOk(t + u) && MiddlesCode(t) + TailCode(u) == TailCode(t + u)
    decreases |t|
  {
    hide ExpsCode, MiddleAlt, LastAlt;
    if t == [] {
      assert t + u == u;
      assert [] + TailCode(u) == TailCode(u);
    } else {
      var n := |t| - 1;
      var m := MiddleAlt(ExpsCode(t[n].exps));
      MiddlesTail(t[..n], [t[n]] + u);
      assert t[..n] + ([t[n]] + u) == t + u;
      assert ([t[n]] + u)[1..] == u;
      assert TailCode([t[n]] + u) == m + TailCode(u);
      Assoc(MiddlesCode(t[..n]), m, TailCode(u));
    }
  }

  /** Closing an open choice with its last alternative gives the code of the whole. */
  lemma {:induction false} CloseCode(t: Ere, b: Branch)
    requires BoundsOk(t) && t != [] && BoundsOkExps(b.exps)
    ensures BoundsOk(t + [b]) && OpenCode(t) + LastAlt(ExpsCode(b.exps)) == EreCode(t + [b])
  {
    hide ExpsCode, FirstAlt, LastAlt, MiddleAlt;
    var first, last := FirstAlt(ExpsCode(t[0].exps)), LastAlt(ExpsCode(b.exps));
    assert TailCode([b]) == last;
    MiddlesTail(t[1..], [b]);
    assert t[1..] + [b] == (t + [b])[1..];
    OpenCons(t);
    Assoc(first, MiddlesCode(t[1..]), last);
  }

  function PostOf(op: Tok): Post
    requires IsRepeat([op])
  {
    match op
    case TStar => Star
    case TPlus => Plus
    case TBrace(least, most) => Interval(least, most)
    case _ => Quest
  }

  lemma {:induction false} ExpsSnoc(es: seq<Exp>, e: Exp)
    requires BoundsOkExps(es) && BoundsOkExp(e)
    ensures BoundsOkExps(es + [e]) && ExpsCode(es + [e]) == ExpsCode(es) + ExpCode(e)
  {
    hide ExpCode;
    if es == [] {
      assert es + [e] == [e] && [e][1..] == [];
    } else {
      ExpsSnoc(es[1..], e);
      assert (es + [e])[1..] == es[1..] + [e];
    }
  }

  lemma {:induction false} PrefixTwice(a: seq<Exp>, b: seq<Exp>, r: Parsed<seq<Exp>>)
    ensures PrefixExps(a, PrefixExps(b, r)) == PrefixExps(a + b, r)
  {
    if r.Ok? { assert a + (b + r.tree) == (a + b) + r.tree; }
  }

  lemma {:induction false} PrefixEreTwice(a: Ere, b: Ere, r: Parsed<Ere>)
    ensures PrefixEre(a, PrefixEre(b, r)) == PrefixEre(a + b, r)
  {
    if r.Ok? { assert a + (b + r.tree) == (a + b) + r.tree; }
  }

  // ------------------------------------------------------------------
  // Pieces of code
  // ------------------------------------------------------------------

  lemma {:induction false} PatchAt(pre: Code, a: Sop, x: Code, b: Sop)
    ensures (pre + [a] + x)[|pre| := b] == pre + [b] + x
  {
  }

  lemma {:induction false} AltShapes(pre: Code, x: Code)
    ensures pre + [Sop(OChBegin, |x| + 2)] + x + [Sop(OOr1, |x| + 1)] == pre + FirstAlt(x)
    ensures pre + [Sop(OOr2, |x| + 2)] + x + [Sop(OOr1, |x| + 2)] == pre + MiddleAlt(x)
    ensures |FirstAlt(x)| == |x| + 2 && |MiddleAlt(x)| == |x| + 2
  {
  }

  lemma {:induction false} StartOpen(pre: Code)
    ensures pre == pre + OpenCode([])
  {
  }

  /** The reference parser, one branch at a time. */
  lemma {:induction false} ParseEreUnfold(ts: seq<Tok>, k: nat, inside: bool)
    ensures ParseExps(ts, k, inside).Bad? ==> ParseEre(ts, k, inside) == Bad(ParseExps(ts, k, inside).error)
    ensures match ParseExps(ts, k, inside)
            case Bad(_) => true
            case Ok(es, rest, k') =>
              ParseEre(ts, k, inside) ==
              if ExpsCode(es) == [] then Bad(EmptyBranch)
              else if rest != [] && rest[0] == TBar then PrefixEre([Branch(es)], ParseEre(rest[1..], k', inside))
              else Ok([Branch(es)], rest, k')
  {
    hide ParseExps, ExpsCode;
  }

  lemma {:induction false} MaybeParts(pre: Code, x: Code)
    ensures |MaybeCode(x)| == |x| + 4
    ensures (pre + MaybeCode(x))[|pre| + 1..|pre| + |x| + 1] == x
  {
  }

  lemma {:induction false} RepeatUnfold(x: Code, least: nat, most: Bound)
    requires InOrder(least, most)
    ensures most == Finite(0) ==> RepeatCode(x, least, most) == []
    ensures least == 0 && most != Finite(0) ==> RepeatCode(x, least, most) == MaybeCode(RepeatCode(x, 1, most))
    ensures least == 1 && most == Unbounded ==> RepeatCode(x, least, most) == PlusCode(x)
    ensures least == 1 && most == Finite(1) ==> RepeatCode(x, least, most) == x
    ensures least == 1 && most.Finite? && most.n > 1 ==>
              RepeatCode(x, least, most) == MaybeCode(x) + RepeatCode(x, 1, Less(most))
    ensures least > 1 ==> RepeatCode(x, least, most) == x + RepeatCode(x, least - 1, Less(most))
  {
    hide PlusCode, MaybeCode;
  }

  lemma {:induction false} SingleCode(b: Branch)
    requires BoundsOkExps(b.exps)
    ensures EreCode([b]) == ExpsCode(b.exps)
  {
  }

  // ------------------------------------------------------------------
  // Parse state
  // ------------------------------------------------------------------

  class Parse {
    const pattern: seq<Tok>
    var next: nat
    var error: Option<Error>
    var strip: Code
    var nsub: nat

    /** The scanner is inside the pattern, and at its end once there was an error. */
    ghost predicate Valid()
      reads this
    {
      next <= |pattern| && (error.Some? ==> next == |pattern|)
    }

    ghost function Rest(): seq<Tok>
      requires Valid()
      reads this
    {
      pattern[next..]
    }

    constructor (pattern: seq<Tok>)
      ensures Valid() && Rest() == pattern && error == None && strip == [] && nsub == 0 && this.pattern == pattern
    {
      this.pattern := pattern;
      next, error, strip, nsub := 0, None, [], 0;
    }

    /** Records the first error and puts the scanner where no more input is seen. */
    method SetError(e: Error)
      requires Valid()
      modifies this`error, this`next
      ensures Valid() && error == (if old(error).Some? then old(error) else Some(e))
    {
      if error == None { error := Some(e); }
      next := |pattern|;
    }

    method Require(condition: bool, e: Error)
      requires Valid()
      modifies this`error, this`next
      ensures Valid()
      ensures condition ==> error == old(error) && next == old(next)
      ensures !condition ==> error == (if old(error).Some? then old(error) else Some(e))
    {
      if !condition { SetError(e); }
    }

    predicate See(tok: Tok)
      requires Valid()
      reads this
    {
      next < |pattern| && pattern[next] == tok
    }

    /** No operator is emitted once there was an error. */
    method Emit(op: Op, opnd: nat)
      modifies this`strip
      ensures strip == if error.Some? then old(strip) else old(strip) + [Sop(op, opnd)]
    {
      if error.Some? { return; }
      strip := strip + [Sop(op, opnd)];
    }

    /** Inserts an operator at `pos`, with an offset to one past the old end of the strip. */
    method Insert(op: Op, pos: nat)
      requires pos <= |strip|
      modifies this`strip
      ensures strip == if error.Some? then old(strip)
                       else old(strip)[..pos] + [Sop(op, |old(strip)| - pos + 1)] + old(strip)[pos..]
    {
      if error.Some? { return; }
      ghost var was := strip;
      var sn := |strip|;
      Emit(op, sn - pos + 1);
      var s := strip[sn];
      strip := strip[..pos + 1] + strip[pos..sn];
      strip := strip[pos := s];
      assert strip == was[..pos] + [s] + was[pos..];
    }

    /** Makes the operator at `pos` point forward to the end of the strip. */
    method Ahead(pos: nat)
      requires error == None ==> pos < |strip|
      modifies this`strip
      ensures error.Some? ==> strip == old(strip)
      ensures error == None ==> strip == old(strip)[pos := Sop(old(strip)[pos].op, |old(strip)| - pos)]
    {
      if error.Some? { return; }
      strip := strip[pos := Sop(strip[pos].op, |strip| - pos)];
    }

    /** Emits an operator that points back to `pos`. */
    method Astern(op: Op, pos: nat)
      requires pos <= |strip|
      modifies this`strip
      ensures strip == if error.Some? then old(strip) else old(strip) + [Sop(op, |old(strip)| - pos)]
    {
      Emit(op, |strip| - pos);
    }

    method Dupl(start: nat, finish: nat) returns (copy: nat)
      requires start <= finish <= |strip|
      modifies this`strip
      ensures copy == |old(strip)| && strip == old(strip) + old(strip)[start..finish]
    {
      copy := |strip|;
      if finish == start { return; }
      strip := strip + strip[start..finish];
    }

    /** Wraps the operand from `start` on, or what was made of it, as `(x|)`. */
    method EndMaybe(start: nat, ghost pre: Code, ghost x: Code, ghost n: nat)
      requires error == None && |pre| == start && strip == pre + [Sop(OChBegin, n)] + x
      modifies this`strip
      ensures strip == pre + MaybeCode(x)
    {
      Astern(OOr1, start);
      Ahead(start);
      assert strip == pre + [Sop(OChBegin, |x| + 2)] + x + [Sop(OOr1, |x| + 1)];
      Emit(OOr2, 0);
      Ahead(|strip| - 1);
      assert strip == pre + [Sop(OChBegin, |x| + 2)] + x + [Sop(OOr1, |x| + 1)] + [Sop(OOr2, 1)];
      Astern(OChEnd, |strip| - 2);
      assert strip == pre + MaybeCode(x);
    }

    method EmitPlus(pos: nat)
      requires error == None && pos <= |strip|
      modifies this`strip
      ensures strip == old(strip)[..pos] + PlusCode(old(strip)[pos..])
    {
      ghost var pre, x := strip[..pos], strip[pos..];
      Insert(OPlusBegin, pos);
      Astern(OPlusEnd, pos);
      assert strip == pre + PlusCode(x);
    }

    method EmitStar(pos: nat)
      requires error == None && pos <= |strip|
      modifies this`strip
      ensures strip == old(strip)[..pos] + QuestCode(PlusCode(old(strip)[pos..]))
    {
      hide PlusCode;
      ghost var pre, y := strip[..pos], PlusCode(strip[pos..]);
      EmitPlus(pos);
      Parts(pre, y);
      Insert(OQuestBegin, pos);
      Astern(OQuestEnd, pos);
      assert strip == pre + QuestCode(y);
    }

    method EmitMaybe(pos: nat)
      requires error == None && pos <= |strip|
      modifies this`strip
      ensures strip == old(strip)[..pos] + MaybeCode(old(strip)[pos..])
    {
      hide MaybeCode;
      ghost var pre, x := strip[..pos], strip[pos..];
      Insert(OChBegin, pos);
      EndMaybe(pos, pre, x, |x| + 1);
    }

    method Copy(start: nat) returns (copy: nat)
      requires start <= |strip|
      modifies this`strip
      ensures var x := old(strip)[start..];
        strip == (old(strip)[..start] + x) + x && copy == start + |x|
    {
      ghost var pre, x := strip[..start], strip[start..];
      assert strip == pre + x && strip[start..|strip|] == x;
      copy := Dupl(start, |strip|);
    }

    /** Makes the operand optional and puts a copy of it behind. */
    method MaybeAndCopy(start: nat) returns (copy: nat)
      requires error == None && start <= |strip|
      modifies this`strip
      ensures var x := old(strip)[start..];
        strip == (old(strip)[..start] + MaybeCode(x)) + x && copy == start + |MaybeCode(x)|
    {
      hide MaybeCode;
      ghost var pre, x := strip[..start], strip[start..];
      var finish := |strip|;
      EmitMaybe(start);
      MaybeParts(pre, x);
      copy := Dupl(start + 1, finish + 1);
      assert copy == finish + 4;
    }

    /** Turns the operand from `start` on into its bounded repetition. */
    method Repeat(start: nat, least: nat, most: Bound)
      requires start <= |strip| && InOrder(least, most)
      modifies this`strip
      ensures error.Some? ==> strip == old(strip)
      ensures error == None ==> strip == old(strip)[..start] + RepeatCode(old(strip)[start..], least, most)
      decreases least == 0, least, if most.Finite? then most.n else 0
    {
      if error.Some? { return; }
      hide RepeatCode, MaybeCode, PlusCode;
      ghost var pre, x := strip[..start], strip[start..];
      RepeatUnfold(x, least, most);
      if most == Finite(0) {
        strip := strip[..start];
        assert pre == pre + [];
      } else if least == 0 {
        Insert(OChBegin, start);
        Parts(pre + [Sop(OChBegin, |x| + 1)], x);
        Repeat(start + 1, 1, most);
        EndMaybe(start, pre, RepeatCode(x, 1, most), |x| + 1);
      } else if least == 1 {
        if most == Unbounded {
          EmitPlus(start);
        } else if most != Finite(1) {
          var copy := MaybeAndCopy(start);
          Parts(pre + MaybeCode(x), x);
          Repeat(copy, 1, Less(most));
          Assoc(pre, MaybeCode(x), RepeatCode(x, 1, Less(most)));
        }
      } else {
        var copy := Copy(start);
        Parts(pre + x, x);
        Repeat(copy, least - 1, Less(most));
        Assoc(pre, x, RepeatCode(x, least - 1, Less(most)));
      }
    }

    /** Applies the repetition operator `op` to the operand from `pos` on. */
    method EmitPost(op: Tok, pos: nat)
      requires Valid() && error == None && pos <= |strip|
      requires IsRepeat([op])
      modifies this`strip, this`error, this`next
      ensures Valid()
      ensures op.TBrace? && !BoundFits(op.least, op.most) ==> error == Some(BadBound)
      ensures !(op.TBrace? && !BoundFits(op.least, op.most)) ==>
                error == None && next == old(next) &&
                strip == old(strip)[..pos] + PostCode(old(strip)[pos..], PostOf(op))
    {
      hide RepeatCode, MaybeCode, PlusCode, QuestCode;
      if op.TStar? {
        EmitStar(pos);
      } else if op.TPlus? {
        EmitPlus(pos);
      } else if op.TBrace? {
        Require(BoundFits(op.least, op.most), BadBound);
        if InOrder(op.least, op.most) {
          Repeat(pos, op.least, op.most);
        }
      } else {
        EmitMaybe(pos);
      }
    }

    /** One atom and what repeats it. */
    method PEreExp()
      requires Valid() && error == None && next < |pattern|
      modifies this
      ensures Valid() && old(next) < next
      ensures match ParseExp(old(Rest()), old(nsub))
              case Bad(e) => error == Some(e)
              case Ok(t, rest, k) => error == None && Rest() == rest && nsub == k && strip == old(strip) + ExpCode(t)
      decreases |pattern| - next, 0
    {
      ghost var ts, pre := Rest(), strip;
      var pos := |strip|;
      PAtom();
      ghost var a := ParseAtom(ts, old(nsub));
      if next == |pattern| { 
        assert a.Ok? ==> strip == pre + AtomCode(a.tree) && a.rest == [];
        return;
      }
      var c := pattern[next];
      assert Rest()[0] == c && Rest()[1..] == pattern[next + 1..];
      if !(c.TStar? || c.TPlus? || c.TQuest? || c.TBrace?) { return; }
      next := next + 1;
      assert strip[..pos] == pre && strip[pos..] == AtomCode(a.tree);
      EmitPost(c, pos);
      if next == |pattern| { return; }
      c := pattern[next];
      if !(c.TStar? || c.TPlus? || c.TQuest? || c.TBrace?) { return; }
      SetError(BadRepeat);
    }

    /** The atom at the scanner: a group, a bracket expression, or one character. */
    method PAtom()
      requires Valid() && error == None && next < |pattern|
      modifies this
      ensures Valid() && old(next) < next
      ensures match ParseAtom(old(Rest()), old(nsub))
              case Bad(e) => error == Some(e)
              case Ok(t, rest, k) => error == None && Rest() == rest && nsub == k && strip == old(strip) + AtomCode(t)
      decreases |pattern| - next, 0, 0
    {
      var c := pattern[next];
      ghost var ts := Rest();
      next := next + 1;
      assert ts[0] == c && ts[1..] == Rest();
      match c
      case TLParen => PGroup();
      case TRParen => SetError(BadParen);
      case TBar => SetError(EmptyBranch);
      case TDot => Emit(OAny, 0);
      case TBracket(n) => Emit(OAnyOf, n);
      case TChar(ch) => Emit(OChar, ch);
      case _ => SetError(BadRepeat);
    }

    /** What follows a `(`. */
    method PGroup()
      requires Valid() && error == None
      modifies this
      ensures Valid() && old(next) <= next
      ensures match ParseAtom([TLParen] + old(Rest()), old(nsub))
              case Bad(e) => error == Some(e)
              case Ok(t, rest, k) => error == None && Rest() == rest && nsub == k && strip == old(strip) + AtomCode(t)
      decreases |pattern| - next, 3
    {
      hide ParseEre, EreCode;
      ghost var ts, pre := [TLParen] + Rest(), strip;
      assert ts[1..] == Rest();
      Require(next < |pattern|, BadParen);
      nsub := nsub + 1;
      var subno := nsub;
      Emit(OLParen, subno);
      var empty := See(TRParen);
      if !empty { PEre(true); }
      ghost var body := strip;
      Emit(ORParen, subno);
      Require(See(TRParen), BadParen);
      if error == None {
        next := next + 1;
        assert strip == body + [Sop(ORParen, subno)];
        if empty {
          assert strip == pre + ([Sop(OLParen, subno)] + [] + [Sop(ORParen, subno)]);
        } else {
          var t := ParseEre(ts[1..], subno, true).tree;
          assert strip == pre + ([Sop(OLParen, subno)] + EreCode(t) + [Sop(ORParen, subno)]);
        }
      }
    }

    /** Concatenated expressions up to the end of the branch. */
    method PBranch(inside: bool)
      requires Valid()
      modifies this
      ensures Valid() && old(next) <= next
      ensures old(error).Some? ==> error == old(error) && strip == old(strip)
      ensures old(error) == None ==>
              match ParseExps(old(Rest()), old(nsub), inside)
              case Bad(e) => error == Some(e)
              case Ok(t, rest, k) => error == None && Rest() == rest && nsub == k && strip == old(strip) + ExpsCode(t)
      decreases |pattern| - next, 1
    {
      assert ExpsCode([]) == [];
      hide ParseExp, ExpCode, ExpsCode;
      ghost var all := ParseExps(Rest(), nsub, inside);
      ghost var es: seq<Exp> := [];
      assert strip == strip + [];
      if all.Ok? { assert [] + all.tree == all.tree; }
      while next < |pattern| && pattern[next] != TBar && !(inside && pattern[next] == TRParen)
        invariant Valid() && old(next) <= next
        invariant old(error).Some? ==> error == old(error) && strip == old(strip)
        invariant old(error) == None && error.Some? ==> all == Bad(error.value)
        invariant error == None ==> all == PrefixExps(es, ParseExps(Rest(), nsub, inside))
        invariant error == None ==> BoundsOkExps(es) && strip == old(strip) + ExpsCode(es)
        decreases |pattern| - next
      {
        ghost var ts, k, pre := Rest(), nsub, strip;
        assert !BranchEnds(ts, inside);
        PEreExp();
        if error == None {
          ghost var e := ParseExp(ts, k).tree;
          ExpsSnoc(es, e);
          Assoc(old(strip), ExpsCode(es), ExpCode(e));
          PrefixTwice(es, [e], ParseExps(Rest(), nsub, inside));
          es := es + [e];
        }
      }
      if error == None { assert es + [] == es; }
    }

    /** Ends the alternative `x` and starts the next: the branch mark at `fwd` is completed. */
    method NextAlternative(fwd: nat, back: nat, ghost open: Code, ghost mark: Op, ghost n: nat, ghost x: Code)
      returns (fwd': nat, back': nat)
      requires error == None && |open| == fwd && strip == open + [Sop(mark, n)] + x && back <= fwd
      modifies this`strip
      ensures strip == open + [Sop(mark, |x| + 2)] + x + [Sop(OOr1, fwd - back + 1 + |x|)] + [Sop(OOr2, 0)]
      ensures fwd' == |strip| - 1 == back' + 1
    {
      Astern(OOr1, back);
      back' := |strip| - 1;
      ghost var y := x + [Sop(OOr1, fwd - back + 1 + |x|)];
      Assoc(open + [Sop(mark, n)], x, [Sop(OOr1, fwd - back + 1 + |x|)]);
      Ahead(fwd);
      PatchAt(open, Sop(mark, n), y, Sop(mark, |x| + 2));
      Assoc(open + [Sop(mark, |x| + 2)], x, [Sop(OOr1, fwd - back + 1 + |x|)]);
      fwd' := |strip|;
      Emit(OOr2, 0);
    }

    /** Ends the last alternative `x` of a choice. */
    method LastAlternative(fwd: nat, back: nat, ghost open: Code, ghost x: Code)
      requires error == None && |open| == fwd && fwd == back + 1 && strip == open + [Sop(OOr2, 0)] + x
      modifies this`strip
      ensures strip == open + LastAlt(x)
    {
      Ahead(fwd);
      PatchAt(open, Sop(OOr2, 0), x, Sop(OOr2, |x| + 1));
      Astern(OChEnd, back);
      assert strip == open + LastAlt(x);
    }

    /** Puts the alternative from `conc` on behind those already there. */
    method AddAlternative(first: bool, conc: nat, fwd: nat, back: nat, ghost open: Code, ghost x: Code)
        returns (fwd': nat, back': nat)
      requires error == None
      requires first ==> conc == |open| && strip == open + x
      requires !first ==> fwd == |open| == back + 1 && strip == open + [Sop(OOr2, 0)] + x
      modifies this`strip
      ensures strip == open + (if first then FirstAlt(x) else MiddleAlt(x)) + [Sop(OOr2, 0)]
      ensures fwd' == |strip| - 1 == back' + 1
    {
      AltShapes(open, x);
      if first {
        Insert(OChBegin, conc);
        fwd', back' := NextAlternative(conc, conc, open, OChBegin, |x| + 1, x);
      } else {
        fwd', back' := NextAlternative(fwd, back, open, OOr2, 0, x);
      }
    }

    /** Alternatives up to the end of the pattern, or up to the `)` of the group it is in. */
    method PEre(inside: bool)
      requires Valid()
      modifies this
      ensures Valid() && old(next) <= next
      ensures old(error).Some? ==> error == old(error)
      ensures old(error) == None ==>
              match ParseEre(old(Rest()), old(nsub), inside)
              case Bad(e) => error == Some(e)
              case Ok(t, rest, k) => error == None && Rest() == rest && nsub == k && strip == old(strip) + EreCode(t)
      decreases |pattern| - next, 2
    {
      hide ParseExps, ParseEre, ExpsCode, EreCode, OpenCode, FirstAlt, MiddleAlt, LastAlt;
      ghost var all, pre := ParseEre(Rest(), nsub, inside), strip;
      ghost var t: Ere, open := [], strip;
      var first, prevfwd, prevback := true, 0, 0;
      if all.Ok? { assert [] + all.tree == all.tree; }
      StartOpen(pre);
      while true
        invariant Valid() && old(next) <= next
        invariant old(error).Some? ==> error == old(error)
        invariant old(error) == None && error.Some? ==> all == Bad(error.value)
        invariant error == None ==> all == PrefixEre(t, ParseEre(Rest(), nsub, inside))
        invariant BoundsOk(t) && open == pre + OpenCode(t)
        invariant first <==> t == []
        invariant error == None ==> strip == if first then open else open + [Sop(OOr2, 0)]
        invariant !first ==> |open| == prevfwd == prevback + 1
        decreases |pattern| - next
      {
        var conc := |strip|;
        ghost var ts, k := Rest(), nsub;
        ParseEreUnfold(ts, k, inside);
        PBranch(inside);
        Require(|strip| != conc, EmptyBranch);
        if error.Some? { break; }
        ghost var b := Branch(ParseExps(ts, k, inside).tree);
        ghost var x := ExpsCode(b.exps);
        if !See(TBar) {
          if first {
            SingleCode(b);
            assert t + [b] == [b];
          } else {
            LastAlternative(prevfwd, prevback, open, x);
            Assoc(pre, OpenCode(t), LastAlt(x));
            CloseCode(t, b);
          }
          break;
        }
        next := next + 1;
        PrefixEreTwice(t, [b], ParseEre(Rest(), nsub, inside));
        OpenSnoc(t, b);
        prevfwd, prevback := AddAlternative(first, conc, prevfwd, prevback, open, x);
        ghost var more := if first then FirstAlt(x) else MiddleAlt(x);
        Assoc(pre, OpenCode(t), more);
        open := open + more;
        t := t + [b];
        first := false;
      }
    }
  }
}
