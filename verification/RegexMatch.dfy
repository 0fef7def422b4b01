/** The scans over a text: the deliberate one finds the longest match from a point, the fast one whether there
    is a match anywhere. */
module RegexMatch {
  import opened Basics
  import opened RegexStrip
  import opened RegexPaths
  import opened RegexEngine

  /** `s` is the set of states that `w` leads to. */
  ghost predicate IsReach(g: Guts, lo: nat, hi: nat, w: seq<Byte>, s: set<nat>) {
    forall t: nat :: t in s <==> Reaches(g, lo, hi, lo, w, t)
  }

  ghost predicate ReachedFrom(g: Guts, lo: nat, hi: nat, seed: set<nat>, t: nat) {
    exists p: nat :: p in seed && Reaches(g, lo, hi, p, [], t)
  }

  lemma {:induction false} PathStays(g: Guts, lo: nat, hi: nat, c: set<nat>, p: nat, t: nat, n: nat)
    requires Closed(g, lo, hi, c) && p in c && Path(g, lo, hi, p, [], t, n)
    ensures t in c
    decreases n
  {
    if n > 0 {
      var q, v :| Move(g, p, [], q, v) && Path(g, lo, hi, q, v, t, n - 1);
      PathStays(g, lo, hi, c, q, t, n - 1);
    }
  }

  lemma {:induction false} ReachesEps(g: Guts, lo: nat, hi: nat, s: nat, w: seq<Byte>, p: nat, q: nat)
    requires Reaches(g, lo, hi, s, w, p) && lo <= p < hi && Eps(g, p, q)
    ensures Reaches(g, lo, hi, s, w, q)
  {
    ReachesSelf(g, lo, hi, q);
    assert Move(g, p, [], q, []);
    ReachesStep(g, lo, hi, p, [], q, [], q);
    ReachesConcat(g, lo, hi, s, w, p, [], q);
    assert w + [] == w;
  }

  ghost function Covered(g: Guts, lo: nat, hi: nat, seed: set<nat>): set<nat> {
    seed + set x: nat | x <= hi && ReachedFrom(g, lo, hi, seed, x)
  }

  lemma {:induction false} CoveredClosed(g: Guts, lo: nat, hi: nat, seed: set<nat>)
    requires Framed(g, lo, hi)
    ensures Closed(g, lo, hi, Covered(g, lo, hi, seed))
  {
    var c := Covered(g, lo, hi, seed);
    forall p: nat, q: nat | p in c && lo <= p < hi && Eps(g, p, q) ensures q in c {
      hide Reaches, Eps, Framed;
      assert Move(g, p, [], q, []);
      FramedMove(g, lo, hi, p, [], q, []);
      if p in seed { ReachesSelf(g, lo, hi, p); }
      var r: nat :| r in seed && Reaches(g, lo, hi, r, [], p);
      ReachesEps(g, lo, hi, r, [], p, q);
    }
  }

  /** The least closed set is what paths without input lead to. */
  lemma {:induction false} ClosureReaches(g: Guts, lo: nat, hi: nat, seed: set<nat>, s: set<nat>, t: nat)
    requires Framed(g, lo, hi) && LeastClosed(g, lo, hi, seed, s)
    ensures t in s <==> ReachedFrom(g, lo, hi, seed, t)
  {
    if t in s {
      CoveredClosed(g, lo, hi, seed);
      assert t in Covered(g, lo, hi, seed);
      if t in seed { ReachesSelf(g, lo, hi, t); }
    }
    if ReachedFrom(g, lo, hi, seed, t) {
      var p: nat :| p in seed && Reaches(g, lo, hi, p, [], t);
      var n: nat :| Path(g, lo, hi, p, [], t, n);
      PathStays(g, lo, hi, s, p, t, n);
    }
  }

  /** A path that consumes `w + [c]` consumes `c` in one of its moves, after `w`. */
  lemma {:induction false} PathEatLast(g: Guts, lo: nat, hi: nat, s: nat, w: seq<Byte>, c: Byte, t: nat, n: nat)
      returns (p: nat)
    requires Path(g, lo, hi, s, w + [c], t, n)
    ensures lo <= p < hi && Reaches(g, lo, hi, s, w, p) && Eats(g, p, c) && Reaches(g, lo, hi, p + 1, [], t)
    decreases n
  {
    var q, v :| Move(g, s, w + [c], q, v) && Path(g, lo, hi, q, v, t, n - 1);
    if Eps(g, s, q) && v == w + [c] {
      p := PathEatLast(g, lo, hi, q, w, c, t, n - 1);
      assert Move(g, s, w, q, w);
      ReachesStep(g, lo, hi, s, w, q, w, p);
    } else if w == [] {
      p := s;
      assert v == [];
      ReachesSelf(g, lo, hi, s);
    } else {
      assert v == w[1..] + [c] && (w + [c])[0] == w[0];
      p := PathEatLast(g, lo, hi, q, w[1..], c, t, n - 1);
      assert Move(g, s, w, q, w[1..]);
      ReachesStep(g, lo, hi, s, w, q, w[1..], p);
    }
  }

  ghost predicate EatsOn(g: Guts, lo: nat, hi: nat, w: seq<Byte>, c: Byte, t: nat, p: nat) {
    lo <= p < hi && Reaches(g, lo, hi, lo, w, p) && Eats(g, p, c) && Reaches(g, lo, hi, p + 1, [], t)
  }

  lemma {:induction false} ReachesSnoc(g: Guts, lo: nat, hi: nat, w: seq<Byte>, c: Byte, t: nat)
    ensures Reaches(g, lo, hi, lo, w + [c], t) <==> exists p: nat :: EatsOn(g, lo, hi, w, c, t, p)
  {
    if Reaches(g, lo, hi, lo, w + [c], t) {
      var n: nat :| Path(g, lo, hi, lo, w + [c], t, n);
      var p := PathEatLast(g, lo, hi, lo, w, c, t, n);
      assert EatsOn(g, lo, hi, w, c, t, p);
    }
    if p: nat :| EatsOn(g, lo, hi, w, c, t, p) {
      assert Move(g, p, [c], p + 1, []);
      ReachesStep(g, lo, hi, p, [c], p + 1, [], t);
      ReachesConcat(g, lo, hi, lo, w, p, [c], t);
    }
  }

  lemma {:induction false} NothingReached(g: Guts, lo: nat, hi: nat, w: seq<Byte>, u: seq<Byte>, t: nat)
    requires IsReach(g, lo, hi, w, {})
    ensures !Reaches(g, lo, hi, lo, w + u, t)
    decreases |u|
  {
    if u == [] {
      assert w + u == w && t !in {};
    } else {
      var v, c := u[..|u| - 1], u[|u| - 1];
      assert w + u == (w + v) + [c];
      ReachesSnoc(g, lo, hi, w + v, c, t);
      forall p: nat ensures !EatsOn(g, lo, hi, w + v, c, t, p) { NothingReached(g, lo, hi, w, v, p); }
    }
  }

  lemma {:induction false} FirstReach(g: Guts, lo: nat, hi: nat, s: set<nat>)
    requires Framed(g, lo, hi) && LeastClosed(g, lo, hi, {lo}, s)
    ensures IsReach(g, lo, hi, [], s)
  {
    forall t: nat ensures t in s <==> Reaches(g, lo, hi, lo, [], t) {
      ClosureReaches(g, lo, hi, {lo}, s, t);
    }
  }

  lemma {:induction false} NextReach(g: Guts, lo: nat, hi: nat, w: seq<Byte>, c: Byte, s: set<nat>, s': set<nat>)
    requires Framed(g, lo, hi) && IsReach(g, lo, hi, w, s)
    requires LeastClosed(g, lo, hi, Eaten(g, lo, hi, s, Ch(c)), s')
    ensures IsReach(g, lo, hi, w + [c], s')
  {
    var seed := Eaten(g, lo, hi, s, Ch(c));
    forall t: nat ensures t in s' <==> Reaches(g, lo, hi, lo, w + [c], t) {
      ClosureReaches(g, lo, hi, seed, s', t);
      ReachesSnoc(g, lo, hi, w, c, t);
      if t in s' {
        var q: nat :| q in seed && Reaches(g, lo, hi, q, [], t);
        assert EatsOn(g, lo, hi, w, c, t, q - 1);
      }
      if p: nat :| EatsOn(g, lo, hi, w, c, t, p) {
        assert EatenAt(g, lo, hi, s, Ch(c), p + 1 - 1);
        assert p + 1 in seed;
      }
    }
  }

  /** A step on no character leaves a closed set as it is. */
  lemma {:induction false} StepIdle(g: Guts, lo: nat, hi: nat, s: set<nat>, s': set<nat>)
    requires Closed(g, lo, hi, s) && LeastClosed(g, lo, hi, s + Eaten(g, lo, hi, s, NonChar), s')
    ensures s' == s
  {
    assert s + Eaten(g, lo, hi, s, NonChar) == s;
  }

  lemma {:induction false} LeastIsClosed(g: Guts, lo: nat, hi: nat, seed: set<nat>, s: set<nat>)
    requires LeastClosed(g, lo, hi, seed, s)
    ensures Closed(g, lo, hi, s)
  {
  }

  // ------------------------------------------------------------------
  // What the scans look for
  // ------------------------------------------------------------------

  /** The text from `i` to `j` is accepted by the operators in `[lo, hi)`. */
  ghost predicate MatchAt(g: Guts, lo: nat, hi: nat, text: seq<Byte>, i: nat, j: nat) {
    i <= j <= |text| && Accepts(g, lo, hi, text[i..j])
  }

  /** Some part of the text between `start` and `stop` is accepted. */
  ghost predicate MatchIn(g: Guts, lo: nat, hi: nat, text: seq<Byte>, start: nat, stop: nat) {
    exists i: nat, j: nat :: start <= i && j <= stop && MatchAt(g, lo, hi, text, i, j)
  }

  /** A state reached from some start at or after `start` by the text up to `p`. */
  ghost predicate Underway(g: Guts, lo: nat, hi: nat, text: seq<Byte>, start: nat, p: nat, t: nat) {
    exists i: nat :: UnderwayFrom(g, lo, hi, text, start, p, t, i)
  }

  ghost predicate UnderwayFrom(g: Guts, lo: nat, hi: nat, text: seq<Byte>, start: nat, p: nat, t: nat, i: nat) {
    start <= i <= p <= |text| && Reaches(g, lo, hi, lo, text[i..p], t)
  }

  ghost predicate IsUnderway(g: Guts, lo: nat, hi: nat, text: seq<Byte>, start: nat, p: nat, s: set<nat>) {
    forall t: nat :: t in s <==> Underway(g, lo, hi, text, start, p, t)
  }

  lemma {:induction false} FirstUnderway(g: Guts, lo: nat, hi: nat, text: seq<Byte>, start: nat, s: set<nat>)
    requires start <= |text| && IsReach(g, lo, hi, [], s)
    ensures IsUnderway(g, lo, hi, text, start, start, s)
  {
    forall t: nat ensures t in s <==> Underway(g, lo, hi, text, start, start, t) {
      assert text[start..start] == [];
      if t in s { assert UnderwayFrom(g, lo, hi, text, start, start, t, start); }
    }
  }

  lemma {:induction false} NextUnderway(g: Guts, lo: nat, hi: nat, text: seq<Byte>, start: nat, p: nat,
      fresh_: set<nat>, s: set<nat>, s': set<nat>)
    requires Framed(g, lo, hi) && p < |text| && start <= p
    requires IsReach(g, lo, hi, [], fresh_) && IsUnderway(g, lo, hi, text, start, p, s)
    requires LeastClosed(g, lo, hi, fresh_ + Eaten(g, lo, hi, s, Ch(text[p])), s')
    ensures IsUnderway(g, lo, hi, text, start, p + 1, s')
  {
    forall t: nat ensures t in s' <==> Underway(g, lo, hi, text, start, p + 1, t) {
      ClosureReaches(g, lo, hi, fresh_ + Eaten(g, lo, hi, s, Ch(text[p])), s', t);
      if t in s' { NextUnderwaySound(g, lo, hi, text, start, p, fresh_, s, t); }
      if Underway(g, lo, hi, text, start, p + 1, t) { NextUnderwayComplete(g, lo, hi, text, start, p, fresh_, s, t); }
    }
  }

  lemma {:induction false} NextUnderwaySound(g: Guts, lo: nat, hi: nat, text: seq<Byte>, start: nat, p: nat,
      fresh_: set<nat>, s: set<nat>, t: nat)
    requires p < |text| && start <= p
    requires IsReach(g, lo, hi, [], fresh_) && IsUnderway(g, lo, hi, text, start, p, s)
    requires ReachedFrom(g, lo, hi, fresh_ + Eaten(g, lo, hi, s, Ch(text[p])), t)
    ensures Underway(g, lo, hi, text, start, p + 1, t)
  {
    hide Reaches;
    var c := text[p];
    var q: nat :| q in fresh_ + Eaten(g, lo, hi, s, Ch(c)) && Reaches(g, lo, hi, q, [], t);
    if q in fresh_ {
      var none := text[p + 1..p + 1];
      assert none == [] == none + none;
      ReachesConcat(g, lo, hi, lo, none, q, none, t);
      assert UnderwayFrom(g, lo, hi, text, start, p + 1, t, p + 1);
    } else {
      assert EatenAt(g, lo, hi, s, Ch(c), q - 1);
      var i: nat :| UnderwayFrom(g, lo, hi, text, start, p, q - 1, i);
      assert EatsOn(g, lo, hi, text[i..p], c, t, q - 1);
      ReachesSnoc(g, lo, hi, text[i..p], c, t);
      assert text[i..p + 1] == text[i..p] + [c];
      assert UnderwayFrom(g, lo, hi, text, start, p + 1, t, i);
    }
  }

  lemma {:induction false} NextUnderwayComplete(g: Guts, lo: nat, hi: nat, text: seq<Byte>, start: nat, p: nat,
      fresh_: set<nat>, s: set<nat>, t: nat)
    requires p < |text| && start <= p
    requires IsReach(g, lo, hi, [], fresh_) && IsUnderway(g, lo, hi, text, start, p, s)
    requires Underway(g, lo, hi, text, start, p + 1, t)
    ensures ReachedFrom(g, lo, hi, fresh_ + Eaten(g, lo, hi, s, Ch(text[p])), t)
  {
    hide Reaches, Eats;
    var c := text[p];
    var i: nat :| UnderwayFrom(g, lo, hi, text, start, p + 1, t, i);
    if i == p + 1 {
      assert text[i..p + 1] == [];
      ReachesSelf(g, lo, hi, t);
    } else {
      assert text[i..p + 1] == text[i..p] + [c];
      ReachesSnoc(g, lo, hi, text[i..p], c, t);
      var q: nat :| EatsOn(g, lo, hi, text[i..p], c, t, q);
      assert UnderwayFrom(g, lo, hi, text, start, p, q, i);
      assert EatenAt(g, lo, hi, s, Ch(c), q + 1 - 1);
      assert q + 1 in Eaten(g, lo, hi, s, Ch(c));
    }
  }

  /** The stop state is underway exactly when a match ends here. */
  lemma {:induction false} UnderwayMatch(g: Guts, lo: nat, hi: nat, text: seq<Byte>, start: nat, p: nat)
    ensures Underway(g, lo, hi, text, start, p, hi) <==> exists i: nat :: start <= i && MatchAt(g, lo, hi, text, i, p)
  {
    if i: nat :| UnderwayFrom(g, lo, hi, text, start, p, hi, i) { assert MatchAt(g, lo, hi, text, i, p); }
    if i: nat :| start <= i && MatchAt(g, lo, hi, text, i, p) { assert UnderwayFrom(g, lo, hi, text, start, p, hi, i); }
  }

  /** A word boundary lies between two characters; `None` stands for what is outside the text. */
  predicate WordEdge(isWord: Byte -> bool, lastc: Option<Byte>, c: Option<Byte>) {
    var before := lastc.Some? && isWord(lastc.value);
    var after := c.Some? && isWord(c.value);
    (!before && after) || (before && !after)
  }

  /** The longest match from `start` that ends at or before `stop`. */
  ghost predicate IsLongest(g: Guts, lo: nat, hi: nat, text: seq<Byte>, start: nat, stop: nat, e: Option<nat>) {
    match e
    case None => forall q: nat | start <= q <= stop :: !MatchAt(g, lo, hi, text, start, q)
    case Some(p) =>
      start <= p <= stop && MatchAt(g, lo, hi, text, start, p) &&
      forall q: nat | p < q <= stop :: !MatchAt(g, lo, hi, text, start, q)
  }

  /** One text under the large matcher, with its four state sets. */
  class Match {
    const g: Guts
    const text: seq<Byte>
    const isWord: Byte -> bool
    const st: array<bool>
    const fresh_: array<bool>
    const tmp: array<bool>
    const empty: array<bool>
    var coldp: Option<nat>

    ghost predicate Valid()
      reads this, empty
    {
      && st.Length == fresh_.Length == tmp.Length == empty.Length == |g.strip|
      && st != fresh_ && st != tmp && st != empty && fresh_ != tmp && fresh_ != empty && tmp != empty
      && StateSet(empty[..]) == {}
    }

    constructor (g: Guts, text: seq<Byte>, isWord: Byte -> bool)
      ensures Valid() && this.g == g && this.text == text && this.isWord == isWord
      ensures fresh(st) && fresh(fresh_) && fresh(tmp) && fresh(empty)
    {
      this.g, this.text, this.isWord := g, text, isWord;
      st := new bool[|g.strip|](_ => false);
      fresh_ := new bool[|g.strip|](_ => false);
      tmp := new bool[|g.strip|](_ => false);
      empty := new bool[|g.strip|](_ => false);
      coldp := None;
    }

    method Assign(dst: array<bool>, src: array<bool>)
      requires dst.Length == src.Length && dst != src
      modifies dst
      ensures dst[..] == src[..]
    {
      forall k | 0 <= k < src.Length { dst[k] := src[k]; }
    }

    /** The states reached before any character. */
    method Start(startst: nat, stopst: nat)
      requires Valid() && Framed(g, startst, stopst) && stopst < |g.strip|
      modifies st
      ensures LeastClosed(g, startst, stopst, {startst}, StateSet(st[..]))
    {
      forall k | 0 <= k < st.Length { st[k] := false; }
      st[startst] := true;
      assert StateSet(st[..]) == {startst};
      assert Eaten(g, startst, stopst, {startst}, NonChar) == {};
      assert {startst} + {} == {startst};
      Step(g, startst, stopst, st, NonChar, st);
    }

    /** A step on a word boundary; there is no operator that minds it. */
    method Idle(startst: nat, stopst: nat)
      requires Valid() && Framed(g, startst, stopst) && stopst < |g.strip|
      requires Closed(g, startst, stopst, StateSet(st[..]))
      modifies st
      ensures StateSet(st[..]) == StateSet(old(st[..]))
    {
      ghost var s := StateSet(st[..]);
      Step(g, startst, stopst, st, NonChar, st);
      StepIdle(g, startst, stopst, s, StateSet(st[..]));
    }

    /** Consumes a character of the only match that is underway. */
    method Advance(startst: nat, stopst: nat, c: Byte, ghost w: seq<Byte>)
      requires Valid() && Framed(g, startst, stopst) && stopst < |g.strip|
      requires IsReach(g, startst, stopst, w, StateSet(st[..]))
      modifies st, tmp
      ensures IsReach(g, startst, stopst, w + [c], StateSet(st[..])) && Closed(g, startst, stopst, StateSet(st[..]))
    {
      hide Reaches, Minimal, Closed;
      Assign(tmp, st);
      Assign(st, empty);
      ghost var eaten := Eaten(g, startst, stopst, StateSet(tmp[..]), Ch(c));
      assert {} + eaten == eaten;
      Step(g, startst, stopst, tmp, Ch(c), st);
      NextReach(g, startst, stopst, w, c, StateSet(tmp[..]), StateSet(st[..]));
      LeastIsClosed(g, startst, stopst, eaten, StateSet(st[..]));
    }

    /** Consumes a character of the matches that are underway, and starts a match behind it. */
    method AdvanceAll(startst: nat, stopst: nat, ghost start: nat, p: nat)
      requires Valid() && Framed(g, startst, stopst) && stopst < |g.strip| && start <= p < |text|
      requires IsReach(g, startst, stopst, [], StateSet(fresh_[..]))
      requires IsUnderway(g, startst, stopst, text, start, p, StateSet(st[..]))
      modifies st, tmp
      ensures IsUnderway(g, startst, stopst, text, start, p + 1, StateSet(st[..]))
      ensures Closed(g, startst, stopst, StateSet(st[..]))
    {
      hide Reaches, Minimal, Closed, Underway, IsReach, IsUnderway;
      Assign(tmp, st);
      Assign(st, fresh_);
      Step(g, startst, stopst, tmp, Ch(text[p]), st);
      ghost var from, to := StateSet(tmp[..]), StateSet(st[..]);
      NextUnderway(g, startst, stopst, text, start, p, StateSet(fresh_[..]), from, to);
      LeastIsClosed(g, startst, stopst, StateSet(fresh_[..]) + Eaten(g, startst, stopst, from, Ch(text[p])), to);
    }

    /** The end of the longest match from `start` that ends at or before `stop`. */
    method Slow(start: nat, stop: nat, startst: nat, stopst: nat) returns (matchp: Option<nat>)
      requires Valid() && Framed(g, startst, stopst) && stopst < |g.strip| && start <= stop <= |text|
      modifies st, tmp
      ensures Valid() && IsLongest(g, startst, stopst, text, start, stop, matchp)
    {
      hide Reaches, Minimal, Closed, Framed;
      var p := start;
      var c := if start == 0 then None else Some(text[start - 1]);
      Start(startst, stopst);
      FirstReach(g, startst, stopst, StateSet(st[..]));
      LeastIsClosed(g, startst, stopst, {startst}, StateSet(st[..]));
      assert text[start..start] == [];
      matchp := None;
      while true
        invariant start <= p <= stop && Valid()
        invariant Closed(g, startst, stopst, StateSet(st[..]))
        invariant IsReach(g, startst, stopst, text[start..p], StateSet(st[..]))
        invariant p == start ==> matchp == None
        invariant p > start ==> IsLongest(g, startst, stopst, text, start, p - 1, matchp)
        decreases stop - p
      {
        var lastc := c;
        c := if p == |text| then None else Some(text[p]);
        if WordEdge(isWord, lastc, c) { Idle(startst, stopst); }
        assert st[stopst] <==> stopst in StateSet(st[..]);
        assert st[stopst] <==> MatchAt(g, startst, stopst, text, start, p);
        if st[stopst] { matchp := Some(p); }
        if st[..] == empty[..] || p == stop {
          if p != stop { NoneAfter(g, startst, stopst, text, start, p, stop); }
          break;
        }
        Advance(startst, stopst, text[p], text[start..p]);
        assert text[start..p + 1] == text[start..p] + [text[p]];
        p := p + 1;
      }
    }

    /** Whether there is a match between `start` and `stop`; the result is one past where it ends. */
    method Fast(start: nat, stop: nat, startst: nat, stopst: nat) returns (endp: Option<nat>)
      requires Valid() && Framed(g, startst, stopst) && stopst < |g.strip| && start <= stop <= |text|
      modifies this`coldp, st, tmp, fresh_
      ensures Valid() && coldp.Some?
      ensures endp.Some? <==> MatchIn(g, startst, stopst, text, start, stop)
    {
      hide Reaches, Minimal, Closed, Framed, Underway;
      var p := start;
      var c := if start == 0 then None else Some(text[start - 1]);
      Start(startst, stopst);
      Assign(fresh_, st);
      FirstReach(g, startst, stopst, StateSet(st[..]));
      FirstUnderway(g, startst, stopst, text, start, StateSet(st[..]));
      LeastIsClosed(g, startst, stopst, {startst}, StateSet(st[..]));
      coldp := None;
      while true
        invariant start <= p <= stop && Valid()
        invariant p == start ==> st[..] == fresh_[..]
        invariant p > start ==> coldp.Some?
        invariant Closed(g, startst, stopst, StateSet(st[..]))
        invariant IsReach(g, startst, stopst, [], StateSet(fresh_[..]))
        invariant IsUnderway(g, startst, stopst, text, start, p, StateSet(st[..]))
        invariant forall i: nat, j: nat | start <= i && j < p :: !MatchAt(g, startst, stopst, text, i, j)
        decreases stop - p
      {
        var lastc := c;
        c := if p == |text| then None else Some(text[p]);
        if st[..] == fresh_[..] { coldp := Some(p); }
        if WordEdge(isWord, lastc, c) { Idle(startst, stopst); }
        assert st[stopst] <==> stopst in StateSet(st[..]);
        UnderwayMatch(g, startst, stopst, text, start, p);
        if st[stopst] || p == stop { break; }
        AdvanceAll(startst, stopst, start, p);
        p := p + 1;
      }
      return if st[stopst] then Some(p + 1) else None;
    }
  }

  /** Once no state is left, no later end matches. */
  lemma {:induction false} NoneAfter(g: Guts, lo: nat, hi: nat, text: seq<Byte>, start: nat, p: nat, stop: nat)
    requires start <= p <= stop <= |text| && IsReach(g, lo, hi, text[start..p], {})
    ensures forall q: nat | p <= q <= stop :: !MatchAt(g, lo, hi, text, start, q)
  {
    forall q: nat | p <= q <= stop ensures !MatchAt(g, lo, hi, text, start, q) {
      NothingReached(g, lo, hi, text[start..p], text[p..q], hi);
      assert text[start..q] == text[start..p] + text[p..q];
    }
  }
}
