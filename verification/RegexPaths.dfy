/** How the words accepted by a piece of strip follow from the words accepted by its parts. */
module RegexPaths {
  import opened Basics
  import opened RegexStrip

  lemma {:induction false} PathConcat(g: Guts, lo: nat, hi: nat, s: nat, u: seq<Byte>, m: nat, n1: nat, v: seq<Byte>,
      t: nat, n2: nat)
    requires Path(g, lo, hi, s, u, m, n1) && Path(g, lo, hi, m, v, t, n2)
    ensures Path(g, lo, hi, s, u + v, t, n1 + n2)
    decreases n1
  {
    if n1 == 0 {
      assert u + v == v;
    } else {
      var q, u' :| Move(g, s, u, q, u') && Path(g, lo, hi, q, u', m, n1 - 1);
      PathConcat(g, lo, hi, q, u', m, n1 - 1, v, t, n2);
      if Eps(g, s, q) && u' == u {
        assert Move(g, s, u + v, q, u' + v);
      } else {
        assert (u + v)[1..] == u[1..] + v;
        assert Move(g, s, u + v, q, u' + v);
      }
    }
  }

  /** A path stays a path when more states may be left. */
  lemma {:induction false} PathWiden(g: Guts, lo: nat, hi: nat, lo': nat, hi': nat, s: nat, w: seq<Byte>, t: nat,
      n: nat)
    requires Path(g, lo, hi, s, w, t, n) && lo' <= lo && hi <= hi'
    ensures Path(g, lo', hi', s, w, t, n)
    decreases n
  {
    if n > 0 {
      var q, v :| Move(g, s, w, q, v) && Path(g, lo, hi, q, v, t, n - 1);
      PathWiden(g, lo, hi, lo', hi', q, v, t, n - 1);
    }
  }

  /** A path that starts in a framed tail of the range never leaves the tail. */
  lemma {:induction false} PathNarrow(g: Guts, lo: nat, m: nat, hi: nat, s: nat, w: seq<Byte>, t: nat, n: nat)
    requires Path(g, lo, hi, s, w, t, n) && lo <= m <= s && Framed(g, m, hi)
    ensures Path(g, m, hi, s, w, t, n)
    decreases n
  {
    if n > 0 {
      var q, v :| Move(g, s, w, q, v) && Path(g, lo, hi, q, v, t, n - 1);
      FramedMove(g, m, hi, s, w, q, v);
      PathNarrow(g, lo, m, hi, q, v, t, n - 1);
    }
  }

  /** A path out of a framed piece passes through the end of that piece. */
  lemma {:induction false} PathSplit(g: Guts, lo: nat, i: nat, m: nat, hi: nat, s: nat, w: seq<Byte>, t: nat, n: nat)
    returns (k: nat, n1: nat)
    requires Path(g, lo, hi, s, w, t, n) && lo <= i <= s <= m <= hi && Framed(g, i, m)
    requires !(i <= t < m)
    ensures k <= |w| && n1 <= n
    ensures Path(g, i, m, s, w[..k], m, n1) && Path(g, lo, hi, m, w[k..], t, n - n1)
    decreases n
  {
    if s == m {
      k, n1 := 0, 0;
      assert w[k..] == w;
    } else {
      var q, v :| Move(g, s, w, q, v) && Path(g, lo, hi, q, v, t, n - 1);
      FramedMove(g, i, m, s, w, q, v);
      var k', n1' := PathSplit(g, lo, i, m, hi, q, v, t, n - 1);
      n1 := n1' + 1;
      k := MovePrefix(g, s, w, q, v, k');
      assert Path(g, i, m, s, w[..k], m, n1);
    }
  }

  /** A move still applies when the input is cut off behind what it leaves. */
  lemma {:induction false} MovePrefix(g: Guts, s: nat, w: seq<Byte>, q: nat, v: seq<Byte>, k: nat) returns (k': nat)
    requires Move(g, s, w, q, v) && k <= |v|
    ensures k' <= |w| && w[k'..] == v[k..] && Move(g, s, w[..k'], q, v[..k])
  {
    if Eps(g, s, q) && v == w {
      k' := k;
    } else {
      k' := k + 1;
      assert w[..k'][1..] == v[..k];
    }
  }

  lemma {:induction false} ReachesConcat(g: Guts, lo: nat, hi: nat, s: nat, u: seq<Byte>, m: nat, v: seq<Byte>, t: nat)
    requires Reaches(g, lo, hi, s, u, m) && Reaches(g, lo, hi, m, v, t)
    ensures Reaches(g, lo, hi, s, u + v, t)
  {
    var n1: nat :| Path(g, lo, hi, s, u, m, n1);
    var n2: nat :| Path(g, lo, hi, m, v, t, n2);
    PathConcat(g, lo, hi, s, u, m, n1, v, t, n2);
  }

  lemma {:induction false} ReachesWiden(g: Guts, lo: nat, hi: nat, lo': nat, hi': nat, s: nat, w: seq<Byte>, t: nat)
    requires Reaches(g, lo, hi, s, w, t) && lo' <= lo && hi <= hi'
    ensures Reaches(g, lo', hi', s, w, t)
  {
    var n: nat :| Path(g, lo, hi, s, w, t, n);
    PathWiden(g, lo, hi, lo', hi', s, w, t, n);
  }

  lemma {:induction false} ReachesStep(g: Guts, lo: nat, hi: nat, s: nat, w: seq<Byte>, q: nat, v: seq<Byte>, t: nat)
    requires lo <= s < hi && Move(g, s, w, q, v) && Reaches(g, lo, hi, q, v, t)
    ensures Reaches(g, lo, hi, s, w, t)
  {
    var n: nat :| Path(g, lo, hi, q, v, t, n);
    assert Path(g, lo, hi, s, w, t, n + 1);
  }

  lemma {:induction false} ReachesSelf(g: Guts, lo: nat, hi: nat, s: nat)
    ensures Reaches(g, lo, hi, s, [], s)
  {
    assert Path(g, lo, hi, s, [], s, 0);
  }

  /** No move leaves the end of the range. */
  lemma {:induction false} PathAtEnd(g: Guts, lo: nat, hi: nat, w: seq<Byte>, t: nat, n: nat)
    requires Path(g, lo, hi, hi, w, t, n)
    ensures n == 0 && w == [] && t == hi
  {
  }

  lemma {:induction false} AcceptsEmpty(g: Guts, i: nat, w: seq<Byte>)
    ensures Accepts(g, i, i, w) <==> w == []
  {
    if w == [] {
      ReachesSelf(g, i, i, i);
    }
  }

  /** Two framed pieces, one after the other. */
  lemma {:induction false} SeqAccepts(g: Guts, i: nat, m: nat, j: nat, w: seq<Byte>)
    requires Framed(g, i, m) && Framed(g, m, j)
    ensures Accepts(g, i, j, w) <==>
            exists k | 0 <= k <= |w| :: Accepts(g, i, m, w[..k]) && Accepts(g, m, j, w[k..])
  {
    if Accepts(g, i, j, w) {
      var n: nat :| Path(g, i, j, i, w, j, n);
      var k, n1 := PathSplit(g, i, i, m, j, i, w, j, n);
      PathNarrow(g, i, m, j, m, w[k..], j, n - n1);
      assert Accepts(g, i, m, w[..k]) && Accepts(g, m, j, w[k..]);
    }
    if k :| 0 <= k <= |w| && Accepts(g, i, m, w[..k]) && Accepts(g, m, j, w[k..]) {
      ReachesWiden(g, i, m, i, j, i, w[..k], m);
      ReachesWiden(g, m, j, i, j, m, w[k..], j);
      ReachesConcat(g, i, j, i, w[..k], m, w[k..], j);
      assert w[..k] + w[k..] == w;
    }
  }

  lemma {:induction false} SeqFramed(g: Guts, i: nat, m: nat, j: nat)
    requires Framed(g, i, m) && Framed(g, m, j)
    ensures Framed(g, i, j)
  {
    forall p | i <= p < j ensures FramedAt(g, i, j, p) {
      if p < m { assert FramedAt(g, i, m, p); } else { assert FramedAt(g, m, j, p); }
    }
  }

  /** A piece that accepts what its first operator accepts as a character. */
  lemma {:induction false} OneAccepts(g: Guts, i: nat, w: seq<Byte>)
    requires i < |g.strip| && forall q :: !Eps(g, i, q)
    ensures Accepts(g, i, i + 1, w) <==> |w| == 1 && Eats(g, i, w[0])
  {
    if Accepts(g, i, i + 1, w) {
      var n: nat :| Path(g, i, i + 1, i, w, i + 1, n);
      var q, v :| Move(g, i, w, q, v) && Path(g, i, i + 1, q, v, i + 1, n - 1);
      assert q == i + 1;
      PathAtEnd(g, i, i + 1, v, i + 1, n - 1);
    }
    if |w| == 1 && Eats(g, i, w[0]) {
      assert Move(g, i, w, i + 1, w[1..]);
      ReachesSelf(g, i, i + 1, i + 1);
      ReachesStep(g, i, i + 1, i, w, i + 1, w[1..], i + 1);
    }
  }

  /** The only move from `p` goes to `q` and needs no input. */
  ghost predicate OnlyTo(g: Guts, p: nat, q: nat) {
    Eps(g, p, q) && (forall r :: Eps(g, p, r) ==> r == q) && (forall c :: !Eats(g, p, c))
  }

  /** The only moves from `p` go to `q` and `r` and need no input. */
  ghost predicate Forks(g: Guts, p: nat, q: nat, r: nat) {
    Eps(g, p, q) && Eps(g, p, r) && (forall x :: Eps(g, p, x) ==> x == q || x == r) && (forall c :: !Eats(g, p, c))
  }

  /** Operators around a piece that only lead in and out. */
  lemma {:induction false} WrapAccepts(g: Guts, i: nat, j: nat, w: seq<Byte>)
    requires i + 1 < j && Framed(g, i + 1, j - 1)
    requires OnlyTo(g, i, i + 1) && OnlyTo(g, j - 1, j)
    ensures Accepts(g, i, j, w) <==> Accepts(g, i + 1, j - 1, w)
  {
    if Accepts(g, i, j, w) {
      var n: nat :| Path(g, i, j, i, w, j, n);
      var q, v :| Move(g, i, w, q, v) && Path(g, i, j, q, v, j, n - 1);
      var k, n1 := PathSplit(g, i, i + 1, j - 1, j, i + 1, w, j, n - 1);
      LeaveByLast(g, i, j, w[k..], n - 1 - n1);
      assert w[..k] == w;
    }
    if Accepts(g, i + 1, j - 1, w) {
      ReachesWiden(g, i + 1, j - 1, i, j, i + 1, w, j - 1);
      ThroughLast(g, i, j, i + 1, w);
      assert Move(g, i, w, i + 1, w);
      ReachesStep(g, i, j, i, w, i + 1, w, j);
    }
  }

  lemma {:induction false} LeaveByLast(g: Guts, i: nat, j: nat, w: seq<Byte>, n: nat)
    requires i < j && OnlyTo(g, j - 1, j)
    requires Path(g, i, j, j - 1, w, j, n)
    ensures w == []
  {
    var q, v :| Move(g, j - 1, w, q, v) && Path(g, i, j, q, v, j, n - 1);
    PathAtEnd(g, i, j, v, j, n - 1);
  }

  lemma {:induction false} ThroughLast(g: Guts, i: nat, j: nat, s: nat, w: seq<Byte>)
    requires i < j && OnlyTo(g, j - 1, j)
    requires Reaches(g, i, j, s, w, j - 1)
    ensures Reaches(g, i, j, s, w, j)
  {
    ReachesSelf(g, i, j, j);
    assert Move(g, j - 1, [], j, []);
    ReachesStep(g, i, j, j - 1, [], j, [], j);
    ReachesConcat(g, i, j, s, w, j - 1, [], j);
    assert w + [] == w;
  }

  /** A bypass: the piece or nothing. */
  lemma {:induction false} QuestAccepts(g: Guts, i: nat, j: nat, w: seq<Byte>)
    requires i + 1 < j && Framed(g, i + 1, j - 1)
    requires Forks(g, i, i + 1, j - 1) && OnlyTo(g, j - 1, j)
    ensures Accepts(g, i, j, w) <==> w == [] || Accepts(g, i + 1, j - 1, w)
  {
    if Accepts(g, i, j, w) {
      var n: nat :| Path(g, i, j, i, w, j, n);
      var q, v :| Move(g, i, w, q, v) && Path(g, i, j, q, v, j, n - 1);
      if q == j - 1 {
        LeaveByLast(g, i, j, w, n - 1);
      } else {
        var k, n1 := PathSplit(g, i, i + 1, j - 1, j, i + 1, w, j, n - 1);
        LeaveByLast(g, i, j, w[k..], n - 1 - n1);
        assert w[..k] == w;
      }
    }
    if w == [] {
      ReachesSelf(g, i, j, j - 1);
      ThroughLast(g, i, j, j - 1, []);
      assert Move(g, i, w, j - 1, w);
      ReachesStep(g, i, j, i, w, j - 1, w, j);
    }
    if Accepts(g, i + 1, j - 1, w) {
      ReachesWiden(g, i + 1, j - 1, i, j, i + 1, w, j - 1);
      ThroughLast(g, i, j, i + 1, w);
      assert Move(g, i, w, i + 1, w);
      ReachesStep(g, i, j, i, w, i + 1, w, j);
    }
  }

  /** A choice: the piece between `i` and `m`, or what is behind the branch mark at `m`. */
  lemma {:induction false} ChoiceAccepts(g: Guts, i: nat, m: nat, j: nat, w: seq<Byte>)
    requires i + 1 < m < j && Framed(g, i + 1, m - 1) && Framed(g, m, j)
    requires Forks(g, i, i + 1, m) && OnlyTo(g, m - 1, j - 1) && OnlyTo(g, j - 1, j)
    ensures Accepts(g, i, j, w) <==> Accepts(g, i + 1, m - 1, w) || Accepts(g, m, j, w)
  {
    if Accepts(g, i, j, w) {
      var n: nat :| Path(g, i, j, i, w, j, n);
      ChoiceSound(g, i, m, j, w, n);
    }
    if Accepts(g, i + 1, m - 1, w) {
      ReachesWiden(g, i + 1, m - 1, i, j, i + 1, w, m - 1);
      ThroughEndMark(g, i, m, j, w);
      assert Move(g, i, w, i + 1, w);
      ReachesStep(g, i, j, i, w, i + 1, w, j);
    }
    if Accepts(g, m, j, w) {
      ReachesWiden(g, m, j, i, j, m, w, j);
      assert Move(g, i, w, m, w);
      ReachesStep(g, i, j, i, w, m, w, j);
    }
  }

  lemma {:induction false} ChoiceSound(g: Guts, i: nat, m: nat, j: nat, w: seq<Byte>, n: nat)
    requires i + 1 < m < j && Framed(g, i + 1, m - 1) && Framed(g, m, j)
    requires Forks(g, i, i + 1, m) && OnlyTo(g, m - 1, j - 1) && OnlyTo(g, j - 1, j)
    requires Path(g, i, j, i, w, j, n)
    ensures Accepts(g, i + 1, m - 1, w) || Accepts(g, m, j, w)
  {
    var q, v :| Move(g, i, w, q, v) && Path(g, i, j, q, v, j, n - 1);
    if q == m {
      PathNarrow(g, i, m, j, m, w, j, n - 1);
    } else {
      var k, n1 := PathSplit(g, i, i + 1, m - 1, j, i + 1, w, j, n - 1);
      var n2: nat := n - 1 - n1;
      var q', v' :| Move(g, m - 1, w[k..], q', v') && Path(g, i, j, q', v', j, n2 - 1);
      LeaveByLast(g, i, j, v', n2 - 1);
      assert w[..k] == w;
    }
  }

  lemma {:induction false} ThroughEndMark(g: Guts, i: nat, m: nat, j: nat, w: seq<Byte>)
    requires i + 1 < m < j && OnlyTo(g, m - 1, j - 1) && OnlyTo(g, j - 1, j)
    requires Reaches(g, i, j, i + 1, w, m - 1)
    ensures Reaches(g, i, j, i + 1, w, j)
  {
    ReachesSelf(g, i, j, j - 1);
    assert Move(g, m - 1, [], j - 1, []);
    ReachesStep(g, i, j, m - 1, [], j - 1, [], j - 1);
    ReachesConcat(g, i, j, i + 1, w, m - 1, [], j - 1);
    assert w + [] == w;
    ThroughLast(g, i, j, i + 1, w);
  }

  /** `w` is `n` words the piece accepts, one after the other. */
  ghost predicate Iterates(g: Guts, i: nat, j: nat, n: nat, w: seq<Byte>) {
    if n == 0 then
      w == []
    else
      exists k | 0 <= k <= |w| :: Accepts(g, i, j, w[..k]) && Iterates(g, i, j, n - 1, w[k..])
  }

  ghost predicate IteratesSome(g: Guts, i: nat, j: nat, w: seq<Byte>) {
    exists n: nat :: 1 <= n && Iterates(g, i, j, n, w)
  }

  /** A loop, taken at least once. */
  lemma {:induction false} PlusAccepts(g: Guts, i: nat, j: nat, w: seq<Byte>)
    requires i + 1 < j && Framed(g, i + 1, j - 1)
    requires OnlyTo(g, i, i + 1) && Forks(g, j - 1, i, j)
    ensures Accepts(g, i, j, w) <==> IteratesSome(g, i + 1, j - 1, w)
  {
    if Accepts(g, i, j, w) {
      var n: nat :| Path(g, i, j, i, w, j, n);
      var k := PlusSound(g, i, j, w, n);
    }
    if IteratesSome(g, i + 1, j - 1, w) {
      var n: nat :| 1 <= n && Iterates(g, i + 1, j - 1, n, w);
      PlusComplete(g, i, j, w, n);
    }
  }

  lemma {:induction false} PlusSound(g: Guts, i: nat, j: nat, w: seq<Byte>, n: nat) returns (m: nat)
    requires i + 1 < j && Framed(g, i + 1, j - 1)
    requires OnlyTo(g, i, i + 1) && Forks(g, j - 1, i, j)
    requires Path(g, i, j, i, w, j, n)
    ensures 1 <= m && Iterates(g, i + 1, j - 1, m, w)
    decreases n
  {
    var q, v :| Move(g, i, w, q, v) && Path(g, i, j, q, v, j, n - 1);
    var k, n1 := PathSplit(g, i, i + 1, j - 1, j, i + 1, w, j, n - 1);
    var u := w[k..];
    var n2: nat := n - 1 - n1;
    var q', v' :| Move(g, j - 1, u, q', v') && Path(g, i, j, q', v', j, n2 - 1);
    assert Accepts(g, i + 1, j - 1, w[..k]);
    if q' == j {
      PathAtEnd(g, i, j, v', j, n2 - 1);
      assert Iterates(g, i + 1, j - 1, 0, u);
      m := 1;
    } else {
      var m' := PlusSound(g, i, j, u, n2 - 1);
      m := m' + 1;
    }
  }

  lemma {:induction false} PlusComplete(g: Guts, i: nat, j: nat, w: seq<Byte>, n: nat)
    requires i + 1 < j && Framed(g, i + 1, j - 1)
    requires OnlyTo(g, i, i + 1) && Forks(g, j - 1, i, j)
    requires 1 <= n && Iterates(g, i + 1, j - 1, n, w)
    ensures Accepts(g, i, j, w)
    decreases n
  {
    var k :| 0 <= k <= |w| && Accepts(g, i + 1, j - 1, w[..k]) && Iterates(g, i + 1, j - 1, n - 1, w[k..]);
    var u := w[k..];
    ReachesWiden(g, i + 1, j - 1, i, j, i + 1, w[..k], j - 1);
    if n == 1 {
      ReachesSelf(g, i, j, j);
      assert Move(g, j - 1, u, j, u);
      ReachesStep(g, i, j, j - 1, u, j, u, j);
    } else {
      PlusComplete(g, i, j, u, n - 1);
      assert Move(g, j - 1, u, i, u);
      ReachesStep(g, i, j, j - 1, u, i, u, j);
    }
    ReachesConcat(g, i, j, i + 1, w[..k], j - 1, u, j);
    assert w[..k] + u == w;
    assert Move(g, i, w, i + 1, w);
    ReachesStep(g, i, j, i, w, i + 1, w, j);
  }
}
