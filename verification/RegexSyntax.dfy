/** Extended regular expressions: the syntax tree, and the language each tree denotes (IEEE Std 1003.1-2017, XBD
    sections 9.4.1 to 9.4.8, without anchors and back references). */
module RegexSyntax {
  import opened Basics

  /** The upper end of a bound `{m,n}`; `Unbounded` is the INFINITY of `{m,}`. */
  datatype Bound = Finite(n: nat) | Unbounded

  predicate InOrder(n: nat, most: Bound) {
    match most
    case Finite(m) => n <= m
    case Unbounded => true
  }

  function Less(b: Bound): Bound
    requires b != Finite(0)
  {
    match b
    case Finite(m) => Finite(m - 1)
    case Unbounded => b
  }

  /** What may follow an atom. */
  datatype Post = Once | Star | Plus | Quest | Interval(least: nat, most: Bound)

  /** `Sub(k, [])` is the empty group `()`; `AnyOf(n)` is the bracket expression with set number `n`. */
  datatype Atom = Chr(c: Byte) | Any | AnyOf(set_: nat) | Sub(subno: nat, body: Ere)

  datatype Exp = Exp(atom: Atom, post: Post)

  /** A concatenation. */
  datatype Branch = Branch(exps: seq<Exp>)

  /** An alternation. */
  type Ere = seq<Branch>

  /** The character sets the bracket expressions were given numbers for. */
  type Sets = seq<set<Byte>>

  predicate Allowed(post: Post, n: nat) {
    match post
    case Once => n == 1
    case Star => true
    case Plus => 1 <= n
    case Quest => n <= 1
    case Interval(least, most) => least <= n && InOrder(n, most)
  }

  ghost predicate InAtom(a: Atom, sets: Sets, w: seq<Byte>)
    decreases a, 0
  {
    match a
    case Chr(c) => w == [c]
    case Any => |w| == 1
    case AnyOf(n) => |w| == 1 && n < |sets| && w[0] in sets[n]
    case Sub(_, body) => if body == [] then w == [] else InEre(body, sets, w)
  }

  /** `w` is `n` words of the atom's language, one after the other. */
  ghost predicate Repeats(a: Atom, sets: Sets, n: nat, w: seq<Byte>)
    decreases a, n + 1
  {
    if n == 0 then
      w == []
    else
      exists k | 0 <= k <= |w| :: InAtom(a, sets, w[..k]) && Repeats(a, sets, n - 1, w[k..])
  }

  ghost predicate InExp(e: Exp, sets: Sets, w: seq<Byte>)
    decreases e
  {
    exists n: nat :: Allowed(e.post, n) && Repeats(e.atom, sets, n, w)
  }

  ghost predicate InExps(es: seq<Exp>, sets: Sets, w: seq<Byte>)
    decreases es
  {
    if es == [] then
      w == []
    else
      exists k | 0 <= k <= |w| :: InExp(es[0], sets, w[..k]) && InExps(es[1..], sets, w[k..])
  }

  ghost predicate InEre(t: Ere, sets: Sets, w: seq<Byte>)
    decreases t
  {
    exists i | 0 <= i < |t| :: InExps(t[i].exps, sets, w)
  }
}
