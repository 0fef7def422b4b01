/** The order and the equality of values that both map structures rely on. */
module ValueOrder {
  import opened Basics

  /** A value that may be compared: nil, integers, bools (whatever integer they hold), strings and arrays of these. */
  datatype Key = KNil | KInt(n: int) | KBool(i: int) | KStr(z: seq<Byte>) | KArr(elems: seq<Key>)

  function Sign(n: int): int {
    if n < 0 then -1 else if n > 0 then 1 else 0
  }

  /** The number of the type. */
  function Type(a: Key): nat {
    match a
    case KNil => 0
    case KInt(_) => 1
    case KBool(_) => 2
    case KStr(_) => 4
    case KArr(_) => 6
  }

  /** Bytes one after the other; a prefix comes first. */
  function BytesOrder(x: seq<Byte>, y: seq<Byte>): int {
    if x == [] || y == [] then Sign(|x| - |y|)
    else if x[0] != y[0] then (if x[0] < y[0] then -1 else 1)
    else BytesOrder(x[1..], y[1..])
  }

  function Order(a: Key, b: Key): int
    decreases a, 1
  {
    if Type(a) != Type(b) then Sign(Type(a) - Type(b))
    else
      match a
      case KNil => 0
      case KInt(n) => Sign(n - b.n)
      case KBool(i) => Sign(i - b.i)
      case KStr(z) => BytesOrder(z, b.z)
      case KArr(elems) => AllOrder(elems, b.elems)
  }

  function AllOrder(x: seq<Key>, y: seq<Key>): int
    decreases x, 0
  {
    if x == [] || y == [] then Sign(|x| - |y|)
    else
      var c := Order(x[0], y[0]);
      if c != 0 then Sign(c) else AllOrder(x[1..], y[1..])
  }

  // ------------------------------------------------------------------
  // A total order, whose zero is equality
  // ------------------------------------------------------------------

  lemma {:induction false} HeadTail<T>(x: seq<T>, y: seq<T>)
    requires x != [] && y != [] && x[0] == y[0] && x[1..] == y[1..]
    ensures x == y
  {
    assert x == [x[0]] + x[1..] && y == [y[0]] + y[1..];
  }

  lemma {:induction false} BytesZero(x: seq<Byte>, y: seq<Byte>)
    ensures BytesOrder(x, y) == 0 <==> x == y
    ensures BytesOrder(y, x) == -BytesOrder(x, y)
    decreases |x|
  {
    if x != [] && y != [] && x[0] == y[0] {
      BytesZero(x[1..], y[1..]);
      if x[1..] == y[1..] { HeadTail(x, y); }
    }
  }

  lemma {:induction false} BytesTransitive(x: seq<Byte>, y: seq<Byte>, z: seq<Byte>)
    requires BytesOrder(x, y) < 0 && BytesOrder(y, z) < 0
    ensures BytesOrder(x, z) < 0
    decreases |x|
  {
    if x != [] && y != [] && z != [] && x[0] == y[0] && y[0] == z[0] {
      BytesTransitive(x[1..], y[1..], z[1..]);
    }
  }

  /** Values are equal exactly if neither comes first, and the order of two values turns round with them. */
  lemma {:induction false} OrderZero(a: Key, b: Key)
    ensures Order(a, b) == 0 <==> a == b
    ensures Order(b, a) == -Order(a, b)
    decreases a, 1
  {
    if Type(a) == Type(b) {
      match a {
        case KNil =>
        case KInt(_) =>
        case KBool(_) =>
        case KStr(z) => BytesZero(z, b.z);
        case KArr(elems) => AllZero(elems, b.elems);
      }
    }
  }

  lemma {:induction false} AllZero(x: seq<Key>, y: seq<Key>)
    ensures AllOrder(x, y) == 0 <==> x == y
    ensures AllOrder(y, x) == -AllOrder(x, y)
    decreases x, 0
  {
    if x != [] && y != [] {
      OrderZero(x[0], y[0]);
      if x[0] == y[0] {
        AllZero(x[1..], y[1..]);
        if x[1..] == y[1..] { HeadTail(x, y); }
      }
    }
  }

  lemma {:induction false} OrderTransitive(a: Key, b: Key, c: Key)
    requires Order(a, b) < 0 && Order(b, c) < 0
    ensures Order(a, c) < 0
    decreases a, 1
  {
    if Type(a) == Type(b) == Type(c) {
      match a {
        case KNil =>
        case KInt(_) =>
        case KBool(_) =>
        case KStr(z) => BytesTransitive(z, b.z, c.z);
        case KArr(elems) => AllTransitive(elems, b.elems, c.elems);
      }
    }
  }

  lemma {:induction false} AllTransitive(x: seq<Key>, y: seq<Key>, z: seq<Key>)
    requires AllOrder(x, y) < 0 && AllOrder(y, z) < 0
    ensures AllOrder(x, z) < 0
    decreases x, 0
  {
    if x != [] && y != [] && z != [] {
      OrderZero(x[0], y[0]);
      OrderZero(y[0], z[0]);
      OrderZero(x[0], z[0]);
      if x[0] == y[0] && y[0] == z[0] {
        AllTransitive(x[1..], y[1..], z[1..]);
      } else if x[0] != y[0] && y[0] != z[0] {
        OrderTransitive(x[0], y[0], z[0]);
      }
    }
  }

  ghost predicate Before(a: Key, b: Key) {
    Order(a, b) < 0
  }

  /** A strict total order: of two values exactly one comes first, unless they are equal. */
  lemma {:induction false} TotalOrder(a: Key, b: Key, c: Key)
    ensures !Before(a, a)
    ensures a != b ==> (Before(a, b) <==> !Before(b, a))
    ensures Before(a, b) && Before(b, c) ==> Before(a, c)
  {
    OrderZero(a, a);
    OrderZero(a, b);
    if Before(a, b) && Before(b, c) { OrderTransitive(a, b, c); }
  }

  // ------------------------------------------------------------------
  // Which of two values comes first
  // ------------------------------------------------------------------

  /** The first of two values of different types: nil, integers, bools, strings and arrays come in this order. */
  predicate TypeFirst(a: Key, b: Key) {
    (a.KNil? && !b.KNil?) || (a.KInt? && (b.KBool? || b.KStr? || b.KArr?)) || (a.KBool? && (b.KStr? || b.KArr?)) ||
    (a.KStr? && b.KArr?)
  }

  /** `x` and `y` are the same up to `i`, where `x` ends or has the smaller byte. */
  ghost predicate SmallerAt(x: seq<Byte>, y: seq<Byte>, i: nat) {
    i <= |x| && i < |y| && x[..i] == y[..i] && (i < |x| ==> x[i] < y[i])
  }

  ghost predicate Smaller(x: seq<Byte>, y: seq<Byte>) {
    exists i: nat :: SmallerAt(x, y, i)
  }

  /** `a` comes before `b`. */
  ghost predicate ComesFirst(a: Key, b: Key)
    decreases a, 1
  {
    TypeFirst(a, b) || (a.KInt? && b.KInt? && a.n < b.n) || (a.KBool? && b.KBool? && a.i < b.i) ||
    (a.KStr? && b.KStr? && Smaller(a.z, b.z)) || (a.KArr? && b.KArr? && AllFirst(a.elems, b.elems))
  }

  /** `x` and `y` are the same up to a place where `x` ends or the element of `x` comes before that of `y`. */
  ghost predicate AllFirst(x: seq<Key>, y: seq<Key>)
    decreases x, 0
  {
    exists i: nat :: i <= |x| && i < |y| && x[..i] == y[..i] && (i < |x| ==> ComesFirst(x[i], y[i]))
  }

  lemma {:induction false} SameStart<T>(x: seq<T>, y: seq<T>, i: nat)
    requires 0 < i <= |x| && i <= |y| && x[..i] == y[..i]
    ensures x[0] == y[0]
  {
    assert x[..i][0] == y[..i][0];
  }

  lemma {:induction false} BytesSmaller(x: seq<Byte>, y: seq<Byte>)
    ensures BytesOrder(x, y) < 0 <==> Smaller(x, y)
    decreases |x|
  {
    if x == [] || y == [] {
      if y != [] { assert SmallerAt(x, y, 0); }
    } else if x[0] != y[0] {
      if x[0] < y[0] { assert SmallerAt(x, y, 0); }
      if i: nat :| SmallerAt(x, y, i) { if i > 0 { SameStart(x, y, i); } }
    } else {
      BytesSmaller(x[1..], y[1..]);
      if i: nat :| SmallerAt(x[1..], y[1..], i) {
        assert x[..i + 1] == [x[0]] + x[1..][..i] && y[..i + 1] == [y[0]] + y[1..][..i];
        assert SmallerAt(x, y, i + 1);
      }
      if i: nat :| SmallerAt(x, y, i) {
        assert i > 0 && x[1..][..i - 1] == x[..i][1..] && y[1..][..i - 1] == y[..i][1..];
        assert SmallerAt(x[1..], y[1..], i - 1);
      }
    }
  }

  /** The order is negative exactly if the first value comes first, and positive exactly if the second does. */
  lemma {:induction false} OrderFirst(a: Key, b: Key)
    ensures Order(a, b) < 0 <==> ComesFirst(a, b)
    ensures Order(a, b) > 0 <==> ComesFirst(b, a)
  {
    OrderZero(a, b);
    NegativeFirst(a, b);
    NegativeFirst(b, a);
  }

  lemma {:induction false} NegativeFirst(a: Key, b: Key)
    ensures Order(a, b) < 0 <==> ComesFirst(a, b)
    decreases a, 1
  {
    hide BytesOrder, Smaller, AllOrder, AllFirst;
    if a.KStr? && b.KStr? { BytesSmaller(a.z, b.z); }
    if a.KArr? && b.KArr? { NegativeAll(a.elems, b.elems); }
  }

  lemma {:induction false} NegativeAll(x: seq<Key>, y: seq<Key>)
    ensures AllOrder(x, y) < 0 <==> AllFirst(x, y)
    decreases x, 0
  {
    hide Order, ComesFirst;
    if x != [] && y != [] {
      OrderZero(x[0], y[0]);
      NegativeFirst(x[0], y[0]);
      if x[0] == y[0] { NegativeAll(x[1..], y[1..]); }
    }
    AllFirstSteps(x, y);
  }

  lemma {:induction false} AllFirstSteps(x: seq<Key>, y: seq<Key>)
    ensures x == [] || y == [] ==> (AllFirst(x, y) <==> |x| < |y|)
    ensures x != [] && y != [] && x[0] != y[0] ==> (AllFirst(x, y) <==> ComesFirst(x[0], y[0]))
    ensures x != [] && y != [] && x[0] == y[0] ==> (AllFirst(x, y) <==> AllFirst(x[1..], y[1..]))
  {
    hide ComesFirst;
    if y != [] { assert x[..0] == y[..0]; }
    if x != [] && y != [] && x[0] != y[0] {
      if i: nat :| i <= |x| && i < |y| && x[..i] == y[..i] && (i < |x| ==> ComesFirst(x[i], y[i])) {
        if i > 0 { SameStart(x, y, i); }
      }
    }
    if x != [] && y != [] && x[0] == y[0] {
      AllFirstTail(x, y);
    }
  }

  lemma {:induction false} AllFirstTail(x: seq<Key>, y: seq<Key>)
    requires x != [] && y != [] && x[0] == y[0]
    ensures AllFirst(x, y) <==> AllFirst(x[1..], y[1..])
  {
    var u, v := x[1..], y[1..];
    hide ComesFirst;
    if i: nat :| i <= |u| && i < |v| && u[..i] == v[..i] && (i < |u| ==> ComesFirst(u[i], v[i])) {
      assert x[..i + 1] == [x[0]] + u[..i] && y[..i + 1] == [y[0]] + v[..i];
      assert i < |u| ==> u[i] == x[i + 1] && v[i] == y[i + 1];
    }
    if i: nat :| i <= |x| && i < |y| && x[..i] == y[..i] && (i < |x| ==> ComesFirst(x[i], y[i])) {
      NotFirstSelf(x[0]);
      assert i > 0 && u[..i - 1] == x[..i][1..] && v[..i - 1] == y[..i][1..];
      assert i < |x| ==> u[i - 1] == x[i] && v[i - 1] == y[i];
    }
  }

  lemma {:induction false} NotFirstSelf(a: Key)
    ensures !ComesFirst(a, a)
    decreases a
  {
    if a.KArr? {
      if i: nat :| i <= |a.elems| && i < |a.elems| && ComesFirst(a.elems[i], a.elems[i]) { NotFirstSelf(a.elems[i]); }
    }
  }

  // ------------------------------------------------------------------
  // The comparisons as they are computed
  // ------------------------------------------------------------------

  function SafeCompare(l: int, r: int): int {
    if l < r then -1 else if l > r then 1 else 0
  }

  lemma {:induction false} BytesFrom(x: seq<Byte>, y: seq<Byte>, i: nat)
    requires i <= |x| && i <= |y| && x[..i] == y[..i]
    ensures BytesOrder(x, y) == BytesOrder(x[i..], y[i..])
    decreases i
  {
    if i == 0 {
      assert x[0..] == x && y[0..] == y;
    } else {
      assert x[0] == x[..i][0] == y[..i][0] == y[0];
      assert x[1..][..i - 1] == x[..i][1..] && y[1..][..i - 1] == y[..i][1..];
      BytesFrom(x[1..], y[1..], i - 1);
      assert x[1..][i - 1..] == x[i..] && y[1..][i - 1..] == y[i..];
    }
  }

  method KzCompare(z1: seq<Byte>, z2: seq<Byte>) returns (r: int)
    ensures r == BytesOrder(z1, z2)
    ensures (r < 0 <==> Smaller(z1, z2)) && (r > 0 <==> Smaller(z2, z1))
  {
    BytesZero(z1, z2);
    BytesSmaller(z1, z2);
    BytesSmaller(z2, z1);
    hide Smaller;
    var n := if |z1| <= |z2| then |z1| else |z2|;
    for i := 0 to n
      invariant z1[..i] == z2[..i]
    {
      BytesFrom(z1, z2, i);
      if z1[i] < z2[i] {
        return -1;
      } else if z1[i] > z2[i] {
        return 1;
      }
    }
    BytesFrom(z1, z2, n);
    return if |z1| < |z2| then -1 else if |z1| > |z2| then 1 else 0;
  }

  lemma {:induction false} AllFrom(x: seq<Key>, y: seq<Key>, i: nat)
    requires i <= |x| && i <= |y| && x[..i] == y[..i]
    ensures AllOrder(x, y) == AllOrder(x[i..], y[i..])
    decreases i
  {
    if i == 0 {
      assert x[0..] == x && y[0..] == y;
    } else {
      assert x[0] == x[..i][0] == y[..i][0] == y[0];
      OrderZero(x[0], y[0]);
      assert x[1..][..i - 1] == x[..i][1..] && y[1..][..i - 1] == y[..i][1..];
      AllFrom(x[1..], y[1..], i - 1);
      assert x[1..][i - 1..] == x[i..] && y[1..][i - 1..] == y[i..];
    }
  }

  /** Negative if the first value comes first, positive if the second does, and zero if they are equal. */
  method Compare(a: Key, b: Key) returns (r: int)
    ensures r == Order(a, b)
    ensures (r < 0 <==> ComesFirst(a, b)) && (r > 0 <==> ComesFirst(b, a)) && (r == 0 <==> a == b)
    decreases a, 1
  {
    OrderFirst(a, b);
    OrderZero(a, b);
    hide ComesFirst, Smaller;
    if Type(a) != Type(b) { return SafeCompare(Type(a), Type(b)); }
    match a {
      case KNil => return 0;
      case KInt(n) => return SafeCompare(n, b.n);
      case KBool(i) => return SafeCompare(i, b.i);
      case KStr(z) => r := KzCompare(z, b.z);
      case KArr(elems) => r := DyayCompare(elems, b.elems);
    }
  }

  method DyayCompare(x: seq<Key>, y: seq<Key>) returns (r: int)
    ensures r == AllOrder(x, y)
    ensures (r < 0 <==> AllFirst(x, y)) && (r > 0 <==> AllFirst(y, x))
    decreases x, 0
  {
    AllZero(x, y);
    NegativeAll(x, y);
    NegativeAll(y, x);
    hide ComesFirst, AllFirst;
    var k := if |x| < |y| then |x| else |y|;
    for i := 0 to k
      invariant x[..i] == y[..i]
    {
      AllFrom(x, y, i);
      OrderZero(x[i], y[i]);
      var c := Compare(x[i], y[i]);
      if c < 0 {
        return -1;
      } else if c > 0 {
        return 1;
      }
    }
    AllFrom(x, y, k);
    return if |x| < |y| then -1 else if |x| > |y| then 1 else 0;
  }

  method Equals(a: Key, b: Key) returns (r: bool)
    ensures r <==> a == b
    decreases a, 1
  {
    if Type(a) != Type(b) { return false; }
    match a {
      case KNil => return true;
      case KInt(n) => return n == b.n;
      case KBool(i) => return i == b.i;
      case KStr(z) => return |z| == |b.z| && z == b.z;
      case KArr(elems) => r := DyayEquals(elems, b.elems);
    }
  }

  /** Elements are compared from the last. */
  method DyayEquals(x: seq<Key>, y: seq<Key>) returns (r: bool)
    ensures r <==> x == y
    decreases x, 0
  {
    if |x| != |y| { return false; }
    var i := |x|;
    while i > 0
      invariant 0 <= i <= |x| && x[i..] == y[i..]
    {
      i := i - 1;
      assert x[i..] == [x[i]] + x[i + 1..] && y[i..] == [y[i]] + y[i + 1..];
      var same := Equals(x[i], y[i]);
      if !same { return false; }
    }
    assert x[0..] == x && y[0..] == y;
    return true;
  }
}
