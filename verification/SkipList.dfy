/** The skip list, with its nodes linked in place. */
module SkipList {
  import opened Basics
  import opened ValueOrder
  import opened SkipOrder

  const MAX_LEVEL: nat := 16

  /** A node; its height is the number of its links. */
  class Sknd<V> {
    var k: Key
    var v: Option<V>
    var fwd: seq<Sknd?<V>>

    constructor (lv: nat)
      ensures |fwd| == lv && v == None && forall i | 0 <= i < lv :: fwd[i] == null
    {
      k, v, fwd := KNil, None, seq(lv, _ => null);
    }
  }

  ghost function NodeAt<V>(all: seq<Sknd<V>>, q: nat): Sknd?<V> {
    if q < |all| then all[q] else null
  }

  /** The links of node `j` lead to the next higher nodes. */
  ghost predicate LinksOk<V>(all: seq<Sknd<V>>, hs: seq<nat>, j: nat)
    requires j < |all| == |hs|
    reads all`fwd
  {
    |all[j].fwd| == hs[j] && forall i | 0 <= i < hs[j] :: all[j].fwd[i] == NodeAt(all, NextAbove(hs, j, i))
  }

  ghost predicate Different<V>(all: seq<Sknd<V>>) {
    forall a, b | 0 <= a < b < |all| :: all[a] != all[b]
  }

  /** The level of a new node. */
  method RandLv() returns (lvl: nat)
    ensures 1 <= lvl <= MAX_LEVEL
  {
    lvl :| 1 <= lvl <= MAX_LEVEL;
  }

  /** On each level of `us`, where a node of the list is noted, the place `p` lies between that node and the next. */
  ghost predicate Around(hs: seq<nat>, us: seq<nat>, lv: nat, p: nat) {
    lv <= |us| && p <= |hs| &&
    forall i | 0 <= i < lv :: us[i] < p && us[i] < |hs| && hs[us[i]] > i && p <= NextAbove(hs, us[i], i)
  }

  class Skls<V> {
    const head: Sknd<V>
    var count: nat
    var lv: nat
    /** The head and the nodes, their heights, keys and values. */
    ghost var all: seq<Sknd<V>>
    ghost var hs: seq<nat>
    ghost var ks: seq<Key>
    ghost var vs: seq<Option<V>>

    /** Heights are at most the level of the list, and each link skips exactly the lower nodes. */
    ghost predicate Links()
      reads this, all`fwd
    {
      all != [] && all[0] == head && |hs| == |all| && hs[0] == MAX_LEVEL && lv <= MAX_LEVEL && count == |all| - 1 &&
      Different(all) && (forall j | 0 < j < |all| :: 1 <= hs[j] <= lv) &&
        (forall j | 0 <= j < |all| :: LinksOk(all, hs, j))
    }

    /** Level 0 holds the keys in order; the key of node `but` may still have to be written. */
    ghost predicate KeysBut(but: nat)
      reads this, all`k, all`v
    {
      |ks| == |vs| == |all| - 1 && Sorted(ks) && (forall j | 0 < j < |all| :: all[j].v == vs[j - 1]) &&
      forall j | 0 < j < |all| && j != but :: all[j].k == ks[j - 1]
    }

    ghost predicate Valid()
      reads this, all
    {
      Links() && KeysBut(0)
    }

    ghost function Contents(): map<Key, Option<V>>
      requires |ks| == |vs|
      reads this
    {
      MapOf(ks, vs)
    }

    constructor ()
      ensures Valid() && Contents() == map[] && fresh(all)
    {
      var h := new Sknd(MAX_LEVEL);
      head := h;
      count, lv, all, hs, ks, vs := 0, 0, [h], [MAX_LEVEL], [], [];
    }

    /** The step along a level: from node `j` to the next on level `i`. */
    ghost predicate On(x: Sknd<V>, j: nat, i: int, key: Key)
      reads this, all
    {
      j < |all| && x == all[j] && |hs| == |all| == |ks| + 1 && (i >= 0 ==> hs[j] > i) &&
        (j > 0 ==> Before(ks[j - 1], key))
    }

    /** No node on level `i` between `j` and the place of the key. */
    ghost predicate Past(j: nat, i: nat, key: Key)
      reads this
    {
      j < |hs| == |ks| + 1 && (NextAbove(hs, j, i) < |hs| ==> !Before(ks[NextAbove(hs, j, i) - 1], key))
    }

    /** Goes along level `i` as long as the keys come before `key`. */
    method Along(x0: Sknd<V>, i: nat, key: Key, ghost j0: nat) returns (x: Sknd<V>, ghost j: nat)
      requires Valid() && On(x0, j0, i, key)
      ensures On(x, j, i, key) && Past(j, i, key) && j >= j0
    {
      hide Order, Sorted;
      x, j := x0, j0;
      while true
        invariant On(x, j, i, key) && j >= j0
        decreases |all| - j
      {
        hide Order, Sorted;
        assert LinksOk(all, hs, j);
        var y := x.fwd[i];
        if y == null { return; }
        ghost var q := NextAbove(hs, j, i);
        assert y == all[q] && y.k == ks[q - 1];
        var c := Compare(y.k, key);
        if c >= 0 { return; }
        x, j := y, q;
      }
    }

    /** Where level 0 ends before `key`. */
    lemma {:induction false} AtPlace(x: Sknd<V>, j: nat, key: Key)
      requires Valid() && On(x, j, -1, key) && (lv > 0 ==> Past(j, 0, key))
      ensures IsPlace(ks, key, j) && 0 < |x.fwd| && x.fwd[0] == NodeAt(all, j + 1)
      ensures j + 1 < |all| ==> all[j + 1].k == ks[j]
      ensures key in ks <==> j < |ks| && ks[j] == key
    {
      assert LinksOk(all, hs, j);
      if j + 1 < |all| { assert hs[j + 1] >= 1; }
      NextIs(hs, j, 0, j + 1);
      PlaceFound(ks, key, j);
      NotThere(ks, key, j);
    }

    /** The value of a key, or nil. */
    method SkFind(key: Key) returns (v: Option<V>)
      requires Valid()
      ensures v == if key in Contents() then Contents()[key] else None
    {
      hide Order, MapOf;
      SortedDiffer(ks);
      MapOfKeys(ks, vs);
      hide Sorted, Differ;
      var x := head;
      ghost var j := 0;
      var i := lv;
      while i > 0
        invariant 0 <= i <= lv && On(x, j, if i > 0 then i - 1 else -1, key) && (i < lv ==> Past(j, i, key))
      {
        i := i - 1;
        x, j := Along(x, i, key, j);
      }
      AtPlace(x, j, key);
      var y := x.fwd[0];
      if y == null { return None; }
      var same := Equals(y.k, key);
      return if same then y.v else None;
    }

    /** Goes down to the place of the key, and notes the last node on each level. */
    method Descend(key: Key) returns (x: Sknd<V>, update: seq<Sknd?<V>>, ghost us: seq<nat>, ghost j: nat)
      requires Valid()
      ensures On(x, j, -1, key) && (lv > 0 ==> Past(j, 0, key)) && |update| == |us| == MAX_LEVEL
      ensures forall l | 0 <= l < lv :: Noted(us[l], l, j, key) && update[l] == all[us[l]]
      ensures forall l | lv <= l < MAX_LEVEL :: us[l] == 0
    {
      hide Order, Sorted;
      update := seq(MAX_LEVEL, _ => null);
      x, j := head, 0;
      us := seq(MAX_LEVEL, _ => 0);
      var i := lv;
      while i > 0
        invariant 0 <= i <= lv && On(x, j, if i > 0 then i - 1 else -1, key) && (i < lv ==> Past(j, i, key))
        invariant |update| == |us| == MAX_LEVEL
        invariant forall l | i <= l < lv :: Noted(us[l], l, j, key) && update[l] == all[us[l]]
        invariant forall l | lv <= l < MAX_LEVEL :: us[l] == 0
      {
        i := i - 1;
        x, j := Along(x, i, key, j);
        update, us := update[i := x], us[i := j];
      }
    }

    /** A node noted on level `l`: the last before the key there. */
    ghost predicate Noted(u: nat, l: nat, j: nat, key: Key)
      reads this
    {
      u <= j && u < |hs| == |all| && hs[u] > l && Past(u, l, key)
    }

    /** The node of a key, or null and the nodes before its place. */
    method Locate(key: Key) returns (y: Sknd?<V>, update: seq<Sknd?<V>>, ghost us: seq<nat>, ghost j: nat)
      requires Valid()
      ensures j < |all| && IsPlace(ks, key, j) && |update| == |us| == MAX_LEVEL
      ensures if y != null then j + 1 < |all| && y == all[j + 1] && ks[j] == key else key !in ks
      ensures Around(hs, us, MAX_LEVEL, j + 1)
      ensures forall l | 0 <= l < lv :: us[l] < |all| && update[l] == all[us[l]]
      ensures forall l | lv <= l < MAX_LEVEL :: us[l] == 0
    {
      hide Order, MapOf, Sorted, Differ, IsPlace, Around, Past, LinksOk, Different, Inserted, NextAbove;
      var x;
      x, update, us, j := Descend(key);
      AtPlace(x, j, key);
      NoneBetween(us, j, key);
      y := x.fwd[0];
      if y != null {
        var same := Equals(y.k, key);
        if !same { y := null; }
      }
    }

    /** The node of a key, or a new one; the key is still to be written into it. */
    method SkIndex(key: Key) returns (x: Sknd<V>, ghost p: nat)
      requires Valid()
      modifies this, all
      ensures Links() && KeysBut(p) && 0 < p < |all| && x == all[p] && ks[p - 1] == key
      ensures forall n | n in all :: n in old(all) || fresh(n)
      ensures if key in old(Contents()) then Contents() == old(Contents())
              else Contents() == old(Contents())[key := None]
    {
      hide Order, MapOf, Sorted, Differ, IsPlace, Around, LinksOk, Different, Inserted, NextAbove;
      SortedDiffer(ks);
      MapOfKeys(ks, vs);
      ghost var us, j;
      var y, update;
      y, update, us, j := Locate(key);
      p := j + 1;
      if y != null { return y, p; }
      x := Append(update, us, key, p);
    }

    /** The nodes noted on the way lie around the place of the key. */
    lemma {:induction false} NoneBetween(us: seq<nat>, j: nat, key: Key)
      requires Valid() && IsPlace(ks, key, j) && |us| == MAX_LEVEL
      requires forall l | 0 <= l < lv :: Noted(us[l], l, j, key)
      requires forall l | lv <= l < MAX_LEVEL :: us[l] == 0
      ensures Around(hs, us, MAX_LEVEL, j + 1)
    {
      hide Order;
      forall l | 0 <= l < MAX_LEVEL ensures us[l] < |hs| && j + 1 <= NextAbove(hs, us[l], l) && hs[us[l]] > l {
        if l >= lv { NextIs(hs, 0, l, |hs|); } else { assert Noted(us[l], l, j, key); }
      }
    }

    /** The head is before the new node on the levels that are new. */
    method Raise(update0: seq<Sknd?<V>>, ghost us: seq<nat>, lvl: nat) returns (update: seq<Sknd?<V>>)
      requires 1 <= lvl <= MAX_LEVEL && lv <= MAX_LEVEL && all != [] && all[0] == head
      requires |update0| == |us| == MAX_LEVEL && forall l | 0 <= l < MAX_LEVEL :: us[l] < |all|
      requires forall l | 0 <= l < lv :: update0[l] == all[us[l]]
      requires forall l | lv <= l < MAX_LEVEL :: us[l] == 0
      modifies this`lv
      ensures lv == (if lvl > old(lv) then lvl else old(lv)) && |update| == MAX_LEVEL
      ensures forall l | 0 <= l < lvl :: update[l] == all[us[l]]
    {
      update := update0;
      if lvl > lv {
        var i := lv;
        while i < lvl
          invariant lv <= i <= lvl && |update| == MAX_LEVEL
          invariant forall l | 0 <= l < i :: update[l] == all[us[l]]
        {
          update := update[i := head];
          i := i + 1;
        }
        lv := lvl;
      }
    }

    /** A new node of a random height at the place `p` of the key. */
    method Append(update0: seq<Sknd?<V>>, ghost us: seq<nat>, ghost key: Key, ghost p: nat) returns (x: Sknd<V>)
      requires Valid() && 0 < p <= |all| && IsPlace(ks, key, p - 1) && key !in ks
      requires |update0| == |us| == MAX_LEVEL && Around(hs, us, MAX_LEVEL, p)
      requires forall l | 0 <= l < lv :: update0[l] == all[us[l]]
      requires forall l | lv <= l < MAX_LEVEL :: us[l] == 0
      modifies this, all
      ensures Links() && KeysBut(p) && p < |all| && x == all[p] && ks[p - 1] == key
      ensures (forall n | n in all :: n in old(all) || fresh(n)) && Contents() == old(Contents())[key := None]
    {
      hide Order, MapOf, NextAbove, Sorted, IsPlace, Inserted, Around, Different;
      InsertedPair(ks, vs, p - 1, key, None);
      ghost var all0, hs0, lv0, ks0, vs0, lvl := all, hs, lv, ks, vs, 0;
      x, lvl := NewNode(update0, us, p);
      hide LinksOk;
      all, hs := Inserted(all, p, x), Inserted(hs, p, lvl);
      forall n | n in all ensures n in all0 || n == x { InInserted(all0, p, x, n); }
      GrownLinks(all0, hs0, lv0, p, x, lvl);
      ks, vs := Inserted(ks, p - 1, key), Inserted(vs, p - 1, None);
      GrownKeys(all0, ks0, vs0, p, x, key);
    }

    /** Makes a node and links it in. */
    method NewNode(update0: seq<Sknd?<V>>, ghost us: seq<nat>, ghost p: nat) returns (x: Sknd<V>, ghost height: nat)
      requires Links() && 0 < p <= |all| && |update0| == |us| == MAX_LEVEL && Around(hs, us, MAX_LEVEL, p)
      requires forall l | 0 <= l < lv :: update0[l] == all[us[l]]
      requires forall l | lv <= l < MAX_LEVEL :: us[l] == 0
      modifies this`lv, this`count, all`fwd
      ensures fresh(x) && x.v == None && 1 <= height <= MAX_LEVEL
      ensures lv == (if height > old(lv) then height else old(lv)) && count == old(count) + 1
      ensures |Inserted(all, p, x)| == |Inserted(hs, p, height)|
      ensures forall j | 0 <= j < |Inserted(all, p, x)| :: LinksOk(Inserted(all, p, x), Inserted(hs, p, height), j)
    {
      hide NextAbove, Inserted;
      var lvl := RandLv();
      height := lvl;
      assert HalfLinked0(all, hs);
      var update := Raise(update0, us, lvl);
      x := new Sknd(lvl);
      count := count + 1;
      HalfLinkedAny(all, hs, us, x);
      LinkIn(x, lvl, update, all, hs, us, p);
      Relinked(all, hs, us, p, x, lvl);
    }

    lemma {:induction false} GrownLinks(all0: seq<Sknd<V>>, hs0: seq<nat>, lv0: nat, p: nat, x: Sknd<V>, lvl: nat)
      requires all0 != [] && all0[0] == head && |hs0| == |all0| && hs0[0] == MAX_LEVEL && Different(all0) && x !in all0
      requires 0 < p <= |all0| && 1 <= lvl <= MAX_LEVEL && forall j | 0 < j < |all0| :: 1 <= hs0[j] <= lv0 <= MAX_LEVEL
      requires lv == (if lvl > lv0 then lvl else lv0) && lv0 <= MAX_LEVEL && count == |all0|
      requires all == Inserted(all0, p, x) && hs == Inserted(hs0, p, lvl)
      requires |all| == |hs| && forall j | 0 <= j < |all| :: LinksOk(all, hs, j)
      ensures Links()
    {
      hide LinksOk;
      forall a, b | 0 <= a < b < |all| ensures all[a] != all[b] {
        if a == p {
          assert all[b] == all0[b - 1];
        } else if b == p {
          assert all[a] == all0[a];
        } else {
          assert all[a] == all0[if a < p then a else a - 1] && all[b] == all0[if b < p then b else b - 1];
        }
      }
      forall j | 0 < j < |all| ensures 1 <= hs[j] <= lv {
        if j != p { assert hs[j] == hs0[if j < p then j else j - 1]; }
      }
    }

    lemma {:induction false} GrownKeys(all0: seq<Sknd<V>>, ks0: seq<Key>, vs0: seq<Option<V>>, p: nat, x: Sknd<V>,
        key: Key)
      requires |ks0| == |vs0| == |all0| - 1 && 0 < p <= |all0| && x.v == None
      requires forall j | 0 < j < |all0| :: all0[j].v == vs0[j - 1] && all0[j].k == ks0[j - 1]
      requires all == Inserted(all0, p, x) && ks == Inserted(ks0, p - 1, key) && vs == Inserted(vs0, p - 1, None)
      requires Sorted(ks)
      ensures KeysBut(p) && |all| == |all0| + 1 && all[p] == x && ks[p - 1] == key
    {
      hide Sorted;
      forall j | 0 < j < |all| ensures all[j].v == vs[j - 1] && (j != p ==> all[j].k == ks[j - 1]) {
        if j != p {
          var i := if j < p then j else j - 1;
          assert all[j] == all0[i] && vs[j - 1] == vs0[i - 1] && ks[j - 1] == ks0[i - 1];
        }
      }
    }

    /** The node of a key, whose value may then be written; a new key has nil. */
    method Put(key: Key) returns (x: Sknd<V>, ghost p: nat)
      requires Valid()
      modifies this, all
      ensures Valid() && 0 < p < |all| && x == all[p] && ks[p - 1] == key
      ensures forall n | n in all :: n in old(all) || fresh(n)
      ensures if key in old(Contents()) then Contents() == old(Contents())
              else Contents() == old(Contents())[key := None]
    {
      hide Order, MapOf;
      x, p := SkIndex(key);
      assert x in all;
      x.k := key;
    }

    /** The value is stored through the node that `Put` gives. */
    method Store(key: Key, v: Option<V>)
      requires Valid()
      modifies this, all
      ensures Valid() && Contents() == old(Contents())[key := v]
    {
      hide Order, MapOf;
      ghost var p;
      var x;
      x, p := Put(key);
      SortedDiffer(ks);
      MapWritten(ks, vs, p - 1, v);
      hide Sorted;
      assert x in all;
      x.v := v;
      vs := vs[p - 1 := v];
    }
  }

  ghost predicate HalfLinked0<V>(all: seq<Sknd<V>>, hs: seq<nat>)
    reads all`fwd
  {
    |all| == |hs| && forall j | 0 <= j < |all| :: LinksOk(all, hs, j)
  }

  lemma {:induction false} HalfLinkedAny<V>(all: seq<Sknd<V>>, hs: seq<nat>, us: seq<nat>, x: Sknd<V>)
    requires HalfLinked0(all, hs)
    ensures HalfLinked(all, hs, us, x, 0)
  {
    forall j | 0 <= j < |all| ensures HalfLinks(all, hs, us, x, 0, j) { assert LinksOk(all, hs, j); }
  }

  lemma {:induction false} InsertedPair<V>(ks: seq<Key>, vs: seq<V>, p: nat, key: Key, v: V)
    requires |ks| == |vs| && Sorted(ks) && IsPlace(ks, key, p) && key !in ks
    ensures Sorted(Inserted(ks, p, key)) && MapOf(Inserted(ks, p, key), Inserted(vs, p, v)) == MapOf(ks, vs)[key := v]
  {
    SortedInserted(ks, key, p);
    SortedDiffer(ks);
    SortedDiffer(Inserted(ks, p, key));
    MapInserted(ks, vs, p, key, v);
  }

  /** The links while `x` is linked in below level `i`. */
  ghost predicate HalfLinked<V>(all: seq<Sknd<V>>, hs: seq<nat>, us: seq<nat>, x: Sknd<V>, i: nat)
    requires |hs| == |all| && i <= |us|
    reads all`fwd
  {
    forall j | 0 <= j < |all| :: HalfLinks(all, hs, us, x, i, j)
  }

  ghost predicate HalfLinks<V>(all: seq<Sknd<V>>, hs: seq<nat>, us: seq<nat>, x: Sknd<V>, i: nat, j: nat)
    requires j < |hs| == |all| && i <= |us|
    reads all`fwd
  {
    |all[j].fwd| == hs[j] &&
    forall l | 0 <= l < hs[j] ::
      all[j].fwd[l] == if l < i && us[l] == j then x else NodeAt(all, NextAbove(hs, j, l))
  }

  /** Links `x` in after the nodes noted, level by level. */
  method LinkIn<V>(x: Sknd<V>, lvl: nat, update: seq<Sknd?<V>>, ghost all: seq<Sknd<V>>, ghost hs: seq<nat>,
      ghost us: seq<nat>, ghost p: nat)
    requires |hs| == |all| && Different(all) && x !in all && |x.fwd| == lvl <= |us| == |update| == MAX_LEVEL
    requires HalfLinked(all, hs, us, x, 0) && Around(hs, us, MAX_LEVEL, p)
    requires forall l | 0 <= l < lvl :: update[l] == all[us[l]]
    modifies x`fwd, all`fwd
    ensures HalfLinked(all, hs, us, x, lvl) && |x.fwd| == lvl
    ensures forall l | 0 <= l < lvl :: x.fwd[l] == NodeAt(all, NextAbove(hs, us[l], l))
  {
    var i := 0;
    while i < lvl
      invariant 0 <= i <= lvl && |x.fwd| == lvl && HalfLinked(all, hs, us, x, i)
      invariant forall l | 0 <= l < i :: x.fwd[l] == NodeAt(all, NextAbove(hs, us[l], l))
    {
      LinkOne(x, update[i], i, all, hs, us);
      i := i + 1;
    }
  }

  /** Links `x` in between `y` and what follows it on level `i`. */
  method LinkOne<V>(x: Sknd<V>, y: Sknd<V>, i: nat, ghost all: seq<Sknd<V>>, ghost hs: seq<nat>, ghost us: seq<nat>)
    requires |hs| == |all| && Different(all) && x !in all && i < |x.fwd| && i < |us|
    requires HalfLinked(all, hs, us, x, i) && us[i] < |all| && y == all[us[i]] && hs[us[i]] > i
    modifies x`fwd, y`fwd
    ensures HalfLinked(all, hs, us, x, i + 1)
    ensures x.fwd == old(x.fwd)[i := NodeAt(all, NextAbove(hs, us[i], i))]
  {
    ghost var u, i1 := us[i], i + 1;
    assert HalfLinks(all, hs, us, x, i, u);
    forall j | 0 <= j < |all| && j != u ensures HalfLinks(all, hs, us, x, i1, j) {
      assert HalfLinks(all, hs, us, x, i, j);
    }
    x.fwd := x.fwd[i := y.fwd[i]];
    y.fwd := y.fwd[i := x];
    forall j | 0 <= j < |all| ensures HalfLinks(all, hs, us, x, i1, j) {
      if j != u {
        assert all[j] != all[u];
        assert old(HalfLinks(all, hs, us, x, i1, j));
      }
    }
  }

  /** Once `x` is linked in on its levels, all links are those of the longer list. */
  lemma {:induction false} Relinked<V>(all: seq<Sknd<V>>, hs: seq<nat>, us: seq<nat>, p: nat, x: Sknd<V>, lvl: nat)
    requires |hs| == |all| && 0 < p <= |all| && |us| == MAX_LEVEL && 1 <= lvl <= MAX_LEVEL &&
      Around(hs, us, MAX_LEVEL, p)
    requires HalfLinked(all, hs, us, x, lvl) && |x.fwd| == lvl
    requires forall l | 0 <= l < lvl :: x.fwd[l] == NodeAt(all, NextAbove(hs, us[l], l))
    ensures var r, rh := Inserted(all, p, x), Inserted(hs, p, lvl);
      |r| == |rh| && forall j | 0 <= j < |r| :: LinksOk(r, rh, j)
  {
    var r, rh := Inserted(all, p, x), Inserted(hs, p, lvl);
    forall j | 0 <= j < |r| ensures LinksOk(r, rh, j) {
      if j == p {
        forall l | 0 <= l < lvl ensures x.fwd[l] == NodeAt(r, NextAbove(rh, p, l)) {
          NextOfInserted(hs, p, lvl, us[l], l);
          NodeMoved(all, p, x, NextAbove(hs, us[l], l));
        }
      } else {
        RelinkedOld(all, hs, us, p, x, lvl, if j < p then j else j - 1);
      }
    }
  }

  lemma {:induction false} NodeMoved<V>(all: seq<Sknd<V>>, p: nat, x: Sknd<V>, q: nat)
    requires p <= |all| && q <= |all|
    ensures NodeAt(Inserted(all, p, x), Moved(q, p)) == if q < p || q < |all| then NodeAt(all, q) else null
  {
  }

  lemma {:induction false} RelinkedOld<V>(all: seq<Sknd<V>>, hs: seq<nat>, us: seq<nat>, p: nat, x: Sknd<V>, lvl: nat,
      j: nat)
    requires |hs| == |all| && 0 < p <= |all| && |us| == MAX_LEVEL && 1 <= lvl <= MAX_LEVEL &&
      Around(hs, us, MAX_LEVEL, p)
    requires HalfLinked(all, hs, us, x, lvl) && j < |all|
    ensures |Inserted(all, p, x)| == |Inserted(hs, p, lvl)| &&
      LinksOk(Inserted(all, p, x), Inserted(hs, p, lvl), Moved(j, p))
  {
    var r, rh := Inserted(all, p, x), Inserted(hs, p, lvl);
    InsertedAt(all, p, x, j);
    InsertedAt(hs, p, lvl, j);
    assert HalfLinks(all, hs, us, x, lvl, j);
    forall l | 0 <= l < hs[j] ensures all[j].fwd[l] == NodeAt(r, NextAbove(rh, Moved(j, p), l)) {
      var q := NextAbove(hs, j, l);
      NextInserted(hs, p, lvl, j, l);
      NodeMoved(all, p, x, q);
      if l < lvl {
        if us[l] < j { assert NextAbove(hs, us[l], l) <= j; }
        if j < us[l] { assert q <= us[l]; }
      }
    }
  }
}
