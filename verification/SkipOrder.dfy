/** What a skip list links and what it stands for, on the sequence of its nodes. */
module SkipOrder {
  import opened ValueOrder

  // ------------------------------------------------------------------
  // Heights
  // ------------------------------------------------------------------

  /** The first node after `j` that is higher than level `i`, or the end. */
  function NextAbove(hs: seq<nat>, j: nat, i: nat): (q: nat)
    requires j < |hs|
    ensures j < q <= |hs|
    ensures q < |hs| ==> hs[q] > i
    ensures forall m | j < m < q :: hs[m] <= i
    decreases |hs| - j
  {
    if j + 1 == |hs| then |hs|
    else if hs[j + 1] > i then j + 1
    else NextAbove(hs, j + 1, i)
  }

  lemma {:induction false} NextIs(hs: seq<nat>, j: nat, i: nat, q: nat)
    requires j < q <= |hs| && (q < |hs| ==> hs[q] > i) && forall m | j < m < q :: hs[m] <= i
    ensures NextAbove(hs, j, i) == q
  {
  }

  function Inserted<T>(s: seq<T>, p: nat, x: T): seq<T>
    requires p <= |s|
  {
    s[..p] + [x] + s[p..]
  }

  /** Where the node that was `q` is after an insertion at `p`. */
  function Moved(q: nat, p: nat): nat {
    if q < p then q else q + 1
  }

  lemma {:induction false} InsertedAt<T>(s: seq<T>, p: nat, x: T, q: nat)
    requires p <= |s| && q < |s|
    ensures Inserted(s, p, x)[Moved(q, p)] == s[q] && Inserted(s, p, x)[p] == x && |Inserted(s, p, x)| == |s| + 1
  {
  }

  /** The links after a node of height `h` is inserted at `p`, between `u` and what followed it on the level. */
  lemma {:induction false} NextInserted(hs: seq<nat>, p: nat, h: nat, j: nat, i: nat)
    requires j < |hs| && 0 < p <= |hs|
    ensures var q := NextAbove(hs, j, i);
      NextAbove(Inserted(hs, p, h), Moved(j, p), i) == if j < p <= q && h > i then p else Moved(q, p)
  {
    var r, q := Inserted(hs, p, h), NextAbove(hs, j, i);
    var n := if j < p <= q && h > i then p else Moved(q, p);
    if q < |hs| { InsertedAt(hs, p, h, q); }
    forall m | Moved(j, p) < m < n ensures r[m] <= i {
      if m < p { assert r[m] == hs[m]; } else if m > p { assert r[m] == hs[m - 1]; }
    }
    NextIs(r, Moved(j, p), i, n);
  }

  /** The links of the new node itself. */
  lemma {:induction false} NextOfInserted(hs: seq<nat>, p: nat, h: nat, u: nat, i: nat)
    requires u < |hs| && p <= |hs| && u < p <= NextAbove(hs, u, i)
    ensures NextAbove(Inserted(hs, p, h), p, i) == Moved(NextAbove(hs, u, i), p)
  {
    var r, q := Inserted(hs, p, h), NextAbove(hs, u, i);
    if q < |hs| { InsertedAt(hs, p, h, q); }
    forall m | p < m < Moved(q, p) ensures r[m] <= i { assert r[m] == hs[m - 1]; }
    NextIs(r, p, i, Moved(q, p));
  }

  // ------------------------------------------------------------------
  // Keys
  // ------------------------------------------------------------------

  /** Level 0 is strictly sorted. */
  ghost predicate Sorted(ks: seq<Key>) {
    forall a, b | 0 <= a < b < |ks| :: Before(ks[a], ks[b])
  }

  /** A sorted list runs upwards. */
  lemma {:induction false} RunsUpwards(ks: seq<Key>)
    ensures Sorted(ks) <==> forall a, b | 0 <= a < b < |ks| :: ComesFirst(ks[a], ks[b])
  {
    hide Order, ComesFirst;
    forall a, b | 0 <= a < b < |ks| ensures Before(ks[a], ks[b]) <==> ComesFirst(ks[a], ks[b]) {
      OrderFirst(ks[a], ks[b]);
    }
  }

  /** All keys before `p` come before `key`, and no other does. */
  ghost predicate IsPlace(ks: seq<Key>, key: Key, p: nat) {
    p <= |ks| && (forall a | 0 <= a < p :: Before(ks[a], key)) && (forall a | p <= a < |ks| :: !Before(ks[a], key))
  }

  /** It is enough to look at both sides. */
  lemma {:induction false} PlaceFound(ks: seq<Key>, key: Key, p: nat)
    requires Sorted(ks) && p <= |ks|
    requires p > 0 ==> Before(ks[p - 1], key)
    requires p < |ks| ==> !Before(ks[p], key)
    ensures IsPlace(ks, key, p)
  {
    forall a | 0 <= a < p ensures Before(ks[a], key) {
      if a < p - 1 { TotalOrder(ks[a], ks[p - 1], key); }
    }
    forall a | p <= a < |ks| ensures !Before(ks[a], key) {
      if p < a { TotalOrder(ks[p], ks[a], key); }
    }
  }

  lemma {:induction false} SortedInserted(ks: seq<Key>, key: Key, p: nat)
    requires Sorted(ks) && IsPlace(ks, key, p) && (p < |ks| ==> ks[p] != key)
    ensures Sorted(Inserted(ks, p, key))
    ensures key !in ks
  {
    var r := Inserted(ks, p, key);
    forall a | 0 <= a < |ks| ensures if a < p then Before(ks[a], key) else Before(key, ks[a]) {
      if p <= a {
        if p < a { TotalOrder(ks[p], ks[a], key); }
        TotalOrder(ks[p], key, key);
        TotalOrder(key, ks[p], ks[a]);
      }
    }
    forall a, b | 0 <= a < b < |r| ensures Before(r[a], r[b]) {
      if a == p {
        assert r[b] == ks[b - 1];
      } else if b == p {
        assert r[a] == ks[a];
      } else {
        assert r[a] == ks[if a < p then a else a - 1] && r[b] == ks[if b < p then b else b - 1];
      }
    }
    forall a | 0 <= a < |ks| ensures ks[a] != key { TotalOrder(key, key, key); }
  }

  lemma {:induction false} PairOrdered(ks: seq<Key>, a: nat, b: nat)
    requires Sorted(ks)
    ensures a < b < |ks| ==> Before(ks[a], ks[b])
  {
  }

  lemma {:induction false} NotThere(ks: seq<Key>, key: Key, p: nat)
    requires Sorted(ks) && IsPlace(ks, key, p)
    ensures key in ks <==> p < |ks| && ks[p] == key
  {
    TotalOrder(key, key, key);
    if key in ks {
      var a :| 0 <= a < |ks| && ks[a] == key;
      PairOrdered(ks, p, a);
    }
  }

  // ------------------------------------------------------------------
  // The map
  // ------------------------------------------------------------------

  /** The map that the pairs stand for. */
  function MapOf<V>(ks: seq<Key>, vs: seq<V>): map<Key, V>
    requires |ks| == |vs|
  {
    if ks == [] then map[] else MapOf(ks[..|ks| - 1], vs[..|ks| - 1])[ks[|ks| - 1] := vs[|ks| - 1]]
  }

  ghost predicate Differ(ks: seq<Key>) {
    forall a, b | 0 <= a < b < |ks| :: ks[a] != ks[b]
  }

  lemma {:induction false} SortedDiffer(ks: seq<Key>)
    requires Sorted(ks)
    ensures Differ(ks)
  {
    forall a, b | 0 <= a < b < |ks| ensures ks[a] != ks[b] { TotalOrder(ks[a], ks[b], ks[b]); }
  }

  lemma {:induction false} MapOfKeys<V>(ks: seq<Key>, vs: seq<V>)
    requires |ks| == |vs| && Differ(ks)
    ensures forall k :: k in MapOf(ks, vs) <==> k in ks
    ensures forall a | 0 <= a < |ks| :: ks[a] in MapOf(ks, vs) && MapOf(ks, vs)[ks[a]] == vs[a]
    decreases |ks|
  {
    if ks != [] {
      var n := |ks| - 1;
      MapOfKeys(ks[..n], vs[..n]);
      assert ks == ks[..n] + [ks[n]];
      forall a | 0 <= a < |ks| ensures ks[a] in MapOf(ks, vs) && MapOf(ks, vs)[ks[a]] == vs[a] {
        if a < n { assert ks[..n][a] == ks[a] && vs[..n][a] == vs[a]; }
      }
    }
  }

  lemma {:induction false} MapInserted<V>(ks: seq<Key>, vs: seq<V>, p: nat, key: Key, v: V)
    requires |ks| == |vs| && p <= |ks| && Differ(ks) && key !in ks && Differ(Inserted(ks, p, key))
    ensures MapOf(Inserted(ks, p, key), Inserted(vs, p, v)) == MapOf(ks, vs)[key := v]
  {
    var rk, rv := Inserted(ks, p, key), Inserted(vs, p, v);
    var m, n := MapOf(ks, vs)[key := v], MapOf(rk, rv);
    MapOfKeys(ks, vs);
    MapOfKeys(rk, rv);
    hide MapOf, Inserted, Differ;
    forall k ensures k in m <==> k in n { InInserted(ks, p, key, k); }
    forall k | k in m ensures m[k] == n[k] {
      if k == key {
        InsertedHere(ks, p, key);
        InsertedHere(vs, p, v);
      } else {
        OtherInserted(ks, vs, p, key, v, k);
      }
    }
  }

  lemma {:induction false} OtherInserted<V>(ks: seq<Key>, vs: seq<V>, p: nat, key: Key, v: V, k: Key)
    requires |ks| == |vs| && p <= |ks| && k in ks && k != key && Differ(ks) && Differ(Inserted(ks, p, key))
    ensures |Inserted(vs, p, v)| == |Inserted(ks, p, key)|
    ensures k in MapOf(ks, vs) && k in MapOf(Inserted(ks, p, key), Inserted(vs, p, v))
    ensures MapOf(Inserted(ks, p, key), Inserted(vs, p, v))[k] == MapOf(ks, vs)[k]
  {
    MapOfKeys(ks, vs);
    MapOfKeys(Inserted(ks, p, key), Inserted(vs, p, v));
    var a :| 0 <= a < |ks| && ks[a] == k;
    InsertedAt(ks, p, key, a);
    InsertedAt(vs, p, v, a);
    hide MapOf, Inserted, Differ;
  }

  lemma {:induction false} InsertedHere<T>(s: seq<T>, p: nat, x: T)
    requires p <= |s|
    ensures |Inserted(s, p, x)| == |s| + 1 && Inserted(s, p, x)[p] == x
  {
  }

  lemma {:induction false} InInserted<T>(s: seq<T>, p: nat, x: T, y: T)
    requires p <= |s|
    ensures y in Inserted(s, p, x) <==> y in s || y == x
  {
    assert s == s[..p] + s[p..];
  }

  lemma {:induction false} MapWritten<V>(ks: seq<Key>, vs: seq<V>, p: nat, v: V)
    requires |ks| == |vs| && p < |ks| && Differ(ks)
    ensures MapOf(ks, vs[p := v]) == MapOf(ks, vs)[ks[p] := v]
  {
    var m, n := MapOf(ks, vs)[ks[p] := v], MapOf(ks, vs[p := v]);
    MapOfKeys(ks, vs);
    MapOfKeys(ks, vs[p := v]);
    forall k | k in m ensures k in n && m[k] == n[k] {
      var a :| 0 <= a < |ks| && ks[a] == k;
      if a < p { assert ks[a] != ks[p]; }
      if p < a { assert ks[p] != ks[a]; }
    }
    forall k | k in n ensures k in m {
    }
  }
}
