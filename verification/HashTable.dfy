/** The cells of a hash map: chains of colliding entries inside one table, and the map they stand for. */
module HashTable {
  import opened Basics

  datatype Flag = FREE | SLOT | NODE

  /** A cell; `None` as key or value is nil. */
  datatype Kvi<K, V> = Kvi(next: Option<nat>, hash: nat, k: Option<K>, v: Option<V>, flag: Flag)

  function Blank<K, V>(): Kvi<K, V> {
    Kvi(None, 0, None, None, FREE)
  }

  const WORD: nat := 0x1_0000_0000_0000_0000

  /** The lowest bit set. */
  function OrOne(n: nat): (r: nat)
    ensures r % 2 == 1 && n <= r <= n + 1
  {
    if n % 2 == 0 then n + 1 else n
  }

  /** The home of a hash in a table of even size: never cell 0. */
  function Position(h: nat, size: nat): (p: nat)
    requires size >= 2 && size % 2 == 0
    ensures 0 < p < size && p % 2 == 1
  {
    var x := OrOne((h + WORD - 1) % WORD);
    OddMod(x, size);
    x % size
  }

  lemma {:induction false} OddMod(x: nat, size: nat)
    requires x % 2 == 1 && size >= 2 && size % 2 == 0
    ensures (x % size) % 2 == 1
  {
    var q, half := x / size, size / 2;
    assert x == q * size + x % size;
    assert q * size == 2 * (q * half) by { assert size == 2 * half; Twice(q, half); }
  }

  lemma {:induction false} Twice(q: int, half: int)
    ensures q * (2 * half) == 2 * (q * half)
  {
  }

  // ------------------------------------------------------------------
  // The table
  // ------------------------------------------------------------------

  predicate IsUsed<K, V>(s: seq<Kvi<K, V>>, i: nat)
    requires i < |s|
  {
    s[i].flag != FREE
  }

  predicate IsTable<K, V>(s: seq<Kvi<K, V>>) {
    |s| >= 2 && |s| % 2 == 0
  }

  function Home<K, V>(s: seq<Kvi<K, V>>, i: nat): nat
    requires IsTable(s) && i < |s|
  {
    Position(s[i].hash, |s|)
  }

  ghost predicate Member<K, V>(s: seq<Kvi<K, V>>, c: seq<nat>, p: nat, t: nat)
    requires IsTable(s) && t < |c|
  {
    c[t] < |s| && Home(s, c[t]) == p && s[c[t]].flag == (if t == 0 then SLOT else NODE) &&
    s[c[t]].next == (if t + 1 < |c| then Some(c[t + 1]) else None)
  }

  /** `c` is the chain of the home `p`: its head stands there, and each entry links to the next. */
  ghost predicate IsChain<K, V>(s: seq<Kvi<K, V>>, c: seq<nat>, p: nat)
    requires IsTable(s) && p < |s|
  {
    (c == [] <==> s[p].flag != SLOT) && (c != [] ==> c[0] == p) &&
    (forall t | 0 <= t < |c| :: Member(s, c, p, t)) &&
    (forall t, u | 0 <= t < u < |c| :: c[t] != c[u])
  }

  ghost predicate CellOk<K, V>(s: seq<Kvi<K, V>>, ch: seq<seq<nat>>, hash: K -> nat, i: nat)
    requires IsTable(s) && |ch| == |s| && i < |s|
  {
    if IsUsed(s, i) then s[i].k.Some? && s[i].hash == hash(s[i].k.value) && i in ch[Home(s, i)]
    else s[i] == Blank()
  }

  /** Every chain holds exactly the entries that have its home, cell 0 is free, and no key is there twice. */
  ghost predicate Shape<K, V>(s: seq<Kvi<K, V>>, ch: seq<seq<nat>>, hash: K -> nat) {
    IsTable(s) && |ch| == |s| && s[0].flag == FREE &&
    (forall p | 0 <= p < |s| :: IsChain(s, ch[p], p)) &&
    (forall i | 0 <= i < |s| :: CellOk(s, ch, hash, i)) &&
    (forall i, j | 0 <= i < j < |s| && IsUsed(s, i) && IsUsed(s, j) :: s[i].k != s[j].k)
  }

  // ------------------------------------------------------------------
  // The map
  // ------------------------------------------------------------------

  /** The entries of the cells, the later ones over the earlier. */
  function Entries<K, V>(s: seq<Kvi<K, V>>): map<K, Option<V>> {
    if s == [] then map[]
    else
      var last := s[|s| - 1];
      var m := Entries(s[..|s| - 1]);
      if last.flag != FREE && last.k.Some? then m[last.k.value := last.v] else m
  }

  ghost predicate Holds<K, V>(s: seq<Kvi<K, V>>, k: K) {
    exists i: nat :: i < |s| && IsUsed(s, i) && s[i].k == Some(k)
  }

  ghost predicate IsMapOf<K(!new), V>(s: seq<Kvi<K, V>>, m: map<K, Option<V>>) {
    (forall k :: k in m <==> Holds(s, k)) &&
    (forall i: nat | i < |s| && IsUsed(s, i) && s[i].k.Some? :: s[i].k.value in m && m[s[i].k.value] == s[i].v)
  }

  ghost predicate KeysDiffer<K, V>(s: seq<Kvi<K, V>>) {
    forall i, j | 0 <= i < j < |s| && IsUsed(s, i) && IsUsed(s, j) :: s[i].k != s[j].k
  }

  lemma {:induction false} EntriesMap<K(!new), V>(s: seq<Kvi<K, V>>)
    requires KeysDiffer(s)
    ensures IsMapOf(s, Entries(s))
    decreases |s|
  {
    if s != [] {
      var n := |s| - 1;
      var init, m := s[..n], Entries(s[..n]);
      EntriesMap(init);
      var all := Entries(s);
      forall k ensures k in all <==> Holds(s, k) {
        if Holds(init, k) {
          var i: nat :| i < |init| && IsUsed(init, i) && init[i].k == Some(k);
          assert IsUsed(s, i) && s[i].k == Some(k);
        }
        if Holds(s, k) {
          var i: nat :| i < |s| && IsUsed(s, i) && s[i].k == Some(k);
          if i < n { assert IsUsed(init, i) && init[i].k == Some(k); }
        }
        if s[n].flag != FREE && s[n].k == Some(k) { assert IsUsed(s, n); }
      }
      forall i: nat | i < |s| && IsUsed(s, i) && s[i].k.Some?
        ensures s[i].k.value in all && all[s[i].k.value] == s[i].v
      {
        if i < n {
          assert IsUsed(init, i) && init[i] == s[i];
          if IsUsed(s, n) { assert s[i].k != s[n].k; }
        }
      }
    }
  }

  /** A table stands for one map. */
  lemma {:induction false} MapUnique<K(!new), V>(s: seq<Kvi<K, V>>, m: map<K, Option<V>>)
    requires KeysDiffer(s) && IsMapOf(s, m)
    ensures m == Entries(s)
  {
    EntriesMap(s);
    var e := Entries(s);
    forall k | k in m ensures k in e && m[k] == e[k] {
      var i: nat :| i < |s| && IsUsed(s, i) && s[i].k == Some(k);
    }
    forall k | k in e ensures k in m {
    }
  }

  // ------------------------------------------------------------------
  // Finding
  // ------------------------------------------------------------------

  /** A key that is in the table is in the chain of its home. */
  lemma {:induction false} HeldInChain<K, V>(s: seq<Kvi<K, V>>, ch: seq<seq<nat>>, hash: K -> nat, key: K, i: nat)
    requires Shape(s, ch, hash) && i < |s| && IsUsed(s, i)
    ensures s[i].k == Some(key) ==> i in ch[Position(hash(key), |s|)]
  {
    assert CellOk(s, ch, hash, i);
  }

  lemma {:induction false} MemberAt<K, V>(s: seq<Kvi<K, V>>, ch: seq<seq<nat>>, hash: K -> nat, p: nat, t: nat)
    requires Shape(s, ch, hash) && p < |s| && t < |ch[p]|
    ensures Member(s, ch[p], p, t) && IsUsed(s, ch[p][t]) && CellOk(s, ch, hash, ch[p][t])
  {
    assert IsChain(s, ch[p], p);
  }

  // ------------------------------------------------------------------
  // Chains that a change leaves alone
  // ------------------------------------------------------------------

  lemma {:induction false} SameChain<K, V>(s: seq<Kvi<K, V>>, r: seq<Kvi<K, V>>, c: seq<nat>, p: nat)
    requires IsTable(s) && |r| == |s| && p < |s| && IsChain(s, c, p)
    requires r[p].flag == SLOT <==> s[p].flag == SLOT
    requires forall t | 0 <= t < |c| && c[t] < |s| :: r[c[t]] == s[c[t]]
    ensures IsChain(r, c, p)
  {
    forall t | 0 <= t < |c| ensures Member(r, c, p, t) { assert Member(s, c, p, t); }
  }

  /** A free cell is in no chain, and an entry is in no chain but that of its home. */
  lemma {:induction false} NotInChain<K, V>(s: seq<Kvi<K, V>>, ch: seq<seq<nat>>, hash: K -> nat, p: nat, i: nat)
    requires Shape(s, ch, hash) && p < |s| && i < |s|
    requires !IsUsed(s, i) || Home(s, i) != p
    ensures forall t | 0 <= t < |ch[p]| :: ch[p][t] != i
  {
    forall t | 0 <= t < |ch[p]| ensures ch[p][t] != i { MemberAt(s, ch, hash, p, t); }
  }

  // ------------------------------------------------------------------
  // A new entry in its free home
  // ------------------------------------------------------------------

  function Entry<K, V>(key: K, h: nat, v: Option<V>, next: Option<nat>, flag: Flag): Kvi<K, V> {
    Kvi(next, h, Some(key), v, flag)
  }

  lemma {:induction false} HomePut<K(!new), V>(s: seq<Kvi<K, V>>, ch: seq<seq<nat>>, hash: K -> nat, key: K)
    requires Shape(s, ch, hash)
    requires var p := Position(hash(key), |s|); s[p].flag == FREE
    ensures var p := Position(hash(key), |s|);
      var r := s[p := Entry(key, hash(key), None, None, SLOT)];
      Shape(r, ch[p := [p]], hash) && !Holds(s, key) && Entries(r) == Entries(s)[key := None]
  {
    var p := Position(hash(key), |s|);
    var r := s[p := Entry(key, hash(key), None, None, SLOT)];
    assert IsChain(s, ch[p], p);
    NotHeld(s, ch, hash, key);
    KeysSome(s, ch, hash);
    NewKey(s, r, key, p);
    EntriesOneMore(s, r, key, p, p);
    HomeShape(s, ch, hash, key);
  }

  lemma {:induction false} KeysSome<K, V>(s: seq<Kvi<K, V>>, ch: seq<seq<nat>>, hash: K -> nat)
    requires Shape(s, ch, hash)
    ensures KeysDiffer(s) && forall j | 0 <= j < |s| && IsUsed(s, j) :: s[j].k.Some?
  {
    forall j | 0 <= j < |s| && IsUsed(s, j) ensures s[j].k.Some? { assert CellOk(s, ch, hash, j); }
  }

  lemma {:induction false} HomeShape<K(!new), V>(s: seq<Kvi<K, V>>, ch: seq<seq<nat>>, hash: K -> nat, key: K)
    requires Shape(s, ch, hash)
    requires s[Position(hash(key), |s|)].flag == FREE
    requires var p := Position(hash(key), |s|); KeysDiffer(s[p := Entry(key, hash(key), None, None, SLOT)])
    ensures var p := Position(hash(key), |s|);
      Shape(s[p := Entry(key, hash(key), None, None, SLOT)], ch[p := [p]], hash)
  {
    var p := Position(hash(key), |s|);
    var r, d := s[p := Entry(key, hash(key), None, None, SLOT)], ch[p := [p]];
    forall q | 0 <= q < |r| ensures IsChain(r, d[q], q) {
      if q != p {
        assert IsChain(s, ch[q], q);
        NotInChain(s, ch, hash, q, p);
        SameChain(s, r, ch[q], q);
      } else {
        assert Member(r, d[p], p, 0);
      }
    }
    forall i | 0 <= i < |r| ensures CellOk(r, d, hash, i) {
      assert CellOk(s, ch, hash, i);
      assert IsChain(s, ch[p], p);
    }
  }

  /** A key is not in the table if the chain of its home is empty. */
  lemma {:induction false} NotHeld<K, V>(s: seq<Kvi<K, V>>, ch: seq<seq<nat>>, hash: K -> nat, key: K)
    requires Shape(s, ch, hash)
    requires forall t | 0 <= t < |ch[Position(hash(key), |s|)]| ::
      ch[Position(hash(key), |s|)][t] < |s| ==> s[ch[Position(hash(key), |s|)][t]].k != Some(key)
    ensures !Holds(s, key)
  {
    forall i: nat | i < |s| && IsUsed(s, i) ensures s[i].k != Some(key) {
      HeldInChain(s, ch, hash, key, i);
    }
  }

  /** `r` has one more entry than `s`, with the key `key` at `i`; the entry that was at `i`, if any, is now at `f`. */
  ghost predicate OneMore<K, V>(s: seq<Kvi<K, V>>, r: seq<Kvi<K, V>>, key: K, i: nat, f: nat) {
    |r| == |s| && i < |s| && f < |s| && r[i].flag != FREE && r[i].k == Some(key) &&
    (forall j | 0 <= j < |s| && j != i && j != f :: r[j].flag != FREE <==> s[j].flag != FREE) &&
    (forall j | 0 <= j < |s| && j != i && j != f :: r[j].k == s[j].k && r[j].v == s[j].v) &&
    (f != i ==> s[f].flag == FREE && s[i].flag != FREE && r[f].flag != FREE && r[f].k == s[i].k && r[f].v == s[i].v) &&
    (f == i ==> s[i].flag == FREE)
  }

  lemma {:induction false} NewKey<K, V>(s: seq<Kvi<K, V>>, r: seq<Kvi<K, V>>, key: K, i: nat)
    requires |r| == |s| && i < |s| && s[i].flag == FREE && r == s[i := r[i]] && r[i].flag != FREE && r[i].k == Some(key)
    ensures OneMore(s, r, key, i, i)
  {
  }

  lemma {:induction false} EntriesOneMore<K(!new), V>(s: seq<Kvi<K, V>>, r: seq<Kvi<K, V>>, key: K, i: nat, f: nat)
    requires OneMore(s, r, key, i, f) && KeysDiffer(s) && !Holds(s, key)
    requires forall j | 0 <= j < |s| && IsUsed(s, j) :: s[j].k.Some?
    ensures KeysDiffer(r) && Entries(r) == Entries(s)[key := r[i].v]
  {
    var m := Entries(s)[key := r[i].v];
    forall j | 0 <= j < |s| && IsUsed(s, j) ensures s[j].k != Some(key) {
      assert s[j].k == Some(key) ==> Holds(s, key);
    }
    forall a, b | 0 <= a < b < |r| && IsUsed(r, a) && IsUsed(r, b) ensures r[a].k != r[b].k {
      var a1, b1 := if a == f then i else a, if b == f then i else b;
      if a != i && b != i {
        assert IsUsed(s, a1) && IsUsed(s, b1);
      } else if a == i {
        assert IsUsed(s, b1);
      } else {
        assert IsUsed(s, a1);
      }
    }
    EntriesMap(s);
    forall k ensures k in m <==> Holds(r, k) {
      if Holds(s, k) {
        var j: nat :| j < |s| && IsUsed(s, j) && s[j].k == Some(k);
        var j1 := if j == i then f else j;
        assert IsUsed(r, j1) && r[j1].k == Some(k);
      }
      if Holds(r, k) {
        var j: nat :| j < |r| && IsUsed(r, j) && r[j].k == Some(k);
        if j != i {
          var j1 := if j == f then i else j;
          assert IsUsed(s, j1) && s[j1].k == Some(k);
        }
      }
      assert IsUsed(r, i);
    }
    forall j: nat | j < |r| && IsUsed(r, j) && r[j].k.Some? ensures r[j].k.value in m && m[r[j].k.value] == r[j].v {
      if j != i {
        var j1 := if j == f then i else j;
        assert IsUsed(s, j1) && s[j1].k == r[j].k;
        assert s[j1].k.value in Entries(s);
      }
    }
    MapUnique(r, m);
  }

  // ------------------------------------------------------------------
  // A new entry at the end of a chain
  // ------------------------------------------------------------------

  function Appended<K, V>(s: seq<Kvi<K, V>>, last: nat, f: nat, key: K, h: nat): seq<Kvi<K, V>>
    requires last < |s| && f < |s|
  {
    s[last := s[last].(next := Some(f))][f := Entry(key, h, None, None, NODE)]
  }

  /** The chain `c` of the home of `key`, which it does not hold, and a free cell. */
  ghost predicate CanAppend<K, V>(s: seq<Kvi<K, V>>, ch: seq<seq<nat>>, hash: K -> nat, key: K, f: nat) {
    Shape(s, ch, hash) && 0 < f < |s| && s[f].flag == FREE &&
    var p := Position(hash(key), |s|);
    s[p].flag == SLOT && ch[p] != [] && ch[p][|ch[p]| - 1] < |s| && !Holds(s, key)
  }

  lemma {:induction false} AppendPut<K(!new), V>(s: seq<Kvi<K, V>>, ch: seq<seq<nat>>, hash: K -> nat, key: K, f: nat)
    requires CanAppend(s, ch, hash, key, f)
    ensures var p := Position(hash(key), |s|);
      var r := Appended(s, ch[p][|ch[p]| - 1], f, key, hash(key));
      Shape(r, ch[p := ch[p] + [f]], hash) && Entries(r) == Entries(s)[key := None]
  {
    var p := Position(hash(key), |s|);
    var last := ch[p][|ch[p]| - 1];
    var r := Appended(s, last, f, key, hash(key));
    KeysSome(s, ch, hash);
    MemberAt(s, ch, hash, p, |ch[p]| - 1);
    assert OneMore(s, r, key, f, f);
    EntriesOneMore(s, r, key, f, f);
    AppendShape(s, ch, hash, key, f);
  }

  lemma {:induction false} AppendChain<K, V>(s: seq<Kvi<K, V>>, ch: seq<seq<nat>>, hash: K -> nat, key: K, f: nat)
    requires CanAppend(s, ch, hash, key, f)
    ensures var p := Position(hash(key), |s|);
      IsChain(Appended(s, ch[p][|ch[p]| - 1], f, key, hash(key)), ch[p] + [f], p)
  {
    var p := Position(hash(key), |s|);
    var c := ch[p];
    var r, d := Appended(s, c[|c| - 1], f, key, hash(key)), c + [f];
    assert IsChain(s, c, p);
    NotInChain(s, ch, hash, p, f);
    forall t | 0 <= t < |d| ensures Member(r, d, p, t) {
      if t < |c| {
        MemberAt(s, ch, hash, p, t);
        assert t + 1 < |c| ==> c[t] != c[|c| - 1];
      }
    }
    assert d[0] == c[0];
  }

  lemma {:induction false} AppendShape<K(!new), V>(s: seq<Kvi<K, V>>, ch: seq<seq<nat>>, hash: K -> nat, key: K, f: nat)
    requires CanAppend(s, ch, hash, key, f)
    requires var p := Position(hash(key), |s|); KeysDiffer(Appended(s, ch[p][|ch[p]| - 1], f, key, hash(key)))
    ensures var p := Position(hash(key), |s|);
      Shape(Appended(s, ch[p][|ch[p]| - 1], f, key, hash(key)), ch[p := ch[p] + [f]], hash)
  {
    var p := Position(hash(key), |s|);
    var c := ch[p];
    var last := c[|c| - 1];
    var r, d := Appended(s, last, f, key, hash(key)), ch[p := c + [f]];
    MemberAt(s, ch, hash, p, |c| - 1);
    forall q | 0 <= q < |r| ensures IsChain(r, d[q], q) {
      if q != p {
        assert IsChain(s, ch[q], q);
        NotInChain(s, ch, hash, q, f);
        NotInChain(s, ch, hash, q, last);
        SameChain(s, r, ch[q], q);
      } else {
        AppendChain(s, ch, hash, key, f);
      }
    }
    forall i | 0 <= i < |r| ensures CellOk(r, d, hash, i) {
      assert CellOk(s, ch, hash, i);
      if i == f {
        assert d[p][|c|] == f;
      } else if IsUsed(s, i) {
        var q := Home(s, i);
        var t :| 0 <= t < |ch[q]| && ch[q][t] == i;
        assert d[q][t] == i;
      }
    }
  }

  // ------------------------------------------------------------------
  // A new entry in a home that another chain used
  // ------------------------------------------------------------------

  function Evicted<K, V>(s: seq<Kvi<K, V>>, prev: nat, p: nat, f: nat, key: K, h: nat): seq<Kvi<K, V>>
    requires prev < |s| && p < |s| && f < |s|
  {
    s[f := s[p].(flag := NODE)][prev := s[prev].(next := Some(f))][p := Entry(key, h, s[p].v, None, SLOT)]
  }

  /** The chains after that: `f` takes the place of `p` in the chain of `q`, and `p` begins a chain. */
  function Rechained(ch: seq<seq<nat>>, q: nat, t: nat, p: nat, f: nat): seq<seq<nat>>
    requires q < |ch| && p < |ch| && t < |ch[q]|
  {
    var c: seq<nat> := ch[q][t := f];
    var d: seq<seq<nat>> := ch[q := c];
    d[p := [p]]
  }

  /** The home of `key` holds entry `t` of another chain, and there is a free cell. */
  ghost predicate CanEvict<K, V>(s: seq<Kvi<K, V>>, ch: seq<seq<nat>>, hash: K -> nat, key: K, t: nat, f: nat) {
    Shape(s, ch, hash) && 0 < f < |s| && s[f].flag == FREE &&
    var p := Position(hash(key), |s|);
    s[p].flag == NODE &&
    var c := ch[Home(s, p)];
    0 < t < |c| && c[t] == p && c[t - 1] < |s|
  }

  lemma {:induction false} EvictBasics<K, V>(s: seq<Kvi<K, V>>, ch: seq<seq<nat>>, hash: K -> nat, key: K, t: nat,
      f: nat)
    requires CanEvict(s, ch, hash, key, t, f)
    ensures var p := Position(hash(key), |s|);
      var q := Home(s, p);
      var prev := ch[q][t - 1];
      q != p && prev != p && prev != f && f != p && IsUsed(s, prev) && Home(s, prev) == q && ch[p] == [] &&
        !Holds(s, key)
  {
    var p := Position(hash(key), |s|);
    var q := Home(s, p);
    MemberAt(s, ch, hash, q, t);
    MemberAt(s, ch, hash, q, t - 1);
    assert IsChain(s, ch[p], p) && IsChain(s, ch[q], q);
    NotHeld(s, ch, hash, key);
  }

  lemma {:induction false} EvictPut<K(!new), V>(s: seq<Kvi<K, V>>, ch: seq<seq<nat>>, hash: K -> nat, key: K, t: nat,
      f: nat)
    requires CanEvict(s, ch, hash, key, t, f)
    ensures var p := Position(hash(key), |s|);
      var q := Home(s, p);
      var r := Evicted(s, ch[q][t - 1], p, f, key, hash(key));
      Shape(r, Rechained(ch, q, t, p, f), hash) && !Holds(s, key) && Entries(r) == Entries(s)[key := s[p].v]
  {
    var p := Position(hash(key), |s|);
    var r := Evicted(s, ch[Home(s, p)][t - 1], p, f, key, hash(key));
    KeysSome(s, ch, hash);
    EvictBasics(s, ch, hash, key, t, f);
    assert OneMore(s, r, key, p, f);
    EntriesOneMore(s, r, key, p, f);
    EvictShape(s, ch, hash, key, t, f);
  }

  lemma {:induction false} EvictChain<K, V>(s: seq<Kvi<K, V>>, ch: seq<seq<nat>>, hash: K -> nat, key: K, t: nat,
      f: nat)
    requires CanEvict(s, ch, hash, key, t, f)
    ensures var p := Position(hash(key), |s|);
      var q := Home(s, p);
      IsChain(Evicted(s, ch[q][t - 1], p, f, key, hash(key)), ch[q][t := f], q)
  {
    var p := Position(hash(key), |s|);
    var q := Home(s, p);
    var c: seq<nat> := ch[q];
    var d: seq<nat> := c[t := f];
    var r := Evicted(s, c[t - 1], p, f, key, hash(key));
    EvictBasics(s, ch, hash, key, t, f);
    assert IsChain(s, c, q);
    NotInChain(s, ch, hash, q, f);
    forall u | 0 <= u < |d| ensures Member(r, d, q, u) {
      MemberAt(s, ch, hash, q, u);
      assert u < t ==> c[u] != c[t];
      assert u > t ==> c[t] != c[u];
      assert u < t - 1 ==> c[u] != c[t - 1];
      assert u > t - 1 ==> c[t - 1] != c[u];
    }
    assert d[0] == c[0];
  }

  lemma {:induction false} EvictShape<K(!new), V>(s: seq<Kvi<K, V>>, ch: seq<seq<nat>>, hash: K -> nat, key: K, t: nat,
      f: nat)
    requires CanEvict(s, ch, hash, key, t, f)
    requires var p := Position(hash(key), |s|);
      KeysDiffer(Evicted(s, ch[Home(s, p)][t - 1], p, f, key, hash(key)))
    ensures var p := Position(hash(key), |s|);
      var q := Home(s, p);
      Shape(Evicted(s, ch[q][t - 1], p, f, key, hash(key)), Rechained(ch, q, t, p, f), hash)
  {
    var p := Position(hash(key), |s|);
    var q := Home(s, p);
    var c: seq<nat> := ch[q];
    var prev := c[t - 1];
    var r, d := Evicted(s, prev, p, f, key, hash(key)), Rechained(ch, q, t, p, f);
    EvictBasics(s, ch, hash, key, t, f);
    forall a | 0 <= a < |r| ensures IsChain(r, d[a], a) {
      if a == q {
        EvictChain(s, ch, hash, key, t, f);
      } else if a == p {
        assert Member(r, d[p], p, 0);
      } else {
        assert IsChain(s, ch[a], a);
        NotInChain(s, ch, hash, a, f);
        NotInChain(s, ch, hash, a, prev);
        NotInChain(s, ch, hash, a, p);
        SameChain(s, r, ch[a], a);
      }
    }
    forall i | 0 <= i < |r| ensures CellOk(r, d, hash, i) {
      assert CellOk(s, ch, hash, i);
      if i == f {
        assert CellOk(s, ch, hash, p);
        assert d[q][t] == f;
      } else if i != p && IsUsed(s, i) {
        var b := Home(s, i);
        var u :| 0 <= u < |ch[b]| && ch[b][u] == i;
        assert d[b][u] == i;
      }
    }
  }

  // ------------------------------------------------------------------
  // Free cells
  // ------------------------------------------------------------------

  /** An entry can be added without a larger table. */
  ghost predicate HasFree<K, V>(s: seq<Kvi<K, V>>) {
    exists f: nat :: 0 < f < |s| && s[f].flag == FREE
  }

  function Used<K, V>(s: seq<Kvi<K, V>>): (n: nat)
    ensures n <= |s|
  {
    if s == [] then 0 else Used(s[..|s| - 1]) + (if s[|s| - 1].flag == FREE then 0 else 1)
  }

  function One(b: bool): nat {
    if b then 1 else 0
  }

  lemma {:induction false} UsedUpdate<K, V>(s: seq<Kvi<K, V>>, i: nat, x: Kvi<K, V>)
    requires i < |s|
    ensures Used(s[i := x]) == Used(s) - One(s[i].flag != FREE) + One(x.flag != FREE)
    decreases |s|
  {
    var n := |s| - 1;
    if i == n {
      assert s[i := x][..n] == s[..n];
    } else {
      assert s[i := x][..n] == s[..n][i := x];
      UsedUpdate(s[..n], i, x);
    }
  }

  lemma {:induction false} UsedAll<K, V>(s: seq<Kvi<K, V>>)
    requires s != [] && s[0].flag == FREE
    ensures Used(s) <= |s| - 1 && (Used(s) < |s| - 1 ==> HasFree(s))
    decreases |s|
  {
    var n := |s| - 1;
    if n > 0 {
      var init := s[..n];
      UsedAll(init);
      if HasFree(init) {
        var f: nat :| 0 < f < |init| && init[f].flag == FREE;
        assert s[f].flag == FREE;
      }
      if s[n].flag == FREE { assert HasFree(s); }
    } else {
      assert s[..n] == [];
    }
  }

  lemma {:induction false} UsedPrefix<K, V>(s: seq<Kvi<K, V>>, i: nat)
    requires i <= |s|
    ensures Used(s[..i]) <= Used(s)
    decreases |s| - i
  {
    if i < |s| {
      assert s[..i + 1][..i] == s[..i];
      UsedPrefix(s, i + 1);
    } else {
      assert s[..i] == s;
    }
  }

  lemma {:induction false} Pow2Grows(n: nat, m: nat)
    requires n < m
    ensures 2 * Pow2(n) <= Pow2(m)
    decreases m
  {
    if n < m - 1 { Pow2Grows(n, m - 1); }
  }

  // ------------------------------------------------------------------
  // Writing a value
  // ------------------------------------------------------------------

  lemma {:induction false} WriteValue<K(!new), V>(s: seq<Kvi<K, V>>, ch: seq<seq<nat>>, hash: K -> nat, i: nat,
      v: Option<V>)
    requires Shape(s, ch, hash) && i < |s| && IsUsed(s, i)
    ensures s[i].k.Some?
    ensures var r := s[i := s[i].(v := v)];
      Shape(r, ch, hash) && Entries(r) == Entries(s)[s[i].k.value := v] && Used(r) == Used(s)
  {
    KeysSome(s, ch, hash);
    UsedUpdate(s, i, s[i].(v := v));
    WrittenShape(s, ch, hash, i, v);
    WrittenEntries(s, i, v);
  }

  lemma {:induction false} WrittenShape<K, V>(s: seq<Kvi<K, V>>, ch: seq<seq<nat>>, hash: K -> nat, i: nat,
      v: Option<V>)
    requires Shape(s, ch, hash) && i < |s| && IsUsed(s, i)
    ensures Shape(s[i := s[i].(v := v)], ch, hash)
  {
    var r := s[i := s[i].(v := v)];
    forall p | 0 <= p < |r| ensures IsChain(r, ch[p], p) {
      assert IsChain(s, ch[p], p);
      forall t | 0 <= t < |ch[p]| ensures Member(r, ch[p], p, t) { assert Member(s, ch[p], p, t); }
    }
    forall j | 0 <= j < |r| ensures CellOk(r, ch, hash, j) { assert CellOk(s, ch, hash, j); }
    forall a, b | 0 <= a < b < |r| && IsUsed(r, a) && IsUsed(r, b) ensures r[a].k != r[b].k {
      assert IsUsed(s, a) && IsUsed(s, b);
    }
  }

  lemma {:induction false} WrittenEntries<K(!new), V>(s: seq<Kvi<K, V>>, i: nat, v: Option<V>)
    requires KeysDiffer(s) && i < |s| && IsUsed(s, i) && s[i].k.Some?
    ensures var r := s[i := s[i].(v := v)];
      KeysDiffer(r) && Entries(r) == Entries(s)[s[i].k.value := v]
  {
    var r := s[i := s[i].(v := v)];
    var m := Entries(s)[s[i].k.value := v];
    EntriesMap(s);
    forall a, b | 0 <= a < b < |r| && IsUsed(r, a) && IsUsed(r, b) ensures r[a].k != r[b].k {
      assert IsUsed(s, a) && IsUsed(s, b);
    }
    forall k ensures k in m <==> Holds(r, k) {
      if Holds(s, k) {
        var j: nat :| j < |s| && IsUsed(s, j) && s[j].k == Some(k);
        assert IsUsed(r, j) && r[j].k == Some(k);
      }
      if Holds(r, k) {
        var j: nat :| j < |r| && IsUsed(r, j) && r[j].k == Some(k);
        assert IsUsed(s, j) && s[j].k == Some(k);
      }
      assert IsUsed(r, i) && r[i].k == s[i].k;
    }
    forall j: nat | j < |r| && IsUsed(r, j) && r[j].k.Some? ensures r[j].k.value in m && m[r[j].k.value] == r[j].v {
      assert IsUsed(s, j);
      if j < i { assert s[j].k != s[i].k; }
      if i < j { assert s[i].k != s[j].k; }
    }
    MapUnique(r, m);
  }

  /** An entry found again. */
  lemma {:induction false} FoundEntry<K(!new), V>(s: seq<Kvi<K, V>>, ch: seq<seq<nat>>, hash: K -> nat, key: K, i: nat)
    requires Shape(s, ch, hash) && i < |s| && IsUsed(s, i) && s[i].k == Some(key)
    ensures key in Entries(s) && Entries(s)[key] == s[i].v && Entries(s)[key := s[i].v] == Entries(s) && Holds(s, key)
  {
    KeysSome(s, ch, hash);
    EntriesMap(s);
  }

  lemma {:induction false} NoEntry<K(!new), V>(s: seq<Kvi<K, V>>, ch: seq<seq<nat>>, hash: K -> nat, key: K)
    requires Shape(s, ch, hash)
    ensures key in Entries(s) <==> Holds(s, key)
  {
    KeysSome(s, ch, hash);
    EntriesMap(s);
  }
}
