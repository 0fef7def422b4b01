/** The pool that keeps one object for each short string. */
module StringPool {
  import opened Basics
  import opened Collector

  /** Strings below this length are pooled. */
  const MAX_KPOOL_LEN: nat := 40

  const SEED: bv64 := 1315423911

  // ------------------------------------------------------------------
  // The hash of a text
  // ------------------------------------------------------------------

  /** A byte is a signed character, which is extended to the width of the hash. */
  function Extended(b: Byte): bv64 {
    if b < 128 then b as bv64 else (b as bv64) | 0xFFFF_FFFF_FFFF_FF00
  }

  function Mixed(n: bv64, b: Byte): bv64 {
    n ^ ((n << 5) + Extended(b) + (n >> 2))
  }

  function HashFrom(n: bv64, z: seq<Byte>): bv64
    decreases z
  {
    if z == [] then n else HashFrom(Mixed(n, z[0]), z[1..])
  }

  method KzHash(z: seq<Byte>) returns (n: bv64)
    ensures n == HashFrom(SEED, z)
  {
    hide Mixed;
    n := SEED;
    var i := 0;
    assert z[0..] == z;
    while i < |z|
      invariant 0 <= i <= |z| && HashFrom(n, z[i..]) == HashFrom(SEED, z)
    {
      assert z[i..][1..] == z[i + 1..];
      n := Mixed(n, z[i]);
      i := i + 1;
    }
  }

  function Below(n: nat, m: nat): (r: nat)
    requires m > 0
    ensures r < m
  {
    n % m
  }

  /** The bucket of a text among `2 ^ shift`. */
  function Home(z: seq<Byte>, shift: nat): (r: nat)
    ensures r < Pow2(shift)
  {
    Below(HashFrom(SEED, z) as nat, Pow2(shift))
  }

  method HomeOf(z: seq<Byte>, shift: nat) returns (i: nat)
    ensures i == Home(z, shift) && i < Pow2(shift)
  {
    hide HashFrom, Below;
    var n := KzHash(z);
    i := Below(n as nat, Pow2(shift));
  }

  // ------------------------------------------------------------------
  // The invariant
  // ------------------------------------------------------------------

  /** The short strings of a list whose bucket is `i`. */
  ghost predicate HomeList(s: seq<Node>, i: nat, shift: nat) {
    forall n | n in s :: Home(n.text, shift) == i && |n.text| < MAX_KPOOL_LEN
  }

  ghost predicate Homes(ch: seq<seq<Node>>, shift: nat) {
    |ch| == Pow2(shift) && forall i | 0 <= i < |ch| :: HomeList(ch[i], i, shift)
  }

  /** No two strings are equal. */
  ghost predicate TextsDiffer(pool: set<Node>) {
    forall a, b | a in pool && b in pool && a.text == b.text :: a == b
  }

  /** The lists that the buckets point to, which hold all of `pool`. */
  ghost predicate Buckets(slot: array<Node?>, ch: seq<seq<Node>>, pool: set<Node>)
    reads slot, pool`next
  {
    |ch| == slot.Length && Holding(ch, pool) &&
    forall i | 0 <= i < |ch| :: ListIn(ch[i], pool) && IsList(slot[i], ch[i])
  }

  /** The pooled strings. */
  ghost function Pool(m: Machine): set<Node>
    reads m
  {
    set n | n in m.heap && OnList(m.chains, n)
  }

  /** Each string is short and in the bucket of its text, no two are equal, and `used` is their number, which is
      not above that of the buckets. */
  ghost predicate Pooled(m: Machine)
    reads m
  {
    Homes(m.chains, m.shift) && TextsDiffer(Pool(m)) && m.used == Total(m.chains) <= Pow2(m.shift)
  }

  ghost function Members(s: seq<Node>): set<Node> {
    set n | n in s
  }

  /** The lists of the pool apart from that of all other objects. */
  lemma {:induction false} PoolParts(m: Machine)
    requires m.Listed()
    ensures Buckets(m.slot, m.chains, Pool(m)) && IsList(m.alloced, m.objs)
    ensures m.heap == Pool(m) + Members(m.objs) && Pool(m) !! Members(m.objs)
    ensures forall i | 0 <= i < |m.chains| :: ListIn(m.chains[i], Pool(m))
  {
    hide IsList;
    var lists, k := m.Lists(), |m.chains|;
    assert lists[k] == m.objs && forall i | 0 <= i < k :: lists[i] == m.chains[i];
    forall n | n in m.heap ensures n in Pool(m) || n in m.objs {
      assert OnList(lists, n);
      var i :| 0 <= i < |lists| && n in lists[i];
      if i < k { assert n in m.chains[i]; }
    }
    forall n | n in Pool(m) ensures n !in m.objs {
      var i :| 0 <= i < k && n in m.chains[i];
      assert Apart(lists[i], lists[k]);
    }
    forall i | 0 <= i < k ensures ListIn(m.chains[i], Pool(m)) {
      assert ListIn(lists[i], m.heap);
      forall n | n in m.chains[i] ensures OnList(m.chains, n) {}
    }
    forall i, j | 0 <= i < j < k ensures Apart(m.chains[i], m.chains[j]) { assert Apart(lists[i], lists[j]); }
  }

  lemma {:induction false} PoolWhole(m: Machine, pool: set<Node>)
    requires Buckets(m.slot, m.chains, pool) && IsList(m.alloced, m.objs)
    requires m.heap == pool + Members(m.objs) && pool !! Members(m.objs)
    ensures m.Listed() && Pool(m) == pool
  {
    hide IsList;
    var lists, k := m.Lists(), |m.chains|;
    assert lists[k] == m.objs && forall i | 0 <= i < k :: lists[i] == m.chains[i];
    forall i | 0 <= i < |lists| ensures ListIn(lists[i], m.heap) {
      if i < k { assert ListIn(m.chains[i], pool); }
    }
    forall n | n in m.heap ensures OnList(lists, n) {
      if n in pool {
        assert OnList(m.chains, n);
        var i :| 0 <= i < k && n in m.chains[i];
        assert n in lists[i];
      } else {
        assert n in lists[k];
      }
    }
    forall i, j | 0 <= i < j < |lists| ensures Apart(lists[i], lists[j]) {
      assert ListIn(m.chains[i], pool);
      if j < k { assert Apart(m.chains[i], m.chains[j]); }
    }
    forall n | n in m.heap && OnList(m.chains, n) ensures n in pool {
      var i :| 0 <= i < k && n in m.chains[i];
      assert ListIn(m.chains[i], pool);
    }
  }

  // ------------------------------------------------------------------
  // Looking up
  // ------------------------------------------------------------------

  /** The pooled string with a text, if there is one. */
  method Lookup(m: Machine, z: seq<Byte>) returns (x: Node?)
    requires m.Listed() && Pooled(m)
    ensures if x == null then forall n | n in Pool(m) :: n.text != z else x in Pool(m) && x.text == z
  {
    hide Homes, Total, Holding, Machine.Listed;
    PoolParts(m);
    var i := HomeOf(z, m.shift);
    HomesSize(m.chains, m.shift);
    ghost var s := m.chains[i];
    ghost var t := 0;
    x := m.slot[i];
    while x != null
      invariant 0 <= t <= |s| && x == (if t < |s| then s[t] else null) && forall u | 0 <= u < t :: s[u].text != z
      decreases |s| - t
    {
      if x.text == z {
        assert ListIn(s, Pool(m)) && x in s;
        return;
      }
      IsListAt(m.slot[i], s, t);
      x := x.next;
      t := t + 1;
    }
    forall n | n in Pool(m) ensures n.text != z { AtHome(m, n); }
  }

  lemma {:induction false} HomesSize(ch: seq<seq<Node>>, shift: nat)
    requires Homes(ch, shift)
    ensures |ch| == Pow2(shift)
  {
  }

  lemma {:induction false} AtHome(m: Machine, n: Node)
    requires Homes(m.chains, m.shift) && n in Pool(m)
    ensures Home(n.text, m.shift) < |m.chains| && n in m.chains[Home(n.text, m.shift)]
  {
    var i :| 0 <= i < |m.chains| && n in m.chains[i];
    assert HomeList(m.chains[i], i, m.shift);
  }

  // ------------------------------------------------------------------
  // Putting in
  // ------------------------------------------------------------------

  /** Puts a string at the front of a bucket. */
  method Push(slot: array<Node?>, x: Node, i: nat, ghost ch: seq<seq<Node>>, ghost pool: set<Node>)
    requires i < slot.Length == |ch| && Buckets(slot, ch, pool) && x !in pool
    modifies slot, x`next
    ensures Buckets(slot, ch[i := [x] + ch[i]], pool + {x})
    ensures x.next == old(slot[i])
  {
    hide Holding;
    FrontHolding(ch, pool, x, i);
    x.next := slot[i];
    forall j | 0 <= j < |ch| ensures IsList(slot[j], ch[j]) && x !in ch[j] {
      assert old(IsList(slot[j], ch[j])) && ListIn(ch[j], pool);
      forall a | 0 <= a < |ch[j]| ensures ch[j][a].next == old(ch[j][a].next) { assert ch[j][a] in ch[j]; }
    }
    IsListNew(slot[i], ch[i], x, [x] + ch[i]);
    slot[i] := x;
    FrontIn(ch, pool, x, i);
  }

  lemma {:induction false} FrontIn(ch: seq<seq<Node>>, pool: set<Node>, x: Node, i: nat)
    requires i < |ch| && forall j | 0 <= j < |ch| :: ListIn(ch[j], pool)
    ensures var r := ch[i := [x] + ch[i]]; forall j | 0 <= j < |r| :: ListIn(r[j], pool + {x})
  {
    var r := ch[i := [x] + ch[i]];
    forall j | 0 <= j < |r| ensures ListIn(r[j], pool + {x}) { assert ListIn(ch[j], pool); }
  }

  lemma {:induction false} FrontHolding(ch: seq<seq<Node>>, pool: set<Node>, x: Node, i: nat)
    requires i < |ch| && Holding(ch, pool) && x !in pool
    ensures Holding(ch[i := [x] + ch[i]], pool + {x})
  {
    var r := ch[i := [x] + ch[i]];
    forall j | 0 <= j < |r| ensures ListIn(r[j], pool + {x}) { assert ListIn(ch[j], pool); }
    forall n | n in pool + {x} ensures OnList(r, n) {
      if n == x {
        assert n in r[i];
      } else {
        assert OnList(ch, n);
        var j :| 0 <= j < |ch| && n in ch[j];
        assert n in r[j];
      }
    }
    forall j, k | 0 <= j < k < |r| ensures Apart(r[j], r[k]) {
      assert Apart(ch[j], ch[k]) && ListIn(ch[j], pool) && ListIn(ch[k], pool);
    }
  }

  lemma {:induction false} FrontHome(ch: seq<seq<Node>>, shift: nat, x: Node, i: nat)
    requires Homes(ch, shift) && i == Home(x.text, shift) < |ch| && |x.text| < MAX_KPOOL_LEN
    ensures Homes(ch[i := [x] + ch[i]], shift) && Total(ch[i := [x] + ch[i]]) == Total(ch) + 1
  {
    hide Home;
    var r := ch[i := [x] + ch[i]];
    forall j | 0 <= j < |r| ensures HomeList(r[j], j, shift) { assert HomeList(ch[j], j, shift); }
    TotalUpdate(ch, i, [x] + ch[i]);
  }

  /** Moves the first string of an old bucket. */
  method MoveOne(slot: array<Node?>, x: Node, shift: nat, ghost rest: seq<Node>, ghost ch0: seq<seq<Node>>,
      ghost pool: set<Node>) returns (next: Node?, ghost ch: seq<seq<Node>>)
    requires Buckets(slot, ch0, pool) && Homes(ch0, shift) && rest != [] && IsList(x, rest)
    requires x !in pool && |x.text| < MAX_KPOOL_LEN
    modifies slot, x`next
    ensures IsList(next, rest[1..])
    ensures Buckets(slot, ch, pool + {x}) && Homes(ch, shift) && Total(ch) == Total(ch0) + 1
  {
    hide Buckets, Homes, Total;
    TailList(x, rest);
    ghost var tail := rest[1..];
    next := x.next;
    var i := HomeOf(x.text, shift);
    HomesSize(ch0, shift);
    BucketsSize(slot, ch0, pool);
    FrontHome(ch0, shift, x, i);
    Push(slot, x, i, ch0, pool);
    forall a | 0 <= a < |tail| ensures tail[a].next == old(tail[a].next) { assert tail[a] in tail; }
    ch := ch0[i := [x] + ch0[i]];
  }

  /** Moves the strings of an old bucket to the new ones. */
  method MoveList(slot: array<Node?>, first: Node?, shift: nat, ghost s: seq<Node>, ghost ch0: seq<seq<Node>>,
      ghost pool0: set<Node>) returns (ghost ch: seq<seq<Node>>)
    requires Buckets(slot, ch0, pool0) && Homes(ch0, shift) && IsList(first, s) && pool0 !! Members(s)
    requires forall n | n in s :: |n.text| < MAX_KPOOL_LEN
    modifies slot, s`next
    ensures Buckets(slot, ch, pool0 + Members(s)) && Homes(ch, shift) && Total(ch) == Total(ch0) + |s|
  {
    hide Buckets, Homes, Total, IsList, Members;
    ListDistinct(first, s);
    NoMember(s, pool0);
    ch := ch0;
    var x := first;
    ghost var t, pool := 0, pool0;
    assert s[0..] == s;
    while x != null
      invariant 0 <= t <= |s| && IsList(x, s[t..]) && Buckets(slot, ch, pool) && Homes(ch, shift)
      invariant pool == pool0 + Members(s[..t]) && Total(ch) == Total(ch0) + t
      decreases |s| - t
    {
      hide Buckets, Homes, Total, IsList, Members;
      ListHead(x, s[t..]);
      NextMember(s, t, pool0);
      ghost var n := s[t];
      x, ch := MoveOne(slot, x, shift, s[t..], ch, pool);
      pool := pool + {n};
      t := t + 1;
    }
    ListHead(x, s[t..]);
    assert s[..t] == s;
  }

  lemma {:induction false} ListHead(x: Node?, s: seq<Node>)
    requires IsList(x, s)
    ensures if s == [] then x == null else x == s[0]
  {
  }

  lemma {:induction false} ListDistinct(x: Node?, s: seq<Node>)
    requires IsList(x, s)
    ensures forall i, j | 0 <= i < j < |s| :: s[i] != s[j]
  {
  }

  lemma {:induction false} TailList(x: Node?, s: seq<Node>)
    requires IsList(x, s) && x != null
    ensures s != [] && s[0] == x && IsList(x.next, s[1..]) && x !in s[1..]
  {
    IsListAt(x, s, 0);
    TailIs(x, s, s[1..]);
  }

  lemma {:induction false} TailIs(x: Node, s: seq<Node>, r: seq<Node>)
    requires IsList(x, s) && s != [] && r == s[1..]
    ensures IsList(x.next, r)
  {
    IsListAt(x, s, 0);
    forall i | 0 <= i < |r| ensures r[i].next == (if i + 1 < |r| then r[i + 1] else null) {
      IsListAt(x, s, i + 1);
      assert i + 1 < |r| ==> r[i + 1] == s[i + 2];
    }
    forall i, j | 0 <= i < j < |r| ensures r[i] != r[j] { IsListAt(x, s, i + 1); }
  }

  lemma {:induction false} BucketsSize(slot: array<Node?>, ch: seq<seq<Node>>, pool: set<Node>)
    requires Buckets(slot, ch, pool)
    ensures |ch| == slot.Length
  {
  }

  lemma {:induction false} NoMember(s: seq<Node>, pool: set<Node>)
    ensures pool + Members(s[..0]) == pool
  {
    assert s[..0] == [];
  }

  lemma {:induction false} NextMember(s: seq<Node>, t: nat, pool: set<Node>)
    requires t < |s| && pool !! Members(s) && forall i, j | 0 <= i < j < |s| :: s[i] != s[j]
    ensures Members(s[..t + 1]) == Members(s[..t]) + {s[t]} && s[t] !in pool + Members(s[..t])
    ensures s[t..] != [] && s[t..][0] == s[t] && s[t..][1..] == s[t + 1..] && s[t] in s
  {
    assert s[..t + 1] == s[..t] + [s[t]];
    assert s[t] in Members(s);
  }

  /** Doubles the number of buckets. */
  method Resize(m: Machine)
    requires m.Listed() && Pooled(m)
    modifies m`slot, m`shift, m`chains, Pool(m)`next
    ensures m.Listed() && m.shift == old(m.shift) + 1 && fresh(m.slot) && Homes(m.chains, m.shift)
    ensures Pool(m) == old(Pool(m)) && Total(m.chains) == old(Total(m.chains))
  {
    hide Homes, Total, Holding, IsList, Buckets, Machine.Listed, TextsDiffer;
    PoolParts(m);
    ghost var all, pool := m.chains, Pool(m);
    var bak, shift := m.slot, m.shift + 1;
    BucketsSize(bak, all, pool);
    BucketLists(bak, all, pool);
    AllShort(all, m.shift);
    var slot := new Node?[Pow2(shift)](_ => null);
    ghost var ch := NoStrings(slot, shift);
    ghost var moved: set<Node> := {};
    var i := 0;
    assert all[..0] == [];
    NoTotal(0, []);
    while i < bak.Length
      invariant 0 <= i <= bak.Length == |all| && bak == old(m.slot) && fresh(slot)
      invariant Buckets(slot, ch, moved) && Homes(ch, shift) && Total(ch) == Total(all[..i])
      invariant forall j | i <= j < |all| :: IsList(bak[j], all[j]) && moved !! Members(all[j])
      invariant moved <= pool && forall j, n | 0 <= j < i && n in all[j] :: n in moved
      invariant IsList(m.alloced, m.objs)
    {
      hide Homes, Total, Holding, IsList, Buckets, Machine.Listed, TextsDiffer;
      ghost var s := all[i];
      assert ListIn(s, pool);
      TotalNext(all, i);
      ch := MoveBucket(bak, slot, i, shift, all, ch, moved, m.alloced, m.objs);
      moved := moved + Members(s);
      i := i + 1;
    }
    assert all[..i] == all;
    AllMoved(all, pool, moved);
    m.slot, m.shift, m.chains := slot, shift, ch;
    PoolWhole(m, pool);
  }

  /** Moves one old bucket; the others and the list of all other objects stay as they are. */
  method MoveBucket(bak: array<Node?>, slot: array<Node?>, i: nat, shift: nat, ghost all: seq<seq<Node>>,
      ghost ch0: seq<seq<Node>>, ghost moved: set<Node>, ghost alloced: Node?, ghost objs: seq<Node>)
    returns (ghost ch: seq<seq<Node>>)
    requires i < bak.Length == |all| && bak != slot && Buckets(slot, ch0, moved) && Homes(ch0, shift)
    requires forall j | i <= j < |all| :: IsList(bak[j], all[j]) && moved !! Members(all[j])
    requires forall j | i < j < |all| :: Apart(all[j], all[i])
    requires forall n | n in all[i] :: |n.text| < MAX_KPOOL_LEN
    requires IsList(alloced, objs) && Apart(objs, all[i])
    modifies slot, all[i]`next
    ensures Buckets(slot, ch, moved + Members(all[i])) && Homes(ch, shift) && Total(ch) == Total(ch0) + |all[i]|
    ensures forall j | i < j < |all| :: IsList(bak[j], all[j]) && (moved + Members(all[i])) !! Members(all[j])
    ensures IsList(alloced, objs)
  {
    hide Homes, Total, Buckets;
    ghost var s := all[i];
    ch := MoveList(slot, bak[i], shift, s, ch0, moved);
    forall j | i < j < |all| ensures IsList(bak[j], all[j]) && (moved + Members(s)) !! Members(all[j]) {
      assert old(IsList(bak[j], all[j])) && Apart(all[j], s);
      forall a | 0 <= a < |all[j]| ensures all[j][a].next == old(all[j][a].next) { assert all[j][a] in all[j]; }
    }
    forall a | 0 <= a < |objs| ensures objs[a].next == old(objs[a].next) { assert objs[a] in objs; }
  }

  /** New buckets are empty. */
  lemma {:induction false} NoStrings(slot: array<Node?>, shift: nat) returns (ch: seq<seq<Node>>)
    requires slot.Length == Pow2(shift) && forall i | 0 <= i < slot.Length :: slot[i] == null
    ensures Buckets(slot, ch, {}) && Homes(ch, shift) && Total(ch) == 0
  {
    ch := seq(Pow2(shift), _ => []);
    NoTotal(Pow2(shift), ch);
  }

  lemma {:induction false} NoTotal(n: nat, ch: seq<seq<Node>>)
    requires |ch| == n && forall i | 0 <= i < n :: ch[i] == []
    ensures Total(ch) == 0
  {
    if n > 0 { NoTotal(n - 1, ch[..n - 1]); }
  }

  lemma {:induction false} TotalNext(ch: seq<seq<Node>>, i: nat)
    requires i < |ch|
    ensures Total(ch[..i + 1]) == Total(ch[..i]) + |ch[i]|
  {
    assert ch[..i + 1][..i] == ch[..i];
  }

  lemma {:induction false} BucketLists(slot: array<Node?>, ch: seq<seq<Node>>, pool: set<Node>)
    requires Buckets(slot, ch, pool)
    ensures forall i | 0 <= i < |ch| :: IsList(slot[i], ch[i]) && ListIn(ch[i], pool)
    ensures forall i, j | 0 <= i < j < |ch| :: Apart(ch[j], ch[i])
  {
    hide IsList;
    forall i, j | 0 <= i < j < |ch| ensures Apart(ch[j], ch[i]) { assert Apart(ch[i], ch[j]); }
  }

  lemma {:induction false} AllShort(ch: seq<seq<Node>>, shift: nat)
    requires Homes(ch, shift)
    ensures forall i, n | 0 <= i < |ch| && n in ch[i] :: |n.text| < MAX_KPOOL_LEN
  {
    forall i, n | 0 <= i < |ch| && n in ch[i] ensures |n.text| < MAX_KPOOL_LEN { assert HomeList(ch[i], i, shift); }
  }

  lemma {:induction false} AllMoved(ch: seq<seq<Node>>, pool: set<Node>, moved: set<Node>)
    requires moved <= pool && forall n | n in pool :: OnList(ch, n)
    requires forall j, n | 0 <= j < |ch| && n in ch[j] :: n in moved
    ensures moved == pool
  {
  }

  // ------------------------------------------------------------------
  // Fetching
  // ------------------------------------------------------------------

  /** Puts in a new string, at home among the buckets, of which there are twice as many when the pool is full. */
  method Insert(m: Machine, x: Node)
    requires m.Listed() && Pooled(m) && x !in m.heap && |x.text| < MAX_KPOOL_LEN && x.refs == [] && !x.black
    requires forall n | n in Pool(m) :: n.text != x.text
    modifies m`slot, m`shift, m`used, m`chains, m`heap, m.slot, Pool(m)`next, x`next
    ensures m.Listed() && Pooled(m) && Pool(m) == old(Pool(m)) + {x} && m.heap == old(m.heap) + {x}
    ensures m.slot == old(m.slot) || fresh(m.slot)
    ensures (old(m.Rooted()) ==> m.Rooted()) && (old(m.NoBlack()) ==> m.NoBlack())
  {
    hide Homes, Total, Holding, IsList, Buckets, Machine.Listed;
    ghost var pool := Pool(m);
    var full := m.used >= Pow2(m.shift);
    if full { Resize(m); }
    Enter(m, x, pool);
    if old(m.Rooted()) {
      forall n | n in m.heap ensures RefsIn(m.heap, n) { assert n != x ==> RefsIn(old(m.heap), n); }
    }
  }

  /** Puts a string in with room for it. */
  method Enter(m: Machine, x: Node, ghost pool: set<Node>)
    requires m.Listed() && Homes(m.chains, m.shift) && Pool(m) == pool && x !in m.heap && |x.text| < MAX_KPOOL_LEN
    requires m.used == Total(m.chains) < Pow2(m.shift) && TextsDiffer(pool + {x})
    modifies m`used, m`chains, m`heap, m.slot, x`next
    ensures m.Listed() && Pooled(m) && Pool(m) == pool + {x} && m.heap == old(m.heap) + {x}
  {
    hide Homes, Total, Holding, IsList, Buckets, Machine.Listed, TextsDiffer;
    PoolParts(m);
    var i := HomeOf(x.text, m.shift);
    HomesSize(m.chains, m.shift);
    BucketsSize(m.slot, m.chains, pool);
    FrontHome(m.chains, m.shift, x, i);
    PushBeside(m.slot, x, i, m.chains, pool, m.alloced, m.objs);
    m.chains := m.chains[i := [x] + m.chains[i]];
    m.used := m.used + 1;
    m.heap := m.heap + {x};
    PoolWhole(m, pool + {x});
  }

  /** The same as `Push`, beside the list of all other objects. */
  method PushBeside(slot: array<Node?>, x: Node, i: nat, ghost ch: seq<seq<Node>>, ghost pool: set<Node>,
      ghost alloced: Node?, ghost objs: seq<Node>)
    requires i < slot.Length == |ch| && Buckets(slot, ch, pool) && x !in pool && IsList(alloced, objs) && x !in objs
    modifies slot, x`next
    ensures Buckets(slot, ch[i := [x] + ch[i]], pool + {x}) && IsList(alloced, objs)
  {
    hide Buckets;
    Push(slot, x, i, ch, pool);
    forall a | 0 <= a < |objs| ensures objs[a].next == old(objs[a].next) { assert objs[a] in objs; }
  }

  /** What a collection leaves of the pool. */
  lemma {:induction false} SweepKeeps(ch: seq<seq<Node>>, shift: nat, keep: set<Node>)
    requires Homes(ch, shift)
    ensures var r := KeptAll(ch, keep);
      Homes(r, shift) && Total(r) <= Total(ch) && forall n :: OnList(r, n) <==> OnList(ch, n) && n in keep
  {
    var r := KeptAll(ch, keep);
    forall i | 0 <= i < |r|
      ensures HomeList(r[i], i, shift) && forall n :: n in r[i] <==> n in ch[i] && n in keep
    {
      KeptMembers(ch[i], keep);
      assert HomeList(ch[i], i, shift);
    }
    KeptTotal(ch, keep, r);
  }

  lemma {:induction false} KeptTotal(ch: seq<seq<Node>>, keep: set<Node>, r: seq<seq<Node>>)
    requires |r| == |ch| && forall i | 0 <= i < |r| :: r[i] == Kept(ch[i], keep)
    ensures Total(r) <= Total(ch)
    decreases |ch|
  {
    if ch != [] {
      var n := |ch| - 1;
      KeptShorter(ch[n], keep);
      KeptTotal(ch[..n], keep, r[..n]);
    }
  }

  lemma {:induction false} KeptShorter(s: seq<Node>, keep: set<Node>)
    ensures |Kept(s, keep)| <= |s|
    decreases |s|
  {
    if s != [] { KeptShorter(s[..|s| - 1], keep); }
  }

  /** A collection keeps the pool in order, and pools no new string. */
  method CollectPooled(m: Machine)
    requires m.Listed() && m.Rooted() && m.NoBlack() && Pooled(m)
    modifies m`alloced, m`used, m`objs, m`chains, m`heap, m.slot, m.heap`next, m.heap`black
    ensures m.Listed() && m.NoBlack() && Pooled(m) && Pool(m) <= old(Pool(m)) && m.heap <= old(m.heap)
    ensures m.pause > 0 ==> Pool(m) == old(Pool(m)) && m.heap == old(m.heap)
    ensures m.pause == 0 ==> Pool(m) == old(Pool(m)) * old(m.Live())
    ensures m.Rooted() <==> m.pause > 0 || old(m.HeldSafe())
    ensures exists r: set<Node> :: m.IsLive(r, old(m.heap)) && LeftOf(old(Pool(m)), Pool(m), r, m.pause > 0)
  {
    hide Homes, Total, Holding, Machine.Listed, Machine.NoBlack, Machine.Rooted, Reachable, Kept, Machine.HeldSafe,
      Machine.Encloses;
    ghost var ch, live, pool, paused := m.chains, m.Live(), Pool(m), m.pause > 0;
    ghost var lists := m.Lists();
    m.Collect();
    if !paused {
      SweepKeeps(ch, m.shift, live);
      assert m.chains == KeptAll(ch, live) by {
        assert m.Lists() == KeptAll(lists, live) && lists[..|ch|] == ch;
        assert m.chains == m.Lists()[..|ch|];
      }
    }
  }

  /** The string object for a text: the pooled one, or a new one that its creator holds; when room is short for
      that, what is not needed is freed first. */
  method Fetch(m: Machine, z: seq<Byte>, full: bool) returns (x: Node)
    requires m.Listed() && m.Rooted() && m.NoBlack() && Pooled(m)
    modifies m`slot, m`shift, m`alloced, m`used, m`objs, m`chains, m`heap, m.slot, m.heap`next, m.heap`black
    ensures m.Listed() && m.NoBlack() && Pooled(m) && x.text == z && x in m.heap
    ensures x in old(Pool(m)) || (fresh(x) && x.gray && x.refs == [])
    ensures forall n | n in old(Pool(m)) && n.text == z :: |z| < 40 ==> x == n
    ensures |z| < 40 <==> x in Pool(m)
    ensures !full || m.pause > 0 ==>
      m.Rooted() && Pool(m) == old(Pool(m)) + (if |z| < 40 then {x} else {}) && m.heap == old(m.heap) + {x}
    ensures m.slot == old(m.slot) || fresh(m.slot)
  {
    hide Homes, Total, Holding, Machine.Listed, Machine.Rooted, Machine.NoBlack, Pooled;
    TextsAreOne(m);
    if |z| < MAX_KPOOL_LEN {
      var known := Lookup(m, z);
      if known != null { return known; }
    }
    x := Make(m, z, full);
  }

  /** A new string object, in the pool if it is short. */
  method Make(m: Machine, z: seq<Byte>, full: bool) returns (x: Node)
    requires m.Listed() && m.Rooted() && m.NoBlack() && Pooled(m)
    requires |z| < MAX_KPOOL_LEN ==> forall n | n in Pool(m) :: n.text != z
    modifies m`slot, m`shift, m`alloced, m`used, m`objs, m`chains, m`heap, m.slot, m.heap`next, m.heap`black
    ensures m.Listed() && m.NoBlack() && Pooled(m) && x.text == z && x in m.heap && fresh(x) && x.gray && x.refs == []
    ensures |z| < 40 <==> x in Pool(m)
    ensures !full || m.pause > 0 ==>
      m.Rooted() && Pool(m) == old(Pool(m)) + (if |z| < 40 then {x} else {}) && m.heap == old(m.heap) + {x}
    ensures m.slot == old(m.slot) || fresh(m.slot)
  {
    hide Homes, Total, Holding, Machine.Listed, Machine.Rooted, Machine.HeldSafe, Machine.Live, Pooled;
    x := new Node(z);
    Unknown(m, x);
    if full { CollectPooled(m); }
    if |z| < MAX_KPOOL_LEN {
      Insert(m, x);
    } else {
      Keep(m, x);
    }
  }

  lemma {:induction false} Unknown(m: Machine, x: Node)
    requires m.Rooted() && x !in m.heap
    ensures x !in m.Roots() && forall n | n in m.heap :: x !in n.refs
  {
    forall n | n in m.heap ensures x !in n.refs { assert RefsIn(m.heap, n); }
  }

  /** Puts a long string on the list of all other objects. */
  method Keep(m: Machine, x: Node)
    requires m.Listed() && m.NoBlack() && Pooled(m) && x !in m.heap && x.refs == [] && !x.black
    requires x !in m.Roots() && forall n | n in m.heap :: x !in n.refs
    modifies m`alloced, m`objs, m`heap, x`next
    ensures m.Listed() && m.NoBlack() && Pooled(m) && Pool(m) == old(Pool(m)) && x !in Pool(m)
    ensures m.heap == old(m.heap) + {x} && (m.Rooted() <==> old(m.Rooted()))
  {
    hide Homes, Total, Holding, Machine.Listed, Machine.Rooted, Machine.NoBlack;
    NotOnLists(m, x);
    m.Track(x);
  }

  lemma {:induction false} TextsAreOne(m: Machine)
    requires Pooled(m)
    ensures TextsDiffer(Pool(m))
  {
  }

  lemma {:induction false} NotOnLists(m: Machine, x: Node)
    requires m.Listed() && x !in m.heap
    ensures !OnList(m.chains, x)
  {
    PoolParts(m);
    forall i | 0 <= i < |m.chains| ensures x !in m.chains[i] { assert ListIn(m.chains[i], Pool(m)); }
  }

  method NewMachine() returns (m: Machine)
    ensures m.Listed() && m.Rooted() && m.NoBlack() && Pooled(m) && fresh(m) && fresh(m.heap) && fresh(m.slot)
    ensures Pool(m) == {}
  {
    m := new Machine();
    NoTotal(Pow2(m.shift), m.chains);
  }

  /** Over any run of fetches with no collection among them, short strings are the same object exactly if they
      are equal, however often the pool was doubled on the way. */
  method FetchAll(m: Machine, zs: seq<seq<Byte>>) returns (xs: seq<Node>)
    requires m.Listed() && m.Rooted() && m.NoBlack() && Pooled(m)
    modifies m`slot, m`shift, m`alloced, m`used, m`objs, m`chains, m`heap, m.slot, m.heap`next, m.heap`black
    ensures m.Listed() && m.Rooted() && m.NoBlack() && Pooled(m) && |xs| == |zs|
    ensures forall i | 0 <= i < |zs| :: xs[i].text == zs[i]
    ensures forall i, j | 0 <= i < |zs| && 0 <= j < |zs| &&
      |zs[i]| < 40 :: xs[i] == xs[j] <==> zs[i] == zs[j]
  {
    hide Pooled, Machine.Listed, Machine.Rooted, Machine.NoBlack;
    xs := [];
    while |xs| < |zs|
      invariant m.Listed() && m.Rooted() && m.NoBlack() && Pooled(m) && |xs| <= |zs|
      invariant fresh(m.heap - old(m.heap)) && (m.slot == old(m.slot) || fresh(m.slot))
      invariant forall i | 0 <= i < |xs| :: xs[i].text == zs[i] && (|zs[i]| < MAX_KPOOL_LEN ==> xs[i] in Pool(m))
      invariant forall i, j | 0 <= i < |xs| && 0 <= j < |xs| && |zs[i]| < MAX_KPOOL_LEN ::
        xs[i] == xs[j] <==> zs[i] == zs[j]
    {
      hide Pooled, Machine.Listed, Machine.Rooted, Machine.NoBlack;
      var x := Fetch(m, zs[|xs|], false);
      xs := xs + [x];
    }
  }
}
