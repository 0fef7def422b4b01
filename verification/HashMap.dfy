/** The hash map, with its operations in place on the table. */
module HashMap {
  import opened Basics
  import opened HashTable

  /** The smallest shift whose power of two exceeds `n`. */
  method Log2x(n: nat) returns (i: nat)
    ensures Pow2(i) > n && (i > 0 ==> Pow2(i - 1) <= n)
  {
    i := 0;
    while Pow2(i) <= n
      invariant i > 0 ==> Pow2(i - 1) <= n
      decreases n + 1 - Pow2(i)
    {
      i := i + 1;
    }
  }

  /** The table with the key written into cell `i`. */
  ghost function Keyed<K, V>(s: seq<Kvi<K, V>>, i: nat, key: K): seq<Kvi<K, V>>
    requires i < |s|
  {
    s[i := s[i].(k := Some(key))]
  }

  class HMap<K(==, !new), V> {
    const hash: K -> nat
    var shift: nat
    var item: array<Kvi<K, V>>
    var free: nat
    /** The cells of the chain of each home. */
    ghost var chains: seq<seq<nat>>

    ghost predicate Sized()
      reads this
    {
      shift >= 1 && item.Length == Pow2(shift) && free == item.Length - 1
    }

    ghost predicate Valid()
      reads this, item
    {
      Sized() && Shape(item[..], chains, hash)
    }

    /** Valid once the key is written into cell `i`. */
    ghost predicate Pending(i: nat, key: K)
      reads this, item
    {
      Sized() && i < item.Length && Shape(Keyed(item[..], i, key), chains, hash) && IsUsed(item[..], i)
    }

    ghost function Contents(): map<K, Option<V>>
      reads this, item
    {
      Entries(item[..])
    }

    /** A map for `count` entries, or for 31 if no count is given. */
    constructor (hash: K -> nat, count: int)
      ensures Valid() && Contents() == map[] && this.hash == hash && fresh(item)
      ensures count > 0 ==> item.Length > count
    {
      var k := 5;
      if count > 0 { k := Log2x(count); }
      var cells := new Kvi<K, V>[Pow2(k)](_ => Blank());
      this.hash := hash;
      shift := k;
      item := cells;
      free := cells.Length - 1;
      chains := seq(cells.Length, _ => []);
      new;
      BlankShape(item[..], chains, hash);
    }

    /** The cell for a key at home in a free cell, or -1 for none: the last free one, but never cell 0. */
    method AllocFree() returns (f: nat)
      requires Sized() && item.Length >= 2
      ensures if f == 0 then !HasFree(item[..]) else f < item.Length && item[f].flag == FREE
    {
      f := free;
      while f > 0
        invariant f < item.Length
        invariant forall j | f < j < item.Length :: item[j].flag != FREE
      {
        if item[f].flag == FREE { return; }
        f := f - 1;
      }
    }

    /** The value of a key, or nil. */
    method Find(key: K) returns (v: Option<V>)
      requires Valid()
      ensures v == if key in Contents() then Contents()[key] else None
    {
      var h := hash(key);
      var slot := Position(h, item.Length);
      ghost var s, c := item[..], chains[slot];
      NoEntry(s, chains, hash, key);
      assert IsChain(s, c, slot);
      if item[slot].flag == SLOT {
        var i := Some(slot);
        ghost var t := 0;
        while i.Some?
          invariant t <= |c| && i == (if t < |c| then Some(c[t]) else None)
          invariant forall u | 0 <= u < t :: c[u] < |s| && s[c[u]].k != Some(key)
          decreases |c| - t
        {
          MemberAt(s, chains, hash, slot, t);
          assert s[c[t]] == item[c[t]];
          if item[i.value].hash == h && item[i.value].k == Some(key) {
            FoundEntry(s, chains, hash, key, c[t]);
            return item[i.value].v;
          }
          i := item[i.value].next;
          t := t + 1;
        }
      }
      NotHeld(s, chains, hash, key);
      return None;
    }
  
    /** 2 for a table without a free cell, which a larger one has to replace. */
    ghost function Fullness(): nat
      reads this, item
    {
      if HasFree(item[..]) then 0 else 2
    }

    /** The cell that is given to a key: its own if it has one. The key is still to be written into it. */
    method HIndex(key: K) returns (i: nat)
      requires Valid()
      modifies this, item
      ensures Pending(i, key) && (item == old(item) || fresh(item))
      ensures Entries(Keyed(item[..], i, key)) == old(Contents())[key := item[i].v]
      ensures key in old(Contents()) ==> item[i].v == old(Contents())[key]
      ensures old(HasFree(item[..])) ==>
        item == old(item) && shift == old(shift) && Used(item[..]) <= Used(old(item[..])) + 1
      ensures old(HasFree(item[..])) && key !in old(Contents()) ==>
        item[i].v == Left(old(item[..]), Position(hash(key), |old(item[..])|))
      decreases Fullness(), 1
    {
      var h := hash(key);
      var slot := Position(h, item.Length);
      ghost var s := item[..];
      NoEntry(s, chains, hash, key);
      assert IsChain(s, chains[slot], slot);
      match item[slot].flag {
        case FREE =>
          assert s[slot] == Blank() by { assert CellOk(s, chains, hash, slot); }
          HomePut(s, chains, hash, key);
          item[slot] := item[slot].(flag := SLOT, hash := h);
          chains := chains[slot := [slot]];
          ghost var r := s[slot := Entry(key, h, None, None, SLOT)];
          assert Keyed(item[..], slot, key) == r;
          UsedUpdate(s, slot, item[slot]);
          assert item[..] == s[slot := item[slot]];
          assert HasFree(s);
          i := slot;
        case SLOT => i := IndexIfHead(key, slot, h);
        case NODE => i := IndexIfNode(key, slot, h);
      }
    }

    /** The home of the key is the head of its chain. */
    method IndexIfHead(key: K, slot: nat, h: nat) returns (i: nat)
      requires Valid() && h == hash(key) && slot == Position(h, item.Length) && item[slot].flag == SLOT
      modifies this, item
      ensures Pending(i, key) && (item == old(item) || fresh(item))
      ensures Entries(Keyed(item[..], i, key)) == old(Contents())[key := item[i].v]
      ensures key in old(Contents()) ==> item[i].v == old(Contents())[key]
      ensures old(HasFree(item[..])) ==>
        item == old(item) && shift == old(shift) && Used(item[..]) <= Used(old(item[..])) + 1
      ensures old(HasFree(item[..])) && key !in old(Contents()) ==> item[i].v == None
      decreases Fullness(), 0
    {
      hide Shape, Entries, Used, HasFree, Position;
      var found, pos := ScanChain(key, slot, h);
      if found { return pos; }
      var fnd := AllocFree();
      if fnd == 0 {
        Resize(shift + 1);
        i := HIndex(key);
      } else {
        Link(key, slot, h, pos, fnd);
        i := fnd;
      }
    }

    /** Looks for a key in the chain of its home; if it is not there, `pos` is the last of the chain. */
    method ScanChain(key: K, slot: nat, h: nat) returns (found: bool, pos: nat)
      requires Valid() && h == hash(key) && slot == Position(h, item.Length) && item[slot].flag == SLOT
      ensures slot < |chains| && pos < item.Length
      ensures if found then
          Pending(pos, key) && Entries(Keyed(item[..], pos, key)) == Contents()[key := item[pos].v] &&
          key in Contents() && item[pos].v == Contents()[key]
        else
          key !in Contents() && !Holds(item[..], key) && chains[slot] != [] && pos == chains[slot][|chains[slot]| - 1]
    {
      ghost var s, c := item[..], chains[slot];
      assert IsChain(s, c, slot);
      NoEntry(s, chains, hash, key);
      pos := slot;
      var at := Some(slot);
      ghost var t := 0;
      while at.Some?
        invariant t <= |c| && at == (if t < |c| then Some(c[t]) else None)
        invariant t > 0 ==> pos == c[t - 1]
        invariant forall u | 0 <= u < t :: c[u] < |s| && s[c[u]].k != Some(key)
        decreases |c| - t
      {
        MemberAt(s, chains, hash, slot, t);
        pos := at.value;
        assert s[pos] == item[pos];
        if item[pos].hash == h && item[pos].k == Some(key) {
          FoundEntry(s, chains, hash, key, pos);
          assert Keyed(s, pos, key) == s;
          return true, pos;
        }
        at := item[pos].next;
        t := t + 1;
      }
      NotHeld(s, chains, hash, key);
      return false, pos;
    }

    /** Makes the free cell `fnd` the end of the chain of `slot`, after `pos`. */
    method Link(key: K, slot: nat, h: nat, pos: nat, fnd: nat)
      requires Valid() && h == hash(key) && slot == Position(h, item.Length) && item[slot].flag == SLOT
      requires 0 < fnd < item.Length && item[fnd].flag == FREE && !Holds(item[..], key)
      requires slot < |chains| && chains[slot] != [] && pos == chains[slot][|chains[slot]| - 1]
      modifies this`chains, item
      ensures Pending(fnd, key) && item[fnd].v == None
      ensures Entries(Keyed(item[..], fnd, key)) == old(Contents())[key := None]
      ensures Used(item[..]) == Used(old(item[..])) + 1 && old(HasFree(item[..]))
    {
      hide Shape, Entries, Used, HasFree, Holds, Position;
      ghost var s, c := item[..], chains[slot];
      Linked(s, chains, hash, key, fnd);
      item[fnd] := item[fnd].(hash := h, flag := NODE, next := item[pos].next);
      item[pos] := item[pos].(next := Some(fnd));
      chains := chains[slot := c + [fnd]];
      assert item[..] == LinkedTable(s, pos, fnd, h);
    }

    /** The home of the key holds an entry of another chain, which moves to a free cell. */
    method IndexIfNode(key: K, slot: nat, h: nat) returns (i: nat)
      requires Valid() && h == hash(key) && slot == Position(h, item.Length) && item[slot].flag == NODE
      modifies this, item
      ensures Pending(i, key) && (item == old(item) || fresh(item))
      ensures Entries(Keyed(item[..], i, key)) == old(Contents())[key := item[i].v]
      ensures key in old(Contents()) ==> item[i].v == old(Contents())[key]
      ensures old(HasFree(item[..])) ==>
        item == old(item) && shift == old(shift) && Used(item[..]) <= Used(old(item[..])) + 1 &&
          item[i].v == old(item[slot].v)
      decreases Fullness(), 0
    {
      ghost var s := item[..];
      NoEntry(s, chains, hash, key);
      assert CellOk(s, chains, hash, slot) && IsChain(s, chains[slot], slot);
      var fnd := AllocFree();
      if fnd == 0 {
        Resize(shift + 1);
        i := HIndex(key);
      } else {
        var prev := Before(slot);
        MoveAway(key, slot, h, prev, fnd);
        i := slot;
      }
    }

    /** The entry whose link leads to `slot`, found from the head of its chain. */
    method Before(slot: nat) returns (prev: nat)
      requires Valid() && slot < item.Length && item[slot].flag == NODE
      ensures IsBefore(item[..], chains, slot, prev)
    {
      ghost var s := item[..];
      assert CellOk(s, chains, hash, slot);
      var slotH := hash(item[slot].k.value);
      prev := Position(slotH, item.Length);
      ghost var q, c := prev, chains[prev];
      ghost var t :| 0 <= t < |c| && c[t] == slot;
      assert IsChain(s, c, q);
      MemberAt(s, chains, hash, q, t);
      ghost var u := 0;
      while item[prev].next != Some(slot)
        invariant u < t && prev == c[u] && prev < item.Length
        decreases t - u
      {
        MemberAt(s, chains, hash, q, u);
        assert s[prev] == item[prev];
        u := u + 1;
        MemberAt(s, chains, hash, q, u);
        prev := item[prev].next.value;
      }
      MemberAt(s, chains, hash, q, u);
      assert s[prev] == item[prev];
      assert IsBeforeAt(s, chains, slot, prev, t);
    }

    /** Moves the entry in `slot` to the free cell `fnd`, and begins a chain in `slot`. */
    method MoveAway(key: K, slot: nat, h: nat, prev: nat, fnd: nat)
      requires Valid() && h == hash(key) && slot == Position(h, item.Length) && item[slot].flag == NODE
      requires 0 < fnd < item.Length && item[fnd].flag == FREE && IsBefore(item[..], chains, slot, prev)
      modifies this`chains, item
      ensures Pending(slot, key) && item[slot].v == old(item[slot].v)
      ensures Entries(Keyed(item[..], slot, key)) == old(Contents())[key := item[slot].v]
      ensures Used(item[..]) == Used(old(item[..])) + 1 && old(HasFree(item[..])) && !old(Holds(item[..], key))
    {
      hide Shape, Entries, Used, HasFree, Holds, Position;
      ghost var s := item[..];
      ghost var t :| IsBeforeAt(s, chains, slot, prev, t);
      Moved(s, chains, hash, key, prev, t, fnd);
      ghost var q := Home(s, slot);
      item[fnd] := Kvi(item[slot].next, hash(item[slot].k.value), item[slot].k, item[slot].v, NODE);
      item[prev] := item[prev].(next := Some(fnd));
      item[slot] := item[slot].(hash := h, flag := SLOT, next := None);
      chains := Rechained(chains, q, t, slot, fnd);
      assert item[..] == MovedTable(s, prev, slot, fnd, h);
    }

    /** An empty table of a larger size. */
    method Renew(k: nat)
      requires Valid() && k > shift
      modifies this
      ensures Valid() && Contents() == map[] && fresh(item) && shift == k && Used(item[..]) == 0
      ensures item.Length >= 2 * old(item.Length)
    {
      var cells := new Kvi<K, V>[Pow2(k)](_ => Blank());
      Pow2Grows(shift, k);
      item := cells;
      free := cells.Length - 1;
      shift := k;
      chains := seq(cells.Length, _ => []);
      BlankShape(item[..], chains, hash);
      UsedBlank(item[..]);
    }

    /** A larger table with the same entries. */
    method Resize(k: nat)
      requires Valid() && k > shift
      modifies this, item
      ensures Valid() && Contents() == old(Contents()) && fresh(item) && shift == k && HasFree(item[..])
      decreases 1, 0
    {
      var bak := item;
      ghost var s, ch := bak[..], chains;
      UsedAll(s);
      Renew(k);
      var cells := item;
      var i := 0;
      while i < bak.Length
        invariant i <= bak.Length && bak[..] == s && item == cells && shift == k
        invariant Valid() && Contents() == Entries(s[..i]) && Used(item[..]) <= Used(s[..i])
        modifies this, cells
      {
        hide Shape, HasFree;
        Roomy(item[..], chains, hash, s, i);
        EntriesStep(s, ch, hash, i);
        if bak[i].flag != FREE { Store(bak[i].k.value, bak[i].v); }
        i := i + 1;
      }
      assert s[..bak.Length] == s;
      Roomy(item[..], chains, hash, s, bak.Length);
    }

    /** The cell of a key, whose value may then be written; until then a new key has the value that was left there. */
    method Put(key: K) returns (i: nat)
      requires Valid()
      modifies this, item
      ensures Valid() && (item == old(item) || fresh(item))
      ensures i < item.Length && IsUsed(item[..], i) && item[i].k == Some(key)
      ensures Contents() == old(Contents())[key := item[i].v]
      ensures key in old(Contents()) ==> Contents() == old(Contents())
      ensures old(HasFree(item[..])) ==>
        item == old(item) && shift == old(shift) && Used(item[..]) <= Used(old(item[..])) + 1
      ensures old(HasFree(item[..])) && key !in old(Contents()) ==>
        item[i].v == Left(old(item[..]), Position(hash(key), |old(item[..])|))
      decreases Fullness(), 2
    {
      i := HIndex(key);
      ghost var s := item[..];
      UsedUpdate(s, i, s[i].(k := Some(key)));
      item[i] := item[i].(k := Some(key));
      assert item[..] == Keyed(s, i, key);
    }

    /** The value is stored through the cell that `Put` gives. */
    method Store(key: K, v: Option<V>)
      requires Valid()
      modifies this, item
      ensures Valid() && Contents() == old(Contents())[key := v] && (item == old(item) || fresh(item))
      ensures old(HasFree(item[..])) ==>
        item == old(item) && shift == old(shift) && Used(item[..]) <= Used(old(item[..])) + 1
      decreases Fullness(), 3
    {
      var i := Put(key);
      WriteValue(item[..], chains, hash, i, v);
      ghost var s := item[..];
      item[i] := item[i].(v := v);
      assert item[..] == s[i := s[i].(v := v)];
    }
  }

  function LinkedTable<K, V>(s: seq<Kvi<K, V>>, pos: nat, f: nat, h: nat): seq<Kvi<K, V>>
    requires pos < |s| && f < |s|
  {
    s[f := s[f].(hash := h, flag := NODE, next := s[pos].next)][pos := s[pos].(next := Some(f))]
  }

  lemma {:induction false} Linked<K(!new), V>(s: seq<Kvi<K, V>>, ch: seq<seq<nat>>, hash: K -> nat, key: K, f: nat)
    requires Shape(s, ch, hash) && 0 < f < |s| && s[f].flag == FREE && !Holds(s, key)
    requires var p := Position(hash(key), |s|); s[p].flag == SLOT && ch[p] != []
    ensures var p := Position(hash(key), |s|);
      var pos := ch[p][|ch[p]| - 1];
      pos < |s| && s[pos].next == None && pos != f &&
      var r := LinkedTable(s, pos, f, hash(key));
      Shape(Keyed(r, f, key), ch[p := ch[p] + [f]], hash) && IsUsed(r, f) && r[f].v == None &&
      Entries(Keyed(r, f, key)) == Entries(s)[key := None] && Used(r) == Used(s) + 1 && HasFree(s)
  {
    var p := Position(hash(key), |s|);
    var c := ch[p];
    var pos := c[|c| - 1];
    assert s[f] == Blank() by { assert CellOk(s, ch, hash, f); }
    MemberAt(s, ch, hash, p, |c| - 1);
    AppendPut(s, ch, hash, key, f);
    var r := LinkedTable(s, pos, f, hash(key));
    UsedUpdate(s, f, r[f]);
    UsedUpdate(s[f := r[f]], pos, r[pos]);
    hide Shape, Entries, Used;
    assert Keyed(r, f, key) == Appended(s, pos, f, key, hash(key));
  }

  function MovedTable<K, V>(s: seq<Kvi<K, V>>, prev: nat, p: nat, f: nat, h: nat): seq<Kvi<K, V>>
    requires prev < |s| && p < |s| && f < |s|
  {
    s[f := s[p].(flag := NODE)][prev := s[prev].(next := Some(f))][p := s[p].(hash := h, flag := SLOT, next := None)]
  }

  lemma {:induction false} Moved<K(!new), V>(s: seq<Kvi<K, V>>, ch: seq<seq<nat>>, hash: K -> nat, key: K, prev: nat,
      t: nat, f: nat)
    requires Shape(s, ch, hash) && 0 < f < |s| && s[f].flag == FREE
    requires s[Position(hash(key), |s|)].flag == NODE && IsBeforeAt(s, ch, Position(hash(key), |s|), prev, t)
    ensures var p := Position(hash(key), |s|);
      s[p].k.Some? && s[p].hash == hash(s[p].k.value) && prev != p && prev != f && p != f && !Holds(s, key) &&
        HasFree(s) &&
      var r := MovedTable(s, prev, p, f, hash(key));
      Shape(Keyed(r, p, key), Rechained(ch, Home(s, p), t, p, f), hash) && IsUsed(r, p) &&
      Entries(Keyed(r, p, key)) == Entries(s)[key := s[p].v] && Used(r) == Used(s) + 1
  {
    var p := Position(hash(key), |s|);
    assert CellOk(s, ch, hash, p);
    EvictBasics(s, ch, hash, key, t, f);
    EvictPut(s, ch, hash, key, t, f);
    var r := MovedTable(s, prev, p, f, hash(key));
    UsedUpdate(s, f, r[f]);
    UsedUpdate(s[f := r[f]], prev, r[prev]);
    UsedUpdate(s[f := r[f]][prev := r[prev]], p, r[p]);
    hide Shape, Entries, Used;
    assert Keyed(r, p, key) == Evicted(s, prev, p, f, key, hash(key));
  }

  ghost predicate IsBeforeAt<K, V>(s: seq<Kvi<K, V>>, ch: seq<seq<nat>>, slot: nat, prev: nat, t: nat) {
    IsTable(s) && |ch| == |s| && slot < |s| && prev < |s| &&
    var c := ch[Home(s, slot)];
    0 < t < |c| && c[t] == slot && c[t - 1] == prev
  }

  /** `prev` comes before `slot` in a chain. */
  ghost predicate IsBefore<K, V>(s: seq<Kvi<K, V>>, ch: seq<seq<nat>>, slot: nat, prev: nat) {
    exists t: nat :: IsBeforeAt(s, ch, slot, prev, t)
  }

  /** What a new key finds in its cell: the value of the entry that had to move away, or nil. */
  ghost function Left<K, V>(s: seq<Kvi<K, V>>, home: nat): Option<V>
    requires home < |s|
  {
    if s[home].flag == NODE then s[home].v else None
  }

  /** A table of twice the size is never full while the old one is copied. */
  lemma {:induction false} Roomy<K, V>(r: seq<Kvi<K, V>>, ch: seq<seq<nat>>, hash: K -> nat, s: seq<Kvi<K, V>>, i: nat)
    requires Shape(r, ch, hash) && |r| >= 2 * |s| && i <= |s| && s != [] && s[0].flag == FREE && Used(r) <= Used(s[..i])
    ensures HasFree(r)
  {
    UsedPrefix(s, i);
    UsedAll(s);
    UsedAll(r);
  }

  lemma {:induction false} EntriesStep<K, V>(s: seq<Kvi<K, V>>, ch: seq<seq<nat>>, hash: K -> nat, i: nat)
    requires Shape(s, ch, hash) && i < |s|
    ensures s[i].flag == FREE ==> Entries(s[..i + 1]) == Entries(s[..i]) && Used(s[..i + 1]) == Used(s[..i])
    ensures s[i].flag != FREE ==>
      s[i].k.Some? && Entries(s[..i + 1]) == Entries(s[..i])[s[i].k.value := s[i].v] &&
        Used(s[..i + 1]) == Used(s[..i]) + 1
  {
    assert CellOk(s, ch, hash, i);
    assert s[..i + 1][..i] == s[..i];
  }

  lemma {:induction false} UsedBlank<K, V>(s: seq<Kvi<K, V>>)
    requires forall i | 0 <= i < |s| :: s[i] == Blank()
    ensures Used(s) == 0
    decreases |s|
  {
    if s != [] { UsedBlank(s[..|s| - 1]); }
  }

  lemma {:induction false} BlankShape<K(!new), V>(s: seq<Kvi<K, V>>, ch: seq<seq<nat>>, hash: K -> nat)
    requires IsTable(s) && |ch| == |s|
    requires forall i | 0 <= i < |s| :: s[i] == Blank() && ch[i] == []
    ensures Shape(s, ch, hash) && Entries(s) == map[]
  {
    forall p | 0 <= p < |s| ensures IsChain(s, ch[p], p) && CellOk(s, ch, hash, p) {
    }
    assert KeysDiffer(s);
    assert IsMapOf(s, map[]) by {
      forall k: K ensures !Holds(s, k) {
        forall i: nat | i < |s| ensures !IsUsed(s, i) { assert s[i] == Blank(); }
      }
    }
    MapUnique(s, map[]);
  }
}
