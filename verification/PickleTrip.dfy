/** A variable is dumped and loaded again: what is on the stack then is what the variable held. */
module PickleTrip {
  import opened Basics
  import opened PickleFormat
  import opened Pickle
  import opened PickleLoad

  /** The value is what the variable holds, but with zero for the least integer; `busy` are the objects that the
      variable is inside of. */
  ghost predicate Denotes(heap: set<Obj>, busy: set<Obj>, c: Cell, v: Val)
    reads heap`body
    decreases heap - busy, 1
  {
    match c
    case CNil => v == Nil
    case CInt(i) => v == Int(if i == -0x8000_0000_0000_0000 then 0 else i)
    case CBool(n) => v == Bool(n)
    case CStr(z) => v == Str(z)
    case CObj(o) =>
      o in heap && o !in busy &&
      (assert heap - (busy + {o}) < heap - busy by { assert o in heap - busy; }
       match o.body
       case Elems(elems) =>
         v.Arr? && |v.elems| == |elems| &&
         forall i | 0 <= i < |elems| :: Denotes(heap, busy + {o}, elems[i], v.elems[i])
       case Table(kind, item) => v.Map? && v.kind == kind && DenotesMap(heap, busy + {o}, item, v.m))
    case COther => false
  }

  /** The keys of the map are those of the entries in use, each with the value of such an entry. */
  ghost predicate DenotesMap(heap: set<Obj>, busy: set<Obj>, item: seq<Entry>, m: map<Val, Val>)
    reads heap`body
    decreases heap - busy, 2
  {
    (forall i | 0 <= i < |item| && item[i].flag :: exists k | k in m :: Denotes(heap, busy, item[i].k, k)) &&
    forall k | k in m :: exists i | 0 <= i < |item| && item[i].flag ::
      Denotes(heap, busy, item[i].k, k) && Denotes(heap, busy, item[i].v, m[k])
  }

  /** What a variable unfolds to has the value that the variable denotes. */
  lemma {:induction false} UnfoldDenotes(heap: set<Obj>, busy: set<Obj>, c: Cell)
    requires IsHeap(heap) && CellIn(heap, c) && Unfold(heap, busy, c).Some?
    requires Value(Zeroed(Unfold(heap, busy, c).value)).Some?
    ensures Denotes(heap, busy, c, Value(Zeroed(Unfold(heap, busy, c).value)).value)
    decreases heap - busy, 0
  {
    hide UnfoldAll, ValueAll, ValuePairs, ZeroedAll, DenotesMap, Used;
    if c.CObj? {
      var o := c.o;
      assert o in heap - busy && BodyIn(heap, o.body);
      match o.body {
        case Elems(elems) => ElemsDenote(heap, busy + {o}, elems);
        case Table(_, item) => TableDenotes(heap, busy + {o}, item);
      }
    }
  }

  lemma {:induction false} NilDenotes(heap: set<Obj>, busy: set<Obj>, c: Cell, v: Val)
    requires Denotes(heap, busy, c, v)
    ensures v.Nil? <==> c.CNil?
  {
  }

  /** One member of what was unfolded. */
  lemma {:induction false} MemberDenotes(heap: set<Obj>, busy: set<Obj>, cs: seq<Cell>, j: nat)
    requires IsHeap(heap) && AllIn(heap, cs) && j < |cs| && UnfoldAll(heap, busy, cs).Some?
    ensures |UnfoldAll(heap, busy, cs).value| == |cs|
    ensures var v := Value(ZeroedAll(UnfoldAll(heap, busy, cs).value)[j]);
      v.Some? ==> Denotes(heap, busy, cs[j], v.value)
    decreases heap - busy, 1
  {
    hide Unfold, UnfoldAll, Denotes, Value, Zeroed;
    UnfoldAllLength(heap, busy, cs);
    UnfoldAt(heap, busy, cs, j);
    ZeroedAt(UnfoldAll(heap, busy, cs).value, j);
    if Value(Zeroed(Unfold(heap, busy, cs[j]).value)).Some? { UnfoldDenotes(heap, busy, cs[j]); }
  }

  lemma {:induction false} UnfoldAt(heap: set<Obj>, busy: set<Obj>, cs: seq<Cell>, j: nat)
    requires j < |cs| && UnfoldAll(heap, busy, cs).Some?
    ensures var s := UnfoldAll(heap, busy, cs).value; j < |s| && Unfold(heap, busy, cs[j]) == Some(s[j])
    decreases |cs|
  {
    hide Unfold;
    UnfoldAllLength(heap, busy, cs[..|cs| - 1]);
    if j < |cs| - 1 { UnfoldAt(heap, busy, cs[..|cs| - 1], j); }
  }

  lemma {:induction false} ValueAt(s: seq<Tree>, j: nat)
    requires j < |s| && ValueAll(s).Some?
    ensures |ValueAll(s).value| == |s| && Value(s[j]) == Some(ValueAll(s).value[j])
  {
    hide Value;
    if |s| > 1 { ValueAt(s[1..], if j > 0 then j - 1 else 0); }
  }

  lemma {:induction false} ElemsDenote(heap: set<Obj>, busy: set<Obj>, cs: seq<Cell>)
    requires IsHeap(heap) && AllIn(heap, cs) && UnfoldAll(heap, busy, cs).Some?
    requires ValueAll(ZeroedAll(UnfoldAll(heap, busy, cs).value)).Some?
    ensures var vs := ValueAll(ZeroedAll(UnfoldAll(heap, busy, cs).value)).value;
      |vs| == |cs| && forall i | 0 <= i < |cs| :: Denotes(heap, busy, cs[i], vs[i])
    decreases heap - busy, 2
  {
    hide UnfoldAll, ValueAll, ZeroedAll, Denotes, Value;
    UnfoldAllLength(heap, busy, cs);
    var r := ZeroedAll(UnfoldAll(heap, busy, cs).value);
    if cs == [] { NoValues(r); } else { ValueAt(r, 0); }
    forall i | 0 <= i < |cs| ensures Denotes(heap, busy, cs[i], ValueAll(r).value[i]) {
      ValueAt(r, i);
      MemberDenotes(heap, busy, cs, i);
    }
  }

  lemma {:induction false} NoValues(r: seq<Tree>)
    ensures r == [] ==> ValueAll(r) == Some([])
  {
  }

  lemma {:induction false} TableDenotes(heap: set<Obj>, busy: set<Obj>, item: seq<Entry>)
    requires IsHeap(heap) && AllIn(heap, Used(item)) && UnfoldAll(heap, busy, Used(item)).Some?
    requires ValuePairs(map[], ZeroedAll(UnfoldAll(heap, busy, Used(item)).value)).Some?
    ensures DenotesMap(heap, busy, item, ValuePairs(map[], ZeroedAll(UnfoldAll(heap, busy, Used(item)).value)).value)
    decreases heap - busy, 2
  {
    hide UnfoldAll, ValuePairs, ZeroedAll, Denotes, Value, Used, Zeroed;
    var cs := Used(item);
    var r := ZeroedAll(UnfoldAll(heap, busy, cs).value);
    var m := ValuePairs(map[], r).value;
    UnfoldAllLength(heap, busy, cs);
    forall i | 0 <= i < |item| && item[i].flag ensures exists k | k in m :: Denotes(heap, busy, item[i].k, k) {
      var j := PlaceOf(item, i);
      KeyGoes(map[], r, j);
      MemberDenotes(heap, busy, cs, j);
      assert Denotes(heap, busy, item[i].k, Value(r[j]).value);
    }
    forall k | k in m
      ensures exists i | 0 <= i < |item| && item[i].flag ::
        Denotes(heap, busy, item[i].k, k) && Denotes(heap, busy, item[i].v, m[k])
    {
      var j := KeyFrom(map[], r, k);
      var i := EntryOf(item, j);
      MemberDenotes(heap, busy, cs, j);
      MemberDenotes(heap, busy, cs, j + 1);
      assert Denotes(heap, busy, item[i].k, k) && Denotes(heap, busy, item[i].v, m[k]);
    }
  }

  /** Every key of the pairs is in the map, and what was in it stays. */
  lemma {:induction false} KeyGoes(m: map<Val, Val>, s: seq<Tree>, j: nat)
    requires j + 1 < |s| && j % 2 == 0 && ValuePairs(m, s).Some?
    ensures Value(s[j]).Some? && Value(s[j]).value in ValuePairs(m, s).value
    decreases s
  {
    hide Value;
    var m1 := m[Value(s[0]).value := Value(s[1]).value];
    if j == 0 { KeysStay(m1, s[2..]); } else { KeyGoes(m1, s[2..], j - 2); }
  }

  lemma {:induction false} KeysStay(m: map<Val, Val>, s: seq<Tree>)
    requires ValuePairs(m, s).Some?
    ensures m.Keys <= ValuePairs(m, s).value.Keys
    decreases s
  {
    hide Value;
    if |s| >= 2 { KeysStay(m[Value(s[0]).value := Value(s[1]).value], s[2..]); }
  }

  /** Where an entry in use comes among the keys and values. */
  lemma {:induction false} PlaceOf(item: seq<Entry>, i: nat) returns (j: nat)
    requires i < |item| && item[i].flag
    ensures j % 2 == 0 && j + 1 < |Used(item)| && Used(item)[j] == item[i].k && Used(item)[j + 1] == item[i].v
    decreases |item|
  {
    var n := |item| - 1;
    if i == n {
      j := |Used(item[..n])|;
      UsedEven(item[..n]);
    } else {
      j := PlaceOf(item[..n], i);
    }
  }

  /** The entry that a key comes from. */
  lemma {:induction false} EntryOf(item: seq<Entry>, j: nat) returns (i: nat)
    requires j % 2 == 0 && j + 1 < |Used(item)|
    ensures i < |item| && item[i].flag && Used(item)[j] == item[i].k && Used(item)[j + 1] == item[i].v
    decreases |item|
  {
    var n := |item| - 1;
    UsedEven(item[..n]);
    if j < |Used(item[..n])| {
      i := EntryOf(item[..n], j);
    } else {
      i := n;
    }
  }

  // ------------------------------------------------------------------
  // Maps without nil keys
  // ------------------------------------------------------------------

  /** No map holds nil as a key, as putting one into a map panics. */
  ghost predicate NoNilKeys(heap: set<Obj>)
    reads heap`body
  {
    forall o | o in heap && o.body.Table? ::
      forall i | 0 <= i < |o.body.item| && o.body.item[i].flag :: !o.body.item[i].k.CNil?
  }

  /** Then what a variable unfolds to has a value. */
  lemma {:induction false} UnfoldHasValue(heap: set<Obj>, busy: set<Obj>, c: Cell)
    requires IsHeap(heap) && CellIn(heap, c) && NoNilKeys(heap) && Unfold(heap, busy, c).Some?
    ensures Value(Zeroed(Unfold(heap, busy, c).value)).Some?
    decreases heap - busy, 0
  {
    hide UnfoldAll, ValueAll, ValuePairs, ZeroedAll, Used;
    if c.CObj? {
      var o := c.o;
      assert o in heap - busy && BodyIn(heap, o.body);
      MembersHaveValues(heap, busy + {o}, Cells(o.body));
      var s := UnfoldAll(heap, busy + {o}, Cells(o.body)).value;
      match o.body {
        case Elems(_) => AllSome(ZeroedAll(s));
        case Table(_, item) =>
          forall j | 0 <= j < |s| - 1 && j % 2 == 0 ensures Value(ZeroedAll(s)[j]) != Some(Nil) {
            var i := EntryOf(item, j);
            MemberDenotes(heap, busy + {o}, Cells(o.body), j);
            NilMember(heap, busy + {o}, Cells(o.body)[j], Value(ZeroedAll(s)[j]));
          }
          PairsSome(map[], ZeroedAll(s));
      }
    }
  }

  lemma {:induction false} NilMember(heap: set<Obj>, busy: set<Obj>, c: Cell, v: Option<Val>)
    requires v.Some? ==> Denotes(heap, busy, c, v.value)
    ensures !c.CNil? ==> v != Some(Nil)
  {
    if v.Some? { NilDenotes(heap, busy, c, v.value); }
  }

  lemma {:induction false} MembersHaveValues(heap: set<Obj>, busy: set<Obj>, cs: seq<Cell>)
    requires IsHeap(heap) && AllIn(heap, cs) && NoNilKeys(heap) && UnfoldAll(heap, busy, cs).Some?
    ensures var s := UnfoldAll(heap, busy, cs).value;
      |s| == |cs| && forall j | 0 <= j < |s| :: Value(ZeroedAll(s)[j]).Some?
    decreases heap - busy, 1
  {
    hide Unfold, UnfoldAll, Value, Zeroed, NoNilKeys;
    UnfoldAllLength(heap, busy, cs);
    var s := UnfoldAll(heap, busy, cs).value;
    forall j | 0 <= j < |s| ensures Value(ZeroedAll(s)[j]).Some? {
      UnfoldAt(heap, busy, cs, j);
      ZeroedAt(s, j);
      UnfoldHasValue(heap, busy, cs[j]);
    }
  }

  lemma {:induction false} AllSome(s: seq<Tree>)
    requires forall j | 0 <= j < |s| :: Value(s[j]).Some?
    ensures ValueAll(s).Some?
    decreases s
  {
    hide Value;
    if s != [] {
      forall j | 0 <= j < |s[1..]| ensures Value(s[1..][j]).Some? { assert s[1..][j] == s[j + 1]; }
      AllSome(s[1..]);
    }
  }

  lemma {:induction false} PairsSome(m: map<Val, Val>, s: seq<Tree>)
    requires forall j | 0 <= j < |s| :: Value(s[j]).Some?
    requires forall j | 0 <= j < |s| - 1 && j % 2 == 0 :: Value(s[j]) != Some(Nil)
    ensures ValuePairs(m, s).Some?
    decreases s
  {
    hide Value;
    if |s| >= 2 {
      var r := s[2..];
      forall j | 0 <= j < |r| ensures Value(r[j]).Some? { assert r[j] == s[j + 2]; }
      forall j | 0 <= j < |r| - 1 && j % 2 == 0 ensures Value(r[j]) != Some(Nil) { assert r[j] == s[j + 2]; }
      assert 0 <= 0 < |s| - 1 && 0 % 2 == 0 && Value(s[0]) != Some(Nil);
      PairsSome(m[Value(s[0]).value := Value(s[1]).value], r);
    }
  }

  /** Dumps a variable from which no cycle and nothing foreign can be reached, and loads the bytes onto an empty
      stack: unless a map has a nil key, the load takes all of the bytes and nothing of what follows, and leaves the
      value that the variable denotes, or nothing for nil. */
  method DumpAndLoad(c: Cell, rest: seq<Byte>, ghost heap: set<Obj>)
    returns (z: seq<Byte>, i: nat, s: Status, inp: Input)
    requires IsHeap(heap) && CellIn(heap, c) && Busy(heap) == {} && !Cyclic(heap, c) && !Foreign(heap, c)
    modifies heap`busy
    ensures Writes(heap, c, z) && Busy(heap) == {}
    ensures s == Fine || (s == Panic && !NoNilKeys(heap))
    ensures s == Fine && c.CNil? ==> i == 0 && inp.stack == []
    ensures s == Fine && !c.CNil? ==> i == |z| && |inp.stack| == 1 && Denotes(heap, {}, c, inp.stack[0])
  {
    hide IsHeap, Cyclic, Foreign, Unfold, Value, Show, Parse, Zeroed, Writes, Denotes, CellIn, NilKey, HasLeast,
      NoNilKeys;
    NoneMarked(heap, c);
    DumpLoads(heap, c, rest);
    ghost var t := Unfold(heap, {}, c).value;
    if NoNilKeys(heap) { UnfoldHasValue(heap, {}, c); }
    if Value(Zeroed(t)).Some? {
      UnfoldDenotes(heap, {}, c);
      NilDenotes(heap, {}, c, Value(Zeroed(t)).value);
    }
    var d := Pdump(c, heap);
    z := d.value;
    inp := new Input(z + rest, []);
    i, s := inp.Pload();
    if s == Fine && i > 0 { assert |(z + rest)[i..]| == |rest|; }
  }
}
