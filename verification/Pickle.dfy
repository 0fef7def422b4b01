/** Dumping a graph of objects to bytes, and loading bytes onto the stack. */
module Pickle {
  import opened Basics
  import opened Varint
  import opened PickleFormat

  /** What a variable holds; a bool holds an `int`, and `COther` stands for the types that cannot be dumped. */
  datatype Cell = CNil | CInt(i: int) | CBool(n: int) | CStr(z: seq<Byte>) | CObj(o: Obj) | COther

  /** A cell of a hash map, or a node of a skip list, which is always in use. */
  datatype Entry = Entry(flag: bool, k: Cell, v: Cell)

  /** The contents of an array, or of a map: the table of a hash map, or the nodes of a skip list in their order. */
  datatype Body = Elems(elems: seq<Cell>) | Table(kind: Kind, item: seq<Entry>)

  /** An array or a map, with its recursion mark. */
  class Obj {
    var body: Body
    var busy: bool

    constructor (body: Body)
      ensures this.body == body && !busy
    {
      this.body, busy := body, false;
    }
  }

  class Out {
    var bytes: seq<Byte>

    constructor ()
      ensures bytes == []
    {
      bytes := [];
    }
  }

  // ------------------------------------------------------------------
  // The graph
  // ------------------------------------------------------------------

  function KindOf(b: Body): Kind {
    match b
    case Elems(_) => Dyay
    case Table(kind, _) => kind
  }

  /** The entries in use, key and value in turn. */
  function Used(item: seq<Entry>): seq<Cell> {
    if item == [] then [] else Used(item[..|item| - 1]) + Pair(item[|item| - 1])
  }

  function Pair(e: Entry): seq<Cell> {
    if e.flag then [e.k, e.v] else []
  }

  function Cells(b: Body): seq<Cell> {
    match b
    case Elems(elems) => elems
    case Table(_, item) => Used(item)
  }

  ghost predicate CellIn(heap: set<Obj>, c: Cell) {
    match c
    case CObj(o) => o in heap
    case CInt(i) => Signed(i, true)
    case CBool(n) => Signed(n, false)
    case CStr(z) => |z| < LIMIT
    case _ => true
  }

  ghost predicate AllIn(heap: set<Obj>, cs: seq<Cell>) {
    forall i | 0 <= i < |cs| :: CellIn(heap, cs[i])
  }

  /** The objects of the heap hold what variables can hold, and refer to objects of the heap. */
  ghost predicate IsHeap(heap: set<Obj>)
    reads heap`body
  {
    forall o | o in heap :: BodyIn(heap, o.body)
  }

  ghost predicate BodyIn(heap: set<Obj>, b: Body) {
    (b.Table? ==> !b.kind.Dyay? && |b.item| < LIMIT / 2) && (b.Elems? ==> |b.elems| < LIMIT) && AllIn(heap, Cells(b))
  }

  ghost function Busy(heap: set<Obj>): set<Obj>
    reads heap`busy
  {
    set o | o in heap && o.busy
  }

  /** The tree that a variable unfolds to, unless the way comes back to an object it is inside of, to one of
      `busy`, or to what cannot be dumped. */
  ghost function Unfold(heap: set<Obj>, busy: set<Obj>, c: Cell): Option<Tree>
    reads heap`body
    decreases heap - busy, 0
  {
    match c
    case CNil => Some(TNil)
    case CInt(i) => Some(TInt(i))
    case CBool(n) => Some(TBool(n))
    case CStr(z) => Some(TStr(z))
    case CObj(o) =>
      if o !in heap || o in busy then None
      else
        (assert heap - (busy + {o}) < heap - busy by { assert o in heap - busy; }
         match UnfoldAll(heap, busy + {o}, Cells(o.body))
         case None => None
         case Some(s) => Some(TNode(KindOf(o.body), s)))
    case COther => None
  }

  ghost function UnfoldAll(heap: set<Obj>, busy: set<Obj>, cs: seq<Cell>): Option<seq<Tree>>
    reads heap`body
    decreases heap - busy, |cs|
  {
    if cs == [] then Some([])
    else
      var n := |cs| - 1;
      match UnfoldAll(heap, busy, cs[..n])
      case None => None
      case Some(s) => match Unfold(heap, busy, cs[n]) case None => None case Some(t) => Some(s + [t])
  }

  lemma {:induction false} UnfoldAllPrefix(heap: set<Obj>, busy: set<Obj>, cs: seq<Cell>, n: nat)
    requires n <= |cs| && UnfoldAll(heap, busy, cs[..n]).None?
    ensures UnfoldAll(heap, busy, cs).None?
    decreases |cs|
  {
    if n < |cs| {
      assert cs[..|cs| - 1][..n] == cs[..n];
      UnfoldAllPrefix(heap, busy, cs[..|cs| - 1], n);
    } else {
      assert cs[..n] == cs;
    }
  }

  lemma {:induction false} PrefixUnfolds(heap: set<Obj>, busy: set<Obj>, cs: seq<Cell>, n: nat)
    requires n <= |cs| && UnfoldAll(heap, busy, cs).Some?
    ensures UnfoldAll(heap, busy, cs[..n]).Some?
  {
    if UnfoldAll(heap, busy, cs[..n]).None? { UnfoldAllPrefix(heap, busy, cs, n); }
  }

  // ------------------------------------------------------------------
  // What cannot be dumped
  // ------------------------------------------------------------------

  /** A walk from the object in `c`, each object holding the next. */
  ghost predicate IsWalk(heap: set<Obj>, c: Cell, older p: seq<Obj>)
    reads heap`body
  {
    p != [] && c == CObj(p[0]) && (forall i | 0 <= i < |p| :: p[i] in heap) &&
    forall i | 0 <= i < |p| - 1 :: CObj(p[i + 1]) in Cells(p[i].body)
  }

  ghost predicate ComesBack(heap: set<Obj>, c: Cell, older p: seq<Obj>)
    reads heap`body
  {
    IsWalk(heap, c, p) && p[|p| - 1] in p[..|p| - 1]
  }

  ghost predicate EndsForeign(heap: set<Obj>, c: Cell, older p: seq<Obj>)
    reads heap`body
  {
    IsWalk(heap, c, p) && COther in Cells(p[|p| - 1].body)
  }

  ghost predicate EndsBusy(heap: set<Obj>, busy: set<Obj>, c: Cell, older p: seq<Obj>)
    reads heap`body
  {
    IsWalk(heap, c, p) && p[|p| - 1] in busy
  }

  /** A cycle can be reached from `c`. */
  ghost predicate Cyclic(heap: set<Obj>, c: Cell)
    reads heap`body
  {
    exists p: seq<Obj> :: ComesBack(heap, c, p)
  }

  /** What cannot be dumped can be reached from `c`. */
  ghost predicate Foreign(heap: set<Obj>, c: Cell)
    reads heap`body
  {
    c.COther? || exists p: seq<Obj> :: EndsForeign(heap, c, p)
  }

  ghost predicate Marked(heap: set<Obj>, busy: set<Obj>, c: Cell)
    reads heap`body
  {
    exists p: seq<Obj> :: EndsBusy(heap, busy, c, p)
  }

  ghost predicate Blocked(heap: set<Obj>, busy: set<Obj>, c: Cell, older p: seq<Obj>)
    reads heap`body
  {
    if p == [] then c.COther? else EndsBusy(heap, busy, c, p) || ComesBack(heap, c, p) || EndsForeign(heap, c, p)
  }

  /** A walk from what `o` holds, with `o` before it. */
  lemma {:induction false} BlockedCons(heap: set<Obj>, busy: set<Obj>, o: Obj, d: Cell, q: seq<Obj>)
    requires o in heap && d in Cells(o.body) && Blocked(heap, busy + {o}, d, q)
    ensures Blocked(heap, busy, CObj(o), [o] + q)
  {
    var p := [o] + q;
    if q == [] {
      assert EndsForeign(heap, CObj(o), p);
    } else {
      forall i | 0 <= i < |p| - 1 ensures CObj(p[i + 1]) in Cells(p[i].body) {
        if i > 0 { assert CObj(q[i - 1 + 1]) in Cells(q[i - 1].body); }
      }
      assert p[|p| - 1] == q[|q| - 1] && p[..|p| - 1] == [o] + q[..|q| - 1];
      assert IsWalk(heap, CObj(o), p);
      if q[|q| - 1] == o { assert p[..|p| - 1][0] == o; }
    }
  }

  lemma {:induction false} FindBlocked(heap: set<Obj>, busy: set<Obj>, c: Cell) returns (p: seq<Obj>)
    requires IsHeap(heap) && CellIn(heap, c) && Unfold(heap, busy, c).None?
    ensures Blocked(heap, busy, c, p)
    decreases heap - busy, 0
  {
    hide Blocked, Cells, UnfoldAll;
    match c
    case COther => p := []; BlockedHere(heap, busy, c);
    case CObj(o) =>
      if o in busy {
        p := [o];
        BlockedHere(heap, busy, c);
      } else {
        assert o in heap - busy && BodyIn(heap, o.body);
        var d, q := FindAmong(heap, busy + {o}, Cells(o.body));
        BlockedCons(heap, busy, o, d, q);
        p := [o] + q;
      }
    case CNil => p := [];
    case CInt(_) => p := [];
    case CBool(_) => p := [];
    case CStr(_) => p := [];
  }

  lemma {:induction false} BlockedHere(heap: set<Obj>, busy: set<Obj>, c: Cell)
    ensures c.COther? ==> Blocked(heap, busy, c, [])
    ensures c.CObj? && c.o in heap && c.o in busy ==> Blocked(heap, busy, c, [c.o])
  {
    if c.CObj? && c.o in heap && c.o in busy { assert EndsBusy(heap, busy, c, [c.o]); }
  }

  lemma {:induction false} FindAmong(heap: set<Obj>, busy: set<Obj>, cs: seq<Cell>) returns (d: Cell, p: seq<Obj>)
    requires IsHeap(heap) && AllIn(heap, cs) && UnfoldAll(heap, busy, cs).None?
    ensures d in cs && Blocked(heap, busy, d, p)
    decreases heap - busy, |cs|
  {
    hide Blocked, Cells, Unfold;
    var n := |cs| - 1;
    if UnfoldAll(heap, busy, cs[..n]).None? {
      d, p := FindAmong(heap, busy, cs[..n]);
    } else {
      d := cs[n];
      p := FindBlocked(heap, busy, d);
    }
  }

  lemma {:induction false} OneFails(heap: set<Obj>, busy: set<Obj>, cs: seq<Cell>, d: Cell)
    requires d in cs && Unfold(heap, busy, d).None?
    ensures UnfoldAll(heap, busy, cs).None?
    decreases |cs|
  {
    var n := |cs| - 1;
    if d != cs[n] { OneFails(heap, busy, cs[..n], d); }
  }

  lemma {:induction false} BlockedFails(heap: set<Obj>, busy: set<Obj>, c: Cell, p: seq<Obj>)
    requires Blocked(heap, busy, c, p)
    ensures Unfold(heap, busy, c).None?
    decreases |p|
  {
    hide UnfoldAll;
    if p != [] && p[0] !in busy {
      var o := p[0];
      if |p| == 1 {
        OneFails(heap, busy + {o}, Cells(o.body), COther);
      } else {
        var d, q := CObj(p[1]), p[1..];
        assert CObj(p[0 + 1]) in Cells(p[0].body);
        BlockedTail(heap, busy, c, p);
        BlockedFails(heap, busy + {o}, d, q);
        OneFails(heap, busy + {o}, Cells(o.body), d);
      }
    }
  }

  lemma {:induction false} BlockedTail(heap: set<Obj>, busy: set<Obj>, c: Cell, p: seq<Obj>)
    requires |p| > 1 && Blocked(heap, busy, c, p)
    ensures Blocked(heap, busy + {p[0]}, CObj(p[1]), p[1..])
  {
    var q := p[1..];
    forall i | 0 <= i < |q| - 1 ensures CObj(q[i + 1]) in Cells(q[i].body) {
      assert CObj(p[i + 1 + 1]) in Cells(p[i + 1].body);
    }
    assert q[|q| - 1] == p[|p| - 1] && p[..|p| - 1] == [p[0]] + q[..|q| - 1];
    assert IsWalk(heap, CObj(p[1]), q);
  }

  /** A dump succeeds exactly if neither a cycle, nor an object that is marked already, nor anything that cannot
      be dumped can be reached. */
  lemma {:induction false} DumpsWhen(heap: set<Obj>, busy: set<Obj>, c: Cell)
    requires IsHeap(heap) && CellIn(heap, c)
    ensures Unfold(heap, busy, c).Some? <==> !Cyclic(heap, c) && !Marked(heap, busy, c) && !Foreign(heap, c)
    ensures !Marked(heap, {}, c)
  {
    hide IsWalk, Unfold;
    if Unfold(heap, busy, c).None? {
      var p := FindBlocked(heap, busy, c);
      assert p == [] || EndsBusy(heap, busy, c, p) || ComesBack(heap, c, p) || EndsForeign(heap, c, p);
    } else {
      if Cyclic(heap, c) {
        var p: seq<Obj> :| ComesBack(heap, c, p);
        WalkFails(heap, busy, c, p);
      }
      if Marked(heap, busy, c) {
        var p: seq<Obj> :| EndsBusy(heap, busy, c, p);
        WalkFails(heap, busy, c, p);
      }
      if exists p: seq<Obj> :: EndsForeign(heap, c, p) {
        var p: seq<Obj> :| EndsForeign(heap, c, p);
        WalkFails(heap, busy, c, p);
      }
      ForeignFails(heap, busy, c);
    }
  }

  lemma {:induction false} ForeignFails(heap: set<Obj>, busy: set<Obj>, c: Cell)
    ensures c.COther? ==> Unfold(heap, busy, c).None?
  {
  }

  lemma {:induction false} WalkFails(heap: set<Obj>, busy: set<Obj>, c: Cell, p: seq<Obj>)
    ensures EndsBusy(heap, busy, c, p) || ComesBack(heap, c, p) || EndsForeign(heap, c, p) ==>
      Unfold(heap, busy, c).None?
  {
    if p != [] && Blocked(heap, busy, c, p) { BlockedFails(heap, busy, c, p); }
  }

  // ------------------------------------------------------------------
  // The bytes, written out
  // ------------------------------------------------------------------

  /** The parts one after the other. */
  function Flat(parts: seq<seq<Byte>>): seq<Byte> {
    if parts == [] then [] else Flat(parts[..|parts| - 1]) + parts[|parts| - 1]
  }

  function InUse(item: seq<Entry>): set<nat> {
    set i: nat | i < |item| && item[i].flag
  }

  /** The bytes that a variable is dumped to: the number of its type, and what it holds. */
  ghost predicate Writes(heap: set<Obj>, c: Cell, z: seq<Byte>)
    reads heap`body
    decreases |z|, 2
  {
    match c
    case CNil => z == [0]
    case CInt(i) => z == [1] + EncodeSigned(i)
    case CBool(n) => z == [2] + Encode(n % 0x1_0000_0000_0000_0000)
    case CStr(x) => z == [4] + Encode(|x|) + x
    case CObj(o) =>
      o in heap &&
      if o.body.Elems? then exists parts: seq<seq<Byte>> :: WritesElems(heap, o.body.elems, parts, z)
      else exists parts: seq<seq<Byte>> :: WritesTable(heap, o.body.kind, o.body.item, parts, z)
    case COther => false
  }

  /** 6, the number of elements, and the bytes of each element in order. */
  ghost predicate WritesElems(heap: set<Obj>, elems: seq<Cell>, parts: seq<seq<Byte>>, z: seq<Byte>)
    reads heap`body
    decreases |z|, 1
  {
    |parts| == |elems| && z == [6] + Encode(|elems|) + Flat(parts) &&
    forall i | 0 <= i < |elems| :: |parts[i]| < |z| && Writes(heap, elems[i], parts[i])
  }

  /** 7 or 8, the number of entries in use, and for each of these in order its key and then its value. */
  ghost predicate WritesTable(heap: set<Obj>, kind: Kind, item: seq<Entry>, parts: seq<seq<Byte>>, z: seq<Byte>)
    reads heap`body
    decreases |z|, 1
  {
    |parts| == |item| && z == [if kind.Hmap? then 7 else 8] + Encode(|InUse(item)|) + Flat(parts) &&
    forall i | 0 <= i < |item| :: |parts[i]| < |z| && WritesEntry(heap, item[i], parts[i])
  }

  ghost predicate WritesEntry(heap: set<Obj>, e: Entry, z: seq<Byte>)
    reads heap`body
    decreases |z|, 3
  {
    if e.flag then exists m | 0 < m < |z| :: Writes(heap, e.k, z[..m]) && Writes(heap, e.v, z[m..])
    else z == []
  }

  /** What a variable unfolds to shows as the bytes that it is dumped to. */
  lemma {:induction false} UnfoldWrites(heap: set<Obj>, busy: set<Obj>, c: Cell)
    requires IsHeap(heap) && CellIn(heap, c) && Unfold(heap, busy, c).Some?
    ensures Writes(heap, c, Show(Unfold(heap, busy, c).value)) && Show(Unfold(heap, busy, c).value) != []
    decreases heap - busy, 0
  {
    hide UnfoldAll, Used, InUse, Flat;
    var t := Unfold(heap, busy, c).value;
    ShowNotEmpty(t);
    if c.CObj? {
      var o := c.o;
      assert o in heap - busy && BodyIn(heap, o.body);
      UnfoldAllLength(heap, busy + {o}, Cells(o.body));
      match o.body {
        case Elems(elems) =>
          var parts := ElemParts(heap, busy + {o}, elems);
          PartsInside([6] + Encode(|elems|), parts);
          assert WritesElems(heap, elems, parts, Show(t));
        case Table(kind, item) =>
          var parts := EntryParts(heap, busy + {o}, item);
          UsedCount(item);
          PartsInside([if kind.Hmap? then 7 else 8] + Encode(|InUse(item)|), parts);
          assert WritesTable(heap, kind, item, parts, Show(t));
      }
    }
  }

  lemma {:induction false} ElemParts(heap: set<Obj>, busy: set<Obj>, cs: seq<Cell>) returns (parts: seq<seq<Byte>>)
    requires IsHeap(heap) && AllIn(heap, cs) && UnfoldAll(heap, busy, cs).Some?
    ensures |parts| == |cs| && Flat(parts) == ShowAll(UnfoldAll(heap, busy, cs).value)
    ensures forall i | 0 <= i < |cs| :: Writes(heap, cs[i], parts[i])
    decreases heap - busy, |cs|
  {
    hide Unfold, Writes;
    parts := [];
    if cs != [] {
      var n := |cs| - 1;
      var first := ElemParts(heap, busy, cs[..n]);
      UnfoldWrites(heap, busy, cs[n]);
      var s, t := UnfoldAll(heap, busy, cs[..n]).value, Unfold(heap, busy, cs[n]).value;
      ShowAllJoin(s, [t]);
      ShowAllOne(t);
      parts := first + [Show(t)];
      assert parts[..n] == first;
    }
  }

  lemma {:induction false} EntryParts(heap: set<Obj>, busy: set<Obj>, item: seq<Entry>) returns (parts: seq<seq<Byte>>)
    requires IsHeap(heap) && AllIn(heap, Used(item)) && UnfoldAll(heap, busy, Used(item)).Some?
    ensures |parts| == |item| && Flat(parts) == ShowAll(UnfoldAll(heap, busy, Used(item)).value)
    ensures forall i | 0 <= i < |item| :: WritesEntry(heap, item[i], parts[i])
    decreases heap - busy, |item| + 1
  {
    hide Unfold, UnfoldAll, Writes, WritesEntry, Show, ShowAll, IsHeap, AllIn;
    parts := [];
    if item == [] {
      NothingUnfolds(heap, busy);
    } else {
      var n := |item| - 1;
      var used, e := Used(item[..n]), item[n];
      var x: seq<Byte> := [];
      if e.flag {
        var s := PairUnfolds(heap, busy, used, e.k, e.v);
        x := Show(s.0) + Show(s.1);
        PairWrites(heap, e, Show(s.0), Show(s.1));
      } else {
        assert used + [] == used;
        NoneWrites(heap, e);
      }
      var first := EntryParts(heap, busy, item[..n]);
      parts := first + [x];
      assert parts[..n] == first && Flat(first) + [] == Flat(first);
    }
  }

  lemma {:induction false} PairWrites(heap: set<Obj>, e: Entry, x: seq<Byte>, y: seq<Byte>)
    requires e.flag && x != [] && y != [] && Writes(heap, e.k, x) && Writes(heap, e.v, y)
    ensures WritesEntry(heap, e, x + y)
  {
    hide Writes;
    assert (x + y)[..|x|] == x && (x + y)[|x|..] == y;
  }

  lemma {:induction false} NoneWrites(heap: set<Obj>, e: Entry)
    requires !e.flag
    ensures WritesEntry(heap, e, [])
  {
  }

  lemma {:induction false} NothingUnfolds(heap: set<Obj>, busy: set<Obj>)
    ensures UnfoldAll(heap, busy, []) == Some([]) && ShowAll([]) == [] && Flat([]) == []
  {
  }

  lemma {:induction false} PairUnfolds(heap: set<Obj>, busy: set<Obj>, cs: seq<Cell>, k: Cell, v: Cell)
    returns (s: (Tree, Tree))
    requires IsHeap(heap) && AllIn(heap, cs + [k, v]) && UnfoldAll(heap, busy, cs + [k, v]).Some?
    ensures AllIn(heap, cs) && UnfoldAll(heap, busy, cs).Some?
    ensures ShowAll(UnfoldAll(heap, busy, cs + [k, v]).value) ==
      ShowAll(UnfoldAll(heap, busy, cs).value) + (Show(s.0) + Show(s.1))
    ensures Writes(heap, k, Show(s.0)) && Writes(heap, v, Show(s.1)) && Show(s.0) != [] && Show(s.1) != []
    decreases heap - busy, 1
  {
    hide Unfold, Writes, Show;
    var all, n := cs + [k, v], |cs|;
    assert all[..n + 1] == cs + [k] && all[n + 1] == v && (cs + [k])[..n] == cs && all[n] == k;
    forall i | 0 <= i < n ensures CellIn(heap, cs[i]) { assert cs[i] == all[i]; }
    assert CellIn(heap, all[n]) && CellIn(heap, all[n + 1]);
    PrefixUnfolds(heap, busy, all, n + 1);
    PrefixUnfolds(heap, busy, cs + [k], n);
    UnfoldWrites(heap, busy, k);
    UnfoldWrites(heap, busy, v);
    s := (Unfold(heap, busy, k).value, Unfold(heap, busy, v).value);
    var first := UnfoldAll(heap, busy, cs).value;
    ShowAllJoin(first, [s.0]);
    ShowAllJoin(first + [s.0], [s.1]);
    ShowAllOne(s.0);
    ShowAllOne(s.1);
    Assoc(ShowAll(first), Show(s.0), Show(s.1));
  }

  lemma {:induction false} UsedCount(item: seq<Entry>)
    ensures |Used(item)| == 2 * |InUse(item)|
    decreases |item|
  {
    if item == [] {
      assert InUse(item) == {};
    } else {
      var n := |item| - 1;
      UsedCount(item[..n]);
      assert InUse(item) == InUse(item[..n]) + if item[n].flag then {n} else {};
    }
  }

  lemma {:induction false} PartsInside(z: seq<Byte>, parts: seq<seq<Byte>>)
    requires z != []
    ensures forall i | 0 <= i < |parts| :: |parts[i]| < |z + Flat(parts)|
    decreases |parts|
  {
    if parts != [] {
      var n := |parts| - 1;
      PartsInside(z, parts[..n]);
      forall i | 0 <= i < n ensures |parts[i]| < |z + Flat(parts)| { assert parts[i] == parts[..n][i]; }
    }
  }

  // ------------------------------------------------------------------
  // The dump
  // ------------------------------------------------------------------

  method PutU32(os: Out, x: nat) returns (i: nat)
    requires x < U32
    modifies os
    ensures os.bytes == old(os.bytes) + Encode(x) && i == |Encode(x)|
  {
    var z := Uint32Encode(x);
    os.bytes := os.bytes + z;
    i := |z|;
  }

  method DumpInt(os: Out, n: int) returns (i: nat)
    requires Signed(n, true)
    modifies os
    ensures os.bytes == old(os.bytes) + Show(TInt(n)) && i == |Show(TInt(n))|
  {
    i := PutU32(os, INT);
    var z := Sint64Encode(n);
    os.bytes := os.bytes + z;
    i := i + |z|;
  }

  method DumpBool(os: Out, n: int) returns (i: nat)
    modifies os
    ensures os.bytes == old(os.bytes) + Show(TBool(n)) && i == |Show(TBool(n))|
  {
    i := PutU32(os, BOOL);
    var z := Uint64Encode(n % U64);
    os.bytes := os.bytes + z;
    i := i + |z|;
  }

  method DumpKstr(os: Out, z: seq<Byte>) returns (i: nat)
    requires |z| < LIMIT
    modifies os
    ensures os.bytes == old(os.bytes) + Show(TStr(z)) && i == |Show(TStr(z))|
  {
    i := PutU32(os, KSTR);
    var k := PutU32(os, |z|);
    os.bytes := os.bytes + z;
    i := i + k + |z|;
  }

  ghost function Objs(p: seq<Obj>): set<Obj> {
    set o | o in p
  }

  ghost predicate LeftBy(heap: set<Obj>, busy0: set<Obj>, c: Cell, busy: set<Obj>, older p: seq<Obj>)
    reads heap`body
  {
    Blocked(heap, busy0, c, p) && busy == busy0 + Objs(p)
  }

  /** The marks that a failed dump leaves: those of all objects on a walk to where it failed. */
  ghost predicate LeftBehind(heap: set<Obj>, busy0: set<Obj>, c: Cell, busy: set<Obj>)
    reads heap`body
  {
    exists p: seq<Obj> :: LeftBy(heap, busy0, c, busy, p)
  }

  ghost predicate LeftAmong(heap: set<Obj>, busy0: set<Obj>, cs: seq<Cell>, busy: set<Obj>)
    reads heap`body
  {
    exists i :: 0 <= i < |cs| && LeftBehind(heap, busy0, cs[i], busy)
  }

  lemma {:induction false} LeftInside(heap: set<Obj>, busy0: set<Obj>, o: Obj, busy: set<Obj>)
    requires o in heap && LeftAmong(heap, busy0 + {o}, Cells(o.body), busy)
    ensures LeftBehind(heap, busy0, CObj(o), busy)
  {
    hide Blocked;
    var i :| 0 <= i < |Cells(o.body)| && LeftBehind(heap, busy0 + {o}, Cells(o.body)[i], busy);
    var p: seq<Obj> :| LeftBy(heap, busy0 + {o}, Cells(o.body)[i], busy, p);
    BlockedCons(heap, busy0, o, Cells(o.body)[i], p);
    assert LeftBy(heap, busy0, CObj(o), busy, [o] + p);
  }

  lemma {:induction false} LeftHere(heap: set<Obj>, busy: set<Obj>, c: Cell)
    ensures c.COther? || (c.CObj? && c.o in heap && c.o in busy) ==> LeftBehind(heap, busy, c, busy)
  {
    if c.COther? || (c.CObj? && c.o in heap && c.o in busy) {
      var p := if c.COther? then [] else [c.o];
      BlockedHere(heap, busy, c);
      assert LeftBy(heap, busy, c, busy, p);
    }
  }

  /** A dump of `c`, which unfolds to `t`: the bytes it adds to `z0` and the marks it leaves. */
  ghost predicate Dumped(heap: set<Obj>, t: Option<Tree>, c: Cell, z0: seq<Byte>, z: seq<Byte>, busy0: set<Obj>,
      busy: set<Obj>, i: nat, ok: bool)
    reads heap`body
  {
    if t.Some? then ok && z == z0 + Show(t.value) && i == |Show(t.value)| && busy == busy0
    else !ok && i == 0 && LeftBehind(heap, busy0, c, busy)
  }

  /** The members of a container that were dumped so far. */
  ghost predicate Dumping(heap: set<Obj>, busy: set<Obj>, cs: seq<Cell>, z0: seq<Byte>, z: seq<Byte>)
    reads heap`body
  {
    var s := UnfoldAll(heap, busy, cs);
    s.Some? && z == z0 + ShowAll(s.value)
  }

  lemma {:induction false} DumpingNext(heap: set<Obj>, busy: set<Obj>, cs: seq<Cell>, c: Cell, z0: seq<Byte>,
      z: seq<Byte>)
    requires Dumping(heap, busy, cs, z0, z)
    ensures var t := Unfold(heap, busy, c);
      if t.Some? then Dumping(heap, busy, cs + [c], z0, z + Show(t.value)) else UnfoldAll(heap, busy, cs + [c]).None?
  {
    hide Unfold, Show;
    var t, s := Unfold(heap, busy, c), UnfoldAll(heap, busy, cs).value;
    assert (cs + [c])[..|cs|] == cs;
    if t.Some? {
      ShowAllJoin(s, [t.value]);
      ShowAllOne(t.value);
      Assoc(z0, ShowAll(s), Show(t.value));
    }
  }

  /** The bytes that a dump added are those of the variable. */
  lemma {:induction false} BytesWritten(heap: set<Obj>, busy: set<Obj>, c: Cell, z0: seq<Byte>, z: seq<Byte>)
    requires IsHeap(heap) && CellIn(heap, c)
    requires var t := Unfold(heap, busy, c); t.Some? && z == z0 + Show(t.value)
    ensures |z0| <= |z| && Writes(heap, c, z[|z0|..])
  {
    hide Writes, Unfold, Show;
    UnfoldWrites(heap, busy, c);
    assert z[|z0|..] == Show(Unfold(heap, busy, c).value);
  }

  /** The next member of a container. */
  method DumpNext(os: Out, c: Cell, ghost heap: set<Obj>, ghost cs: seq<Cell>, ghost z0: seq<Byte>)
      returns (i: nat, ok: bool)
    requires IsHeap(heap) && CellIn(heap, c) && Dumping(heap, Busy(heap), cs, z0, os.bytes)
    modifies os, heap`busy
    ensures ok <==> UnfoldAll(heap, old(Busy(heap)), cs + [c]).Some?
    ensures ok ==> Busy(heap) == old(Busy(heap)) && Dumping(heap, Busy(heap), cs + [c], z0, os.bytes)
    ensures ok ==> |os.bytes| == |old(os.bytes)| + i
    ensures !ok ==> LeftBehind(heap, old(Busy(heap)), c, Busy(heap))
    decreases heap - Busy(heap), 3
  {
    hide Unfold, UnfoldAll, Show, IsHeap, CellIn;
    DumpingNext(heap, Busy(heap), cs, c, z0, os.bytes);
    i, ok := Serialize(os, c, heap);
  }

  /** An object unless it is marked; the mark goes when its members are dumped. */
  method DumpDyay(os: Out, o: Obj, ghost heap: set<Obj>) returns (i: nat, ok: bool)
    requires IsHeap(heap) && o in heap && o.body.Elems?
    modifies os, heap`busy
    ensures Dumped(heap, old(Unfold(heap, Busy(heap), CObj(o))), CObj(o), old(os.bytes), os.bytes, old(Busy(heap)),
        Busy(heap), i, ok)
    ensures ok ==> Writes(heap, CObj(o), os.bytes[|old(os.bytes)|..])
    decreases heap - Busy(heap), 1
  {
    hide Dumping, UnfoldAll, Show, ShowAll, IsHeap, AllIn, LeftBehind;
    if o.busy {
      LeftHere(heap, Busy(heap), CObj(o));
      return 0, false;
    }
    ghost var busy, z0 := Busy(heap), os.bytes;
    HeapAt(heap, o);
    o.busy := true;
    assert Busy(heap) == busy + {o} && heap - Busy(heap) < heap - busy by { assert o in heap - busy; }
    var elems := o.body.elems;
    i := PutU32(os, Tag(Dyay));
    var k := PutU32(os, |elems|);
    i := i + k;
    ghost var z1 := os.bytes;
    DumpingStarts(heap, Busy(heap), z1);
    var j := 0;
    while j < |elems|
      invariant 0 <= j <= |elems| && Busy(heap) == busy + {o} && i == |os.bytes| - |z0| >= 0
      invariant Dumping(heap, Busy(heap), elems[..j], z1, os.bytes)
    {
      hide Dumping, UnfoldAll, Show, ShowAll, IsHeap, AllIn, LeftBehind;
      CellAt(heap, elems, j);
      assert elems[..j + 1] == elems[..j] + [elems[j]];
      k, ok := DumpNext(os, elems[j], heap, elems[..j], z1);
      if !ok {
        UnfoldAllPrefix(heap, busy + {o}, elems, j + 1);
        LeftInside(heap, busy, o, Busy(heap));
        return 0, false;
      }
      i := i + k;
      j := j + 1;
    }
    o.busy := false;
    assert Busy(heap) == busy && elems[..j] == elems;
    NodeDumped(heap, busy, o, z0, os.bytes);
    BytesWritten(heap, busy, CObj(o), z0, os.bytes);
    ok := true;
  }

  lemma {:induction false} HeapAt(heap: set<Obj>, o: Obj)
    requires IsHeap(heap) && o in heap
    ensures BodyIn(heap, o.body)
  {
  }

  lemma {:induction false} CellAt(heap: set<Obj>, cs: seq<Cell>, j: nat)
    requires AllIn(heap, cs) && j < |cs|
    ensures CellIn(heap, cs[j])
  {
  }

  lemma {:induction false} DumpingStarts(heap: set<Obj>, busy: set<Obj>, z: seq<Byte>)
    ensures Dumping(heap, busy, [], z, z)
  {
    assert z + [] == z;
  }

  /** All members of an object were dumped after its tag and their number. */
  lemma {:induction false} NodeDumped(heap: set<Obj>, busy: set<Obj>, o: Obj, z0: seq<Byte>, z: seq<Byte>)
    requires o in heap && o !in busy
    requires var kind := KindOf(o.body);
      Dumping(heap, busy + {o}, Cells(o.body), z0 + Encode(Tag(kind)) + Encode(Count(kind, |Cells(o.body)|)), z)
    ensures var t := Unfold(heap, busy, CObj(o)); t.Some? && z == z0 + Show(t.value)
  {
    hide UnfoldAll, Encode;
    var kind, s := KindOf(o.body), UnfoldAll(heap, busy + {o}, Cells(o.body)).value;
    UnfoldAllLength(heap, busy + {o}, Cells(o.body));
    Assoc4(z0, Encode(Tag(kind)), Encode(Count(kind, |s|)), ShowAll(s));
  }

  lemma {:induction false} UnfoldAllLength(heap: set<Obj>, busy: set<Obj>, cs: seq<Cell>)
    ensures var s := UnfoldAll(heap, busy, cs); s.Some? ==> |s.value| == |cs|
    decreases |cs|
  {
    if cs != [] { UnfoldAllLength(heap, busy, cs[..|cs| - 1]); }
  }

  /** The number of entries in use. */
  method CountUsed(item: seq<Entry>) returns (n: nat)
    ensures |Used(item)| == 2 * n && n <= |item|
  {
    n := 0;
    var j := 0;
    UsedStep(item, 0);
    while j < |item|
      invariant 0 <= j <= |item| && n <= j && |Used(item[..j])| == 2 * n
    {
      hide Used;
      UsedStep(item, j);
      if item[j].flag { n := n + 1; }
      j := j + 1;
    }
    assert item[..j] == item;
  }

  /** A hash map, entry by entry of its table, or a skip list, node by node. */
  method DumpTable(os: Out, o: Obj, ghost heap: set<Obj>) returns (i: nat, ok: bool)
    requires IsHeap(heap) && o in heap && o.body.Table?
    modifies os, heap`busy
    ensures Dumped(heap, old(Unfold(heap, Busy(heap), CObj(o))), CObj(o), old(os.bytes), os.bytes, old(Busy(heap)),
        Busy(heap), i, ok)
    ensures ok ==> Writes(heap, CObj(o), os.bytes[|old(os.bytes)|..])
    decreases heap - Busy(heap), 1
  {
    hide Dumping, UnfoldAll, Show, ShowAll, IsHeap, AllIn, Used, LeftBehind;
    if o.busy {
      LeftHere(heap, Busy(heap), CObj(o));
      return 0, false;
    }
    ghost var busy, z0 := Busy(heap), os.bytes;
    HeapAt(heap, o);
    o.busy := true;
    assert Busy(heap) == busy + {o} && heap - Busy(heap) < heap - busy by { assert o in heap - busy; }
    var item := o.body.item;
    i := PutU32(os, Tag(o.body.kind));
    var n := CountUsed(item);
    var k := PutU32(os, n);
    i := i + k;
    ghost var z1 := os.bytes;
    DumpingStarts(heap, Busy(heap), z1);
    UsedStep(item, 0);
    var j := 0;
    while j < |item|
      invariant 0 <= j <= |item| && Busy(heap) == busy + {o} && i == |os.bytes| - |z0| >= 0
      invariant Dumping(heap, Busy(heap), Used(item[..j]), z1, os.bytes)
    {
      hide Dumping, UnfoldAll, Show, ShowAll, IsHeap, AllIn, Used, LeftBehind;
      UsedStep(item, j);
      UsedWhole(item, j);
      assert Used(item[..j]) + [] == Used(item[..j]);
      if item[j].flag {
        k, ok := DumpPair(os, item[j], heap, Used(item), Used(item[..j]), z1);
        if !ok {
          LeftInside(heap, busy, o, Busy(heap));
          return 0, false;
        }
        i := i + k;
      }
      j := j + 1;
    }
    o.busy := false;
    assert Busy(heap) == busy && item[..j] == item;
    NodeDumped(heap, busy, o, z0, os.bytes);
    BytesWritten(heap, busy, CObj(o), z0, os.bytes);
    ok := true;
  }

  /** A key and its value. */
  method DumpPair(os: Out, e: Entry, ghost heap: set<Obj>, ghost all: seq<Cell>, ghost cs: seq<Cell>,
      ghost z0: seq<Byte>) returns (i: nat, ok: bool)
    requires IsHeap(heap) && AllIn(heap, all) && cs + [e.k, e.v] <= all && Dumping(heap, Busy(heap), cs, z0, os.bytes)
    modifies os, heap`busy
    ensures ok ==> Busy(heap) == old(Busy(heap)) && Dumping(heap, Busy(heap), cs + [e.k, e.v], z0, os.bytes)
    ensures ok ==> |os.bytes| == |old(os.bytes)| + i
    ensures !ok ==> UnfoldAll(heap, old(Busy(heap)), all).None? && LeftAmong(heap, old(Busy(heap)), all, Busy(heap))
    decreases heap - Busy(heap), 4
  {
    hide Dumping, UnfoldAll, IsHeap, AllIn;
    ghost var n, busy := |cs|, Busy(heap);
    assert all[n] == (cs + [e.k, e.v])[n] == e.k && all[n + 1] == (cs + [e.k, e.v])[n + 1] == e.v;
    CellAt(heap, all, n);
    CellAt(heap, all, n + 1);
    assert cs + [e.k] + [e.v] == cs + [e.k, e.v] == all[..n + 2] && cs + [e.k] == all[..n + 1];
    i, ok := DumpNext(os, e.k, heap, cs, z0);
    if !ok {
      UnfoldAllPrefix(heap, busy, all, n + 1);
      return 0, false;
    }
    var k;
    k, ok := DumpNext(os, e.v, heap, cs + [e.k], z0);
    if !ok {
      UnfoldAllPrefix(heap, busy, all, n + 2);
      return 0, false;
    }
    i := i + k;
  }

  lemma {:induction false} UsedStep(item: seq<Entry>, j: nat)
    requires j <= |item|
    ensures Used([]) == [] && item[..0] == []
    ensures j < |item| ==> Used(item[..j + 1]) == Used(item[..j]) + Pair(item[j])
  {
    if j < |item| { assert item[..j + 1][..j] == item[..j]; }
  }

  lemma {:induction false} UsedWhole(item: seq<Entry>, j: nat)
    requires j < |item|
    ensures Used(item[..j]) + Pair(item[j]) <= Used(item)
    decreases |item|
  {
    var n := |item| - 1;
    if j < n {
      assert item[..n][..j] == item[..j];
      UsedWhole(item[..n], j);
    }
  }

  /** Adds what a variable unfolds to, and leaves the marks as they were; or fails. */
  method Serialize(os: Out, c: Cell, ghost heap: set<Obj>) returns (i: nat, ok: bool)
    requires IsHeap(heap) && CellIn(heap, c)
    modifies os, heap`busy
    ensures Dumped(heap, old(Unfold(heap, Busy(heap), c)), c, old(os.bytes), os.bytes, old(Busy(heap)), Busy(heap), i,
      ok)
    ensures ok ==> Writes(heap, c, os.bytes[|old(os.bytes)|..])
    decreases heap - Busy(heap), 2
  {
    hide Show, IsHeap, UnfoldAll, LeftBehind, Writes;
    ghost var z0, busy := os.bytes, Busy(heap);
    ok := true;
    match c {
      case CNil =>
        i := PutU32(os, NIL);
        NilShows();
      case CInt(n) => i := DumpInt(os, n);
      case CBool(n) => i := DumpBool(os, n);
      case CStr(z) => i := DumpKstr(os, z);
      case CObj(o) =>
        match o.body {
          case Elems(_) => i, ok := DumpDyay(os, o, heap);
          case Table(_, _) => i, ok := DumpTable(os, o, heap);
        }
      case COther =>
        LeftHere(heap, Busy(heap), c);
        i, ok := 0, false;
    }
    if ok { BytesWritten(heap, busy, c, z0, os.bytes); }
  }

  lemma {:induction false} NilShows()
    ensures Show(TNil) == Encode(NIL)
  {
  }

  // ------------------------------------------------------------------
  // The whole dump
  // ------------------------------------------------------------------

  lemma {:induction false} ShowNotEmpty(t: Tree)
    ensures |Show(t)| > 0
  {
    hide Encode;
    EncodeLength(NIL);
    EncodeLength(INT);
    EncodeLength(BOOL);
    EncodeLength(KSTR);
    if t.TNode? { EncodeLength(Tag(t.kind)); }
  }

  /** The bytes of a variable, unless the way to them is barred. */
  method Pdump(c: Cell, ghost heap: set<Obj>) returns (z: Option<seq<Byte>>)
    requires IsHeap(heap) && CellIn(heap, c)
    modifies heap`busy
    ensures z.Some? <==> !Cyclic(heap, c) && !Foreign(heap, c) && !Marked(heap, old(Busy(heap)), c)
    ensures var t := Unfold(heap, old(Busy(heap)), c);
      if z.Some? then t.Some? && z.value == Show(t.value) && Busy(heap) == old(Busy(heap))
      else LeftBehind(heap, old(Busy(heap)), c, Busy(heap))
    ensures z.Some? ==> Writes(heap, c, z.value)
  {
    hide Show, LeftBehind, Marked, Cyclic, Foreign, IsHeap, CellIn, Writes;
    ghost var busy, t := Busy(heap), Unfold(heap, Busy(heap), c);
    DumpsWhen(heap, busy, c);
    if t.Some? { ShowNotEmpty(t.value); }
    var os := new Out();
    var i, ok := Serialize(os, c, heap);
    assert os.bytes == [] + os.bytes && Unfold(heap, busy, c) == t;
    z := if i > 0 && ok then Some(os.bytes) else None;
  }

  /** With no marks, only a cycle or what cannot be dumped stands in the way. */
  lemma {:induction false} DumpsUnmarked(heap: set<Obj>, c: Cell)
    requires IsHeap(heap) && CellIn(heap, c)
    ensures Unfold(heap, {}, c).Some? <==> !Cyclic(heap, c) && !Foreign(heap, c)
  {
    hide Cyclic, Foreign, Unfold, IsHeap;
    DumpsWhen(heap, {}, c);
    NoneMarked(heap, c);
  }

  lemma {:induction false} NoneMarked(heap: set<Obj>, c: Cell)
    ensures !Marked(heap, {}, c)
  {
  }

  /** After a failed dump, what could be dumped with no marks is refused exactly if a walk from it comes to an
      object that the failed dump went through. */
  lemma {:induction false} RefusedLater(heap: set<Obj>, c: Cell, busy: set<Obj>, d: Cell)
    requires IsHeap(heap) && CellIn(heap, d) && LeftBehind(heap, {}, c, busy) && Unfold(heap, {}, d).Some?
    ensures Unfold(heap, busy, d).None? <==>
      exists p: seq<Obj>, q: seq<Obj> :: LeftBy(heap, {}, c, busy, p) && EndsBusy(heap, Objs(p), d, q)
  {
    hide Blocked, IsWalk, Unfold, Cyclic, Foreign, IsHeap;
    DumpsUnmarked(heap, d);
    DumpsWhen(heap, busy, d);
    if Marked(heap, busy, d) {
      var q: seq<Obj> :| EndsBusy(heap, busy, d, q);
      var p: seq<Obj> :| LeftBy(heap, {}, c, busy, p);
      assert EndsBusy(heap, Objs(p), d, q);
    }
    if p: seq<Obj>, q: seq<Obj> :| LeftBy(heap, {}, c, busy, p) && EndsBusy(heap, Objs(p), d, q) {
      assert EndsBusy(heap, busy, d, q);
    }
  }

  lemma {:induction false} LeftMarked(heap: set<Obj>, busy0: set<Obj>, c: Cell, busy: set<Obj>)
    requires LeftBehind(heap, busy0, c, busy) && c.CObj?
    ensures c.o in busy
  {
    var p: seq<Obj> :| LeftBy(heap, busy0, c, busy, p);
    assert p[0] in Objs(p);
  }

  /** An array that held what cannot be dumped cannot be dumped later either, when it is empty. */
  method FailedOnce() returns (first: Option<seq<Byte>>, second: Option<seq<Byte>>, o: Obj)
    ensures first == None && second == None && o.body == Elems([]) && Unfold({o}, {}, CObj(o)) == Some(TNode(Dyay, []))
  {
    hide Unfold, Cyclic, Foreign, LeftBehind;
    o := new Obj(Elems([COther]));
    ghost var heap := {o};
    ArrayMeans(heap, o);
    first := Pdump(CObj(o), heap);
    LeftMarked(heap, {}, CObj(o), Busy(heap));
    o.body := Elems([]);
    ArrayMeans(heap, o);
    assert EndsBusy(heap, Busy(heap), CObj(o), [o]);
    second := Pdump(CObj(o), heap);
  }

  lemma {:induction false} ArrayMeans(heap: set<Obj>, o: Obj)
    requires heap == {o} && o.body.Elems? && |o.body.elems| <= 1
    ensures o.body.elems == [COther] ==> Foreign(heap, CObj(o))
    ensures o.body.elems == [] ==> Unfold(heap, {}, CObj(o)) == Some(TNode(Dyay, []))
    ensures !o.busy ==> Busy(heap) == {}
  {
    if o.body.elems == [COther] { assert EndsForeign(heap, CObj(o), [o]); }
  }
}
