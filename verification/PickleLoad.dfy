/** Loading bytes onto the operand stack, and what becomes of a variable that is dumped and loaded. */
module PickleLoad {
  import opened Basics
  import opened Varint
  import opened PickleFormat
  import opened Pickle

  /** How a step ended: done, refused, in a panic, beyond what C defines, or at a function, which is not modelled. */
  datatype Status = Fine | Refusal | Panic | Lost | Beyond

  class Input {
    const buf: seq<Byte>
    var last: nat
    var stack: seq<Val>

    constructor (buf: seq<Byte>, stack: seq<Val>)
      ensures this.buf == buf && last == 0 && this.stack == stack
    {
      this.buf, last, this.stack := buf, 0, stack;
    }

    ghost predicate Valid()
      reads this
    {
      last <= |buf|
    }

    /** What was not read yet. */
    ghost function Rest(): seq<Byte>
      reads this
      requires Valid()
    {
      buf[last..]
    }

    /** A step that does to the stack and the input what `r` says; nothing is claimed of them at a function. */
    ghost predicate Does(r: Load<Val>, before: seq<Val>, s: Status)
      reads this
      requires Valid()
    {
      match r
      case Done(v, rest) => s == Fine && stack == before + [v] && Rest() == rest
      case Refused(left) => s == Refusal && stack == before + left
      case Panicked => s == Panic
      case Undefined => s == Lost
      case Outside => s == Beyond
    }

    /** A number can be read. */
    method Ready() returns (ok: bool)
      requires Valid()
      ensures ok <==> Scan(Rest(), 0).Some?
    {
      Terminated(Rest(), 0);
      ok := exists j :: last <= j < |buf| && buf[j] < 128;
    }

    method TakeWord() returns (x: nat, ok: bool)
      requires Valid()
      modifies this`last
      ensures Valid() && last >= old(last)
      ensures match LoadWord(old(Rest()))
        case Done(y, rest) => ok && x == y && Rest() == rest
        case _ => !ok && last == old(last)
    {
      x := 0;
      ok := Ready();
      if ok {
        ghost var rest := Rest();
        var k;
        x, k := Uint64Decode(buf[last..]);
        last := last + k;
        assert Rest() == rest[k..];
      }
    }

    method TakeU32() returns (x: nat, ok: bool)
      requires Valid()
      modifies this`last
      ensures Valid() && last >= old(last)
      ensures match LoadU32(old(Rest()))
        case Done(y, rest) => ok && x == y && Rest() == rest
        case _ => !ok && last == old(last)
    {
      x := 0;
      ok := Ready();
      if ok {
        ghost var rest := Rest();
        var k;
        x, k := Uint32Decode(buf[last..]);
        last := last + k;
        assert Rest() == rest[k..];
      }
    }

    method TakeInt() returns (i: int, ok: bool)
      requires Valid()
      modifies this`last
      ensures Valid() && last >= old(last)
      ensures match LoadWord(old(Rest()))
        case Done(y, rest) => ok && i == Unzigzag(y) && Rest() == rest
        case _ => !ok && last == old(last)
    {
      i := 0;
      ok := Ready();
      if ok {
        ghost var rest := Rest();
        var k;
        i, k := Sint64Decode(buf[last..]);
        ScanParts(rest, 0);
        last := last + k;
        assert Rest() == rest[k..];
      }
    }

    method Push(v: Val)
      modifies this`stack
      ensures stack == old(stack) + [v]
    {
      stack := stack + [v];
    }

    /** Moves the top into the array below it. */
    method Add(ghost before: seq<Val>, ghost vs: seq<Val>, ghost v: Val)
      requires stack == before + [Arr(vs)] + [v]
      modifies this`stack
      ensures stack == before + [Arr(vs + [v])]
    {
      var n := |stack| - 2;
      assert stack[n] == Arr(vs) && stack[n + 1] == v && stack[..n] == before;
      stack := stack[..n] + [Arr(stack[n].elems + [stack[n + 1]])];
    }

    /** Puts the top into the map two below it, under the key between them. */
    method PutF(ghost before: seq<Val>, ghost kind: Kind, ghost m: map<Val, Val>, ghost k: Val, ghost v: Val)
        returns (ok: bool)
      requires stack == before + [Map(kind, m), k] + [v]
      modifies this`stack
      ensures ok <==> !k.Nil?
      ensures ok ==> stack == before + [Map(kind, m[k := v])]
    {
      var n := |stack| - 3;
      assert stack[n] == Map(kind, m) && stack[n + 1] == k && stack[n + 2] == v && stack[..n] == before;
      ok := !stack[n + 1].Nil?;
      if ok {
        stack := stack[..n] + [Map(stack[n].kind, stack[n].m[stack[n + 1] := stack[n + 2]])];
      }
    }

    method LoadKstr() returns (s: Status)
      requires Valid()
      modifies this`last, this`stack
      ensures Valid() && Does(LoadStr(old(Rest())), old(stack), s) && last >= old(last)
    {
      ghost var before := stack;
      assert before + [] == before;
      var n, ok := TakeU32();
      if !ok || n >= LIMIT { return Lost; }
      if |buf| - last < n { return Refusal; }
      assert Rest()[..n] == buf[last..last + n] && Rest()[n..] == buf[last + n..];
      Push(Str(buf[last..last + n]));
      last := last + n;
      s := Fine;
    }

    method LoadDyay() returns (s: Status)
      requires Valid()
      modifies this`last, this`stack
      ensures Valid() && Does(LoadArr(old(Rest())), old(stack), s) && last >= old(last)
      decreases |buf| - last, 1
    {
      hide LoadU32, Parse, LoadElems;
      ghost var before, start := stack, last;
      WordTaken(Rest());
      var n, ok := TakeU32();
      if !ok || n >= LIMIT { return Lost; }
      Push(Arr([]));
      ghost var whole, vs: seq<Val> := LoadElems([], n, Rest()), [];
      assert whole == LoadArr(old(Rest()));
      while n > 0
        invariant n >= 0 && Valid() && start < last && stack == before + [Arr(vs)] && whole == LoadElems(vs, n, Rest())
        decreases n
      {
        hide LoadU32, Parse, LoadElems;
        ElemsStep(vs, n, Rest());
        ghost var r := Parse(Rest());
        var k, t := ParseVar();
        if t != Fine {
          if r.Refused? { Assoc(before, [Arr(vs)], r.left); }
          return t;
        }
        Add(before, vs, r.v);
        vs := vs + [r.v];
        n := n - 1;
      }
      ElemsStep(vs, 0, Rest());
      s := Fine;
    }

    method LoadTable(kind: Kind) returns (s: Status)
      requires Valid()
      modifies this`last, this`stack
      ensures Valid() && Does(LoadMap(kind, old(Rest())), old(stack), s) && last >= old(last)
      decreases |buf| - last, 1
    {
      hide LoadU32, Parse, LoadPairs;
      ghost var before, start := stack, last;
      WordTaken(Rest());
      var n, ok := TakeU32();
      if !ok { return Lost; }
      if n >= LIMIT { n := 0; }
      Push(Map(kind, map[]));
      ghost var whole, m: map<Val, Val> := LoadPairs(kind, map[], n, Rest()), map[];
      assert whole == LoadMap(kind, old(Rest()));
      while n > 0
        invariant n >= 0 && Valid() && start < last && stack == before + [Map(kind, m)]
        invariant whole == LoadPairs(kind, m, n, Rest())
        decreases n
      {
        hide LoadU32, Parse, LoadPairs;
        PairsStep(kind, m, n, Rest());
        ghost var r := Parse(Rest());
        var k, t := ParseVar();
        if t != Fine {
          if r.Refused? { Assoc(before, [Map(kind, m)], r.left); }
          return t;
        }
        assert stack == before + [Map(kind, m), r.v];
        ghost var q := Parse(Rest());
        k, t := ParseVar();
        if t != Fine {
          if q.Refused? { Assoc(before, [Map(kind, m), r.v], q.left); }
          return t;
        }
        ok := PutF(before, kind, m, r.v, q.v);
        if !ok { return Panic; }
        m := m[r.v := q.v];
        n := n - 1;
      }
      PairsStep(kind, m, 0, Rest());
      s := Fine;
    }

    /** Reads a value onto the stack: the bytes after its tag, and how it went. */
    method ParseVar() returns (n: nat, s: Status)
      requires Valid()
      modifies this`last, this`stack
      ensures Valid() && Does(Parse(old(Rest())), old(stack), s) && last >= old(last)
      ensures s == Fine ==> old(last) < last && (n == 0 <==> stack[|stack| - 1].Nil?)
      ensures s == Fine ==> AskedFor(buf[old(last)], stack[|stack| - 1])
      decreases |buf| - last, 2
    {
      hide LoadU32, LoadWord, LoadStr, LoadArr, LoadMap, AskedFor;
      if Parse(Rest()).Done? { FirstByte(Rest()); }
      n := 0;
      ghost var before, start := stack, last;
      WordTaken(Rest());
      var tag, ok := TakeU32();
      if !ok { return 0, Lost; }
      ghost var c := Rest();
      var off := last;
      assert before + [] == before;
      WordTaken(c);
      if tag == NIL {
        Push(Nil);
        s := Fine;
      } else if tag == INT {
        var i;
        i, ok := TakeInt();
        if !ok { return 0, Lost; }
        Push(Int(i));
        s := Fine;
      } else if tag == BOOL {
        var x;
        x, ok := TakeWord();
        if !ok { return 0, Lost; }
        Push(Bool(ToInt(x)));
        s := Fine;
      } else if tag == KSTR {
        s := LoadKstr();
        StrTaken(c);
      } else if tag == FUNC {
        s := Beyond;
      } else if tag == Tag(Dyay) {
        s := LoadDyay();
        ArrTaken(c);
      } else if tag == Tag(Hmap) {
        s := LoadTable(Hmap);
        MapTaken(Hmap, c);
      } else if tag == Tag(Skls) {
        s := LoadTable(Skls);
        MapTaken(Skls, c);
      } else {
        s := Refusal;
      }
      n := last - off;
    }

    /** Loads the value that the input starts with: the bytes it takes, or 0 for nil and for what is refused,
        when the top of the stack is dropped. */
    method Pload() returns (i: nat, s: Status)
      requires last == 0
      modifies this`last, this`stack
      ensures match Parse(buf)
        case Done(v, rest) =>
          s == Fine && (if v.Nil? then i == 0 && stack == old(stack)
                        else 0 < i <= |buf| && buf[i..] == rest && stack == old(stack) + [v])
        case Refused(left) =>
          var all := old(stack) + left;
          i == 0 && if all == [] then s == Panic else s == Refusal && stack + [all[|all| - 1]] == all
        case Panicked => s == Panic
        case Undefined => s == Lost
        case Outside => s == Beyond
      ensures s == Fine ==> buf != [] && (buf[0] == 0 ==> i == 0) && (buf[0] in {1, 2, 4, 6, 7, 8} ==> i > 0)
      ensures s == Fine && i > 0 ==> stack != [] && AskedFor(buf[0], stack[|stack| - 1])
      ensures StartsBadly(buf) ==>
        if old(stack) == [] then s == Panic else s == Refusal && stack + [old(stack)[|old(stack)| - 1]] == old(stack)
      ensures s == Refusal ==> (old(stack) <= stack <==> !StartsBadly(buf)) && (stack == old(stack) <==> BadInside(buf))
    {
      hide Parse, StartsBadly, BadInside;
      NothingLeft(buf);
      OneLeft(buf);
      if Parse(buf).Done? { FirstByte(buf); }
      assert Rest() == buf;
      var n;
      n, s := ParseVar();
      i := 0;
      if s == Fine && n > 0 {
        i := last;
      } else if s == Fine || s == Refusal {
        if stack == [] { return 0, Panic; }
        stack := stack[..|stack| - 1];
      }
    }
  }

  // ------------------------------------------------------------------
  // Steps of the load
  // ------------------------------------------------------------------

  /** A number can be read exactly if some byte has its top bit clear. */
  lemma {:induction false} Terminated(b: seq<Byte>, x: nat)
    ensures Scan(b, x).Some? <==> exists j :: 0 <= j < |b| && b[j] < 128
  {
    if b != [] && b[0] >= 128 {
      Terminated(b[1..], Varint.Push(x, b[0]));
      if j :| 0 <= j < |b| && b[j] < 128 { assert b[1..][j - 1] < 128; }
      if j :| 0 <= j < |b[1..]| && b[1..][j] < 128 { assert b[j + 1] < 128; }
    }
  }

  lemma {:induction false} WordTaken(b: seq<Byte>)
    ensures LoadWord(b).Done? ==> |LoadWord(b).rest| < |b|
    ensures LoadU32(b).Done? ==> |LoadU32(b).rest| < |b| && LoadU32(b).v < U32
    ensures LoadU32(b).Done? || LoadU32(b).Undefined?
    ensures LoadWord(b).Done? || LoadWord(b).Undefined?
  {
  }

  lemma {:induction false} StrTaken(c: seq<Byte>)
    ensures var r := LoadStr(c); r.Done? ==> |r.rest| < |c| && r.v.Str?
  {
  }

  lemma {:induction false} ArrTaken(c: seq<Byte>)
    ensures var r := LoadArr(c); r.Done? ==> |r.rest| < |c| && r.v.Arr?
  {
    if LoadU32(c).Done? { ElemsKind([], LoadU32(c).v, LoadU32(c).rest); }
  }

  lemma {:induction false} MapTaken(kind: Kind, c: seq<Byte>)
    ensures var r := LoadMap(kind, c); r.Done? ==> |r.rest| < |c| && r.v.Map? && r.v.kind == kind
  {
    if LoadU32(c).Done? {
      var n := LoadU32(c).v;
      PairsKind(kind, map[], if n >= LIMIT then 0 else n, LoadU32(c).rest);
    }
  }

  lemma {:induction false} ElemsKind(vs: seq<Val>, n: nat, b: seq<Byte>)
    ensures var r := LoadElems(vs, n, b); r.Done? ==> r.v.Arr?
    decreases n
  {
    if n > 0 && Parse(b).Done? { ElemsKind(vs + [Parse(b).v], n - 1, Parse(b).rest); }
  }

  lemma {:induction false} PairsKind(kind: Kind, m: map<Val, Val>, n: nat, b: seq<Byte>)
    ensures var r := LoadPairs(kind, m, n, b); r.Done? ==> r.v.Map? && r.v.kind == kind
    decreases n
  {
    if n > 0 && Parse(b).Done? {
      var k, c := Parse(b).v, Parse(b).rest;
      if Parse(c).Done? { PairsKind(kind, m[k := Parse(c).v], n - 1, Parse(c).rest); }
    }
  }

  /** What a first byte asks for: 0 for nil, 1 for an integer, 2 for a bool, 4 for a string, 6 for an array, 7 for a
      hash map and 8 for a skip list. */
  predicate AskedFor(tag: Byte, v: Val) {
    (tag == 0 ==> v.Nil?) && (tag == 1 ==> v.Int?) && (tag == 2 ==> v.Bool?) && (tag == 4 ==> v.Str?) &&
    (tag == 6 ==> v.Arr?) && (tag == 7 ==> v.Map? && v.kind.Hmap?) && (tag == 8 ==> v.Map? && v.kind.Skls?)
  }

  /** A load that succeeds gives a value of the kind that the first byte asks for. */
  lemma {:induction false} FirstByte(b: seq<Byte>)
    requires Parse(b).Done?
    ensures b != [] && AskedFor(b[0], Parse(b).v)
  {
    hide LoadStr, LoadArr, LoadMap;
    ScanParts(b, 0);
    if b[0] < 128 {
      var c := b[1..];
      assert LoadU32(b) == Done(b[0], c);
      StrTaken(c);
      ArrTaken(c);
      MapTaken(Hmap, c);
      MapTaken(Skls, c);
    }
  }

  lemma {:induction false} ElemsStep(vs: seq<Val>, n: nat, b: seq<Byte>)
    ensures LoadElems(vs, n, b) ==
      if n == 0 then Done(Arr(vs), b)
      else
        match Parse(b)
        case Done(v, rest) => LoadElems(vs + [v], n - 1, rest)
        case Refused(left) => Refused([Arr(vs)] + left)
        case other => other
  {
  }

  lemma {:induction false} PairsStep(kind: Kind, m: map<Val, Val>, n: nat, b: seq<Byte>)
    ensures LoadPairs(kind, m, n, b) ==
      if n == 0 then Done(Map(kind, m), b)
      else
        match Parse(b)
        case Done(k, c) =>
          (match Parse(c)
           case Done(v, rest) => if k.Nil? then Panicked else LoadPairs(kind, m[k := v], n - 1, rest)
           case Refused(left) => Refused([Map(kind, m), k] + left)
           case other => other)
        case Refused(left) => Refused([Map(kind, m)] + left)
        case other => other
  {
  }

  // ------------------------------------------------------------------
  // What was dumped is loaded
  // ------------------------------------------------------------------

  /** A map of the tree has a nil key. */
  predicate NilKey(t: Tree)
    decreases t, 1
  {
    t.TNode? && (AnyNilKey(t.elems) || (!t.kind.Dyay? && NilAmong(t.elems)))
  }

  predicate AnyNilKey(s: seq<Tree>)
    decreases s, 0
  {
    s != [] && (NilKey(s[0]) || AnyNilKey(s[1..]))
  }

  /** A key is nil; keys and values come in turn. */
  predicate NilAmong(s: seq<Tree>) {
    |s| >= 2 && (s[0].TNil? || NilAmong(s[2..]))
  }

  /** A tree has a value unless a map in it has a nil key. */
  lemma {:induction false} HasValue(t: Tree)
    requires Fits(t)
    ensures Value(t).Some? <==> !NilKey(t)
    ensures t.TNil? <==> Value(t) == Some(Nil)
    decreases t, 1
  {
    if t.TNode? {
      if t.kind.Dyay? { AllHaveValues(t.elems); } else { PairsHaveValues(map[], t.elems); }
    }
  }

  lemma {:induction false} AllHaveValues(s: seq<Tree>)
    requires FitsAll(s)
    ensures ValueAll(s).Some? <==> !AnyNilKey(s)
    decreases s, 0
  {
    if s != [] {
      HasValue(s[0]);
      AllHaveValues(s[1..]);
    }
  }

  lemma {:induction false} PairsHaveValues(m: map<Val, Val>, s: seq<Tree>)
    requires FitsAll(s) && |s| % 2 == 0
    ensures ValuePairs(m, s).Some? <==> !AnyNilKey(s) && !NilAmong(s)
    decreases s, 0
  {
    hide NilKey, Value, Fits;
    if s != [] {
      HasValue(s[0]);
      HasValue(s[1]);
      assert s[1..][0] == s[1] && s[1..][1..] == s[2..];
      if Value(s[0]).Some? && Value(s[1]).Some? && !Value(s[0]).value.Nil? {
        PairsHaveValues(m[Value(s[0]).value := Value(s[1]).value], s[2..]);
      } else if Value(s[0]).Some? && Value(s[1]).Some? {
        assert s[0].TNil?;
      }
    }
  }

  lemma {:induction false} FitsAllJoin(s: seq<Tree>, t: Tree)
    requires FitsAll(s) && Fits(t)
    ensures FitsAll(s + [t])
    decreases s
  {
    hide Fits;
    if s == [] {
      assert (s + [t])[1..] == [];
    } else {
      assert (s + [t])[1..] == s[1..] + [t];
      FitsAllJoin(s[1..], t);
    }
  }

  /** What a variable unfolds to is something the format can hold. */
  lemma {:induction false} UnfoldFits(heap: set<Obj>, busy: set<Obj>, c: Cell)
    requires IsHeap(heap) && CellIn(heap, c) && Unfold(heap, busy, c).Some?
    ensures Fits(Unfold(heap, busy, c).value)
    decreases heap - busy, 0
  {
    hide UnfoldAll, Used;
    if c.CObj? {
      assert c.o in heap - busy && BodyIn(heap, c.o.body);
      UnfoldAllFits(heap, busy + {c.o}, Cells(c.o.body));
      UnfoldAllLength(heap, busy + {c.o}, Cells(c.o.body));
      if c.o.body.Table? { UsedEven(c.o.body.item); }
    }
  }

  lemma {:induction false} UsedEven(item: seq<Entry>)
    ensures |Used(item)| % 2 == 0 && |Used(item)| <= 2 * |item|
    decreases |item|
  {
    if item != [] { UsedEven(item[..|item| - 1]); }
  }

  lemma {:induction false} UnfoldAllFits(heap: set<Obj>, busy: set<Obj>, cs: seq<Cell>)
    requires IsHeap(heap) && AllIn(heap, cs) && UnfoldAll(heap, busy, cs).Some?
    ensures FitsAll(UnfoldAll(heap, busy, cs).value)
    decreases heap - busy, |cs|
  {
    hide Unfold, Fits;
    if cs != [] {
      var n := |cs| - 1;
      UnfoldAllFits(heap, busy, cs[..n]);
      UnfoldFits(heap, busy, cs[n]);
      FitsAllJoin(UnfoldAll(heap, busy, cs[..n]).value, Unfold(heap, busy, cs[n]).value);
    }
  }

  /** A variable from which no cycle and nothing foreign can be reached is loaded again from its dump: as the
      value it unfolds to, but with zero for the least integer, and without a byte of what follows. If no map has a
      nil key, or a key twice, it is that value exactly if there is no least integer in it. */
  lemma {:induction false} DumpLoads(heap: set<Obj>, c: Cell, rest: seq<Byte>)
    requires IsHeap(heap) && CellIn(heap, c) && !Cyclic(heap, c) && !Foreign(heap, c)
    ensures var t := Unfold(heap, {}, c);
      t.Some? && Parse(Show(t.value) + rest) == Loaded(Value(Zeroed(t.value)), rest) &&
      (Value(t.value).Some? <==> !NilKey(t.value)) &&
      (Distinct(t.value) && !NilKey(t.value) ==>
        (Parse(Show(t.value) + rest) == Loaded(Value(t.value), rest) <==> !HasLeast(t.value)))
  {
    hide IsHeap, Cyclic, Foreign, Unfold, Value, Show, Parse, Fits, Zeroed, HasLeast, NilKey, Distinct;
    DumpsUnmarked(heap, c);
    UnfoldFits(heap, {}, c);
    var t := Unfold(heap, {}, c).value;
    LoadShow(t, rest);
    HasValue(t);
    if Distinct(t) && !NilKey(t) { ZeroedValue(t); }
  }

  /** A load of what starts with an unknown tag takes a value from the stack that it did not put there. */
  method RefusedLoad(v: Val) returns (inp: Input, i: nat, s: Status)
    ensures i == 0 && s == Refusal && inp.stack == []
  {
    inp := new Input([3], [v]);
    assert Scan([3], 0) == Some((3, 1)) && Parse([3]) == Refused([]);
    assert [v] + [] == [v];
    i, s := inp.Pload();
    assert inp.stack + [v] == [v];
  }
}
