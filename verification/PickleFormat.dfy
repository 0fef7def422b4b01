/** The pickle format: what the dump writes and what the load makes of it. */
module PickleFormat {
  import opened Basics
  import opened Varint

  const NIL: nat := 0
  const INT: nat := 1
  const BOOL: nat := 2
  const KSTR: nat := 4
  const FUNC: nat := 5

  const LIMIT: nat := 0x8000_0000

  datatype Kind = Dyay | Hmap | Skls

  function Tag(k: Kind): nat {
    match k
    case Dyay => 6
    case Hmap => 7
    case Skls => 8
  }

  /** A value with nothing shared and no cycle. The members of a map are its keys and values in turn. */
  datatype Tree = TNil | TInt(i: int) | TBool(n: int) | TStr(z: seq<Byte>) | TNode(kind: Kind, elems: seq<Tree>)

  /** The value that a tree stands for. */
  datatype Val =
    | Nil | Int(i: int) | Bool(n: int) | Str(z: seq<Byte>)
    | Arr(elems: seq<Val>) | Map(kind: Kind, m: map<Val, Val>)

  // ------------------------------------------------------------------
  // Writing
  // ------------------------------------------------------------------

  function Count(kind: Kind, n: nat): nat {
    if kind.Dyay? then n else n / 2
  }

  function Show(t: Tree): seq<Byte>
    decreases t, 1
  {
    match t
    case TNil => Encode(NIL)
    case TInt(i) => Encode(INT) + EncodeSigned(i)
    case TBool(n) => Encode(BOOL) + Encode(n % U64)
    case TStr(z) => Encode(KSTR) + Encode(|z|) + z
    case TNode(kind, elems) => Encode(Tag(kind)) + Encode(Count(kind, |elems|)) + ShowAll(elems)
  }

  function ShowAll(s: seq<Tree>): seq<Byte>
    decreases s, 0
  {
    if s == [] then [] else Show(s[0]) + ShowAll(s[1..])
  }

  lemma {:induction false} ShowAllJoin(s: seq<Tree>, r: seq<Tree>)
    ensures ShowAll(s + r) == ShowAll(s) + ShowAll(r)
  {
    if s == [] {
      assert s + r == r;
    } else {
      assert (s + r)[1..] == s[1..] + r;
      ShowAllJoin(s[1..], r);
      Assoc(Show(s[0]), ShowAll(s[1..]), ShowAll(r));
    }
  }

  lemma {:induction false} ShowAllOne(t: Tree)
    ensures ShowAll([t]) == Show(t)
  {
    assert ShowAll([t]) == Show(t) + ShowAll([t][1..]);
  }

  // ------------------------------------------------------------------
  // What is meant
  // ------------------------------------------------------------------

  /** The value of a tree; none if a map has a nil key, which no map can hold. */
  function Value(t: Tree): Option<Val>
    decreases t, 1
  {
    match t
    case TNil => Some(Nil)
    case TInt(i) => Some(Int(i))
    case TBool(n) => Some(Bool(n))
    case TStr(z) => Some(Str(z))
    case TNode(kind, elems) =>
      if kind.Dyay? then
        (match ValueAll(elems) case None => None case Some(vs) => Some(Arr(vs)))
      else
        (match ValuePairs(map[], elems) case None => None case Some(m) => Some(Map(kind, m)))
  }

  function ValueAll(s: seq<Tree>): Option<seq<Val>>
    decreases s, 0
  {
    if s == [] then Some([])
    else
      match Value(s[0])
      case None => None
      case Some(v) => match ValueAll(s[1..]) case None => None case Some(vs) => Some([v] + vs)
  }

  /** The map `m` with the keys and values put in one by one. */
  function ValuePairs(m: map<Val, Val>, s: seq<Tree>): Option<map<Val, Val>>
    decreases s, 0
  {
    if |s| < 2 then Some(m)
    else
      match Value(s[0])
      case None => None
      case Some(k) =>
        match Value(s[1])
        case None => None
        case Some(v) => if k.Nil? then None else ValuePairs(m[k := v], s[2..])
  }

  /** What the format can hold: words of 64 bits, bools that are an `int`, and counts that fit an `int`. */
  predicate Fits(t: Tree)
    decreases t, 1
  {
    match t
    case TNil => true
    case TInt(i) => Signed(i, true)
    case TBool(n) => Signed(n, false)
    case TStr(z) => |z| < LIMIT
    case TNode(kind, elems) => |elems| < LIMIT && (kind.Dyay? || |elems| % 2 == 0) && FitsAll(elems)
  }

  predicate FitsAll(s: seq<Tree>)
    decreases s, 0
  {
    s == [] || (Fits(s[0]) && FitsAll(s[1..]))
  }

  /** The tree with zero for the least integer. */
  function Zeroed(t: Tree): Tree
    decreases t, 1
  {
    match t
    case TInt(i) => if i == -0x8000_0000_0000_0000 then TInt(0) else t
    case TNode(kind, elems) => TNode(kind, ZeroedAll(elems))
    case _ => t
  }

  function ZeroedAll(s: seq<Tree>): (r: seq<Tree>)
    ensures |r| == |s|
    decreases s, 0
  {
    if s == [] then [] else [Zeroed(s[0])] + ZeroedAll(s[1..])
  }

  predicate HasLeast(t: Tree)
    decreases t, 1
  {
    match t
    case TInt(i) => i == -0x8000_0000_0000_0000
    case TNode(_, elems) => AnyLeast(elems)
    case _ => false
  }

  predicate AnyLeast(s: seq<Tree>)
    decreases s, 0
  {
    s != [] && (HasLeast(s[0]) || AnyLeast(s[1..]))
  }

  lemma {:induction false} ZeroedSame(t: Tree)
    ensures Zeroed(t) == t <==> !HasLeast(t)
    decreases t, 1
  {
    if t.TNode? { ZeroedAllSame(t.elems); }
  }

  lemma {:induction false} ZeroedAllSame(s: seq<Tree>)
    ensures ZeroedAll(s) == s <==> !AnyLeast(s)
    decreases s, 0
  {
    if s != [] {
      ZeroedSame(s[0]);
      ZeroedAllSame(s[1..]);
      assert s == [s[0]] + s[1..];
      Parts([Zeroed(s[0])], ZeroedAll(s[1..]));
      assert ZeroedAll(s)[0] == Zeroed(s[0]);
    }
  }

  // ------------------------------------------------------------------
  // What zero for the least integer changes
  // ------------------------------------------------------------------

  /** No map of the tree has a key twice. */
  predicate Distinct(t: Tree)
    decreases t, 1
  {
    t.TNode? ==> DistinctAll(t.elems) && (t.kind.Dyay? || KeysDiffer(t.elems))
  }

  predicate DistinctAll(s: seq<Tree>)
    decreases s, 0
  {
    s == [] || (Distinct(s[0]) && DistinctAll(s[1..]))
  }

  predicate KeysDiffer(s: seq<Tree>) {
    |s| < 2 || (!KeyAmong(Value(s[0]), s[2..]) && KeysDiffer(s[2..]))
  }

  predicate KeyAmong(k: Option<Val>, s: seq<Tree>) {
    |s| >= 2 && (Value(s[0]) == k || KeyAmong(k, s[2..]))
  }

  /** Putting zero for the least integer leaves the value as it is exactly if there is no least integer in it. */
  lemma {:induction false} ZeroedValue(t: Tree)
    requires Fits(t) && Distinct(t) && Value(t).Some?
    ensures Value(Zeroed(t)) == Value(t) <==> !HasLeast(t)
  {
    ZeroedSame(t);
    if Value(Zeroed(t)) == Value(t) { NoLeast(t, t); }
  }

  /** Nothing with a least integer in it has the value of a tree with zeros. */
  lemma {:induction false} NoLeast(t: Tree, u: Tree)
    requires Fits(t) && Distinct(t) && Value(t).Some? && Value(t) == Value(Zeroed(u))
    ensures !HasLeast(t)
    decreases t, 1
  {
    hide ValueAll, ValuePairs, FitsAll, DistinctAll, KeysDiffer, AnyLeast, ZeroedAll;
    if t.TNode? && t.kind.Dyay? {
      NoLeastAmong(t.elems, u.elems);
    } else if t.TNode? {
      NoLeastPaired(map[], t.elems, u.elems);
    }
  }

  lemma {:induction false} NoLeastAmong(s: seq<Tree>, r: seq<Tree>)
    requires FitsAll(s) && DistinctAll(s) && ValueAll(s).Some? && ValueAll(s) == ValueAll(ZeroedAll(r))
    ensures !AnyLeast(s)
    decreases s, 0
  {
    hide Value, Fits, Distinct, HasLeast, Zeroed;
    if s != [] {
      var z := ZeroedAll(r);
      assert ValueAll(s).value != [] && z != [];
      assert z[0] == Zeroed(r[0]) && z[1..] == ZeroedAll(r[1..]);
      var v, w := ValueAll(s[1..]).value, ValueAll(z[1..]).value;
      assert [Value(s[0]).value] + v == [Value(z[0]).value] + w;
      Parts([Value(s[0]).value], v);
      Parts([Value(z[0]).value], w);
      NoLeast(s[0], r[0]);
      NoLeastAmong(s[1..], r[1..]);
    }
  }

  lemma {:induction false} NoLeastPaired(m: map<Val, Val>, s: seq<Tree>, r: seq<Tree>)
    requires FitsAll(s) && DistinctAll(s) && |s| % 2 == 0 && KeysDiffer(s)
    requires ValuePairs(m, s).Some? && ValuePairs(m, s) == ValuePairs(map[], ZeroedAll(r))
    ensures !AnyLeast(s)
    decreases s, 0
  {
    hide Value, Fits, Distinct, HasLeast, Zeroed, KeyAmong;
    if s != [] {
      var k, v, f := Value(s[0]).value, Value(s[1]).value, ValuePairs(m, s).value;
      assert s[1..][0] == s[1] && s[1..][1..] == s[2..];
      KeyStays(m[k := v], s[2..], k);
      var j := KeyFrom(map[], ZeroedAll(r), k);
      ZeroedAt(r, j);
      ZeroedAt(r, j + 1);
      NoLeast(s[0], r[j]);
      NoLeast(s[1], r[j + 1]);
      NoLeastPaired(m[k := v], s[2..], r);
    }
  }

  lemma {:induction false} ZeroedAt(s: seq<Tree>, j: nat)
    requires j < |s|
    ensures ZeroedAll(s)[j] == Zeroed(s[j])
  {
    hide Zeroed;
    if j > 0 { ZeroedAt(s[1..], j - 1); }
  }

  /** A key keeps its value if it does not come again. */
  lemma {:induction false} KeyStays(m: map<Val, Val>, s: seq<Tree>, k: Val)
    requires k in m && !KeyAmong(Some(k), s) && ValuePairs(m, s).Some?
    ensures var f := ValuePairs(m, s).value; k in f && f[k] == m[k]
    decreases s
  {
    hide Value;
    if |s| >= 2 { KeyStays(m[Value(s[0]).value := Value(s[1]).value], s[2..], k); }
  }

  /** A key with its value comes from the members. */
  lemma {:induction false} KeyFrom(m: map<Val, Val>, s: seq<Tree>, k: Val) returns (j: nat)
    requires var f := ValuePairs(m, s); f.Some? && k in f.value && (k in m ==> f.value[k] != m[k])
    ensures j + 1 < |s| && j % 2 == 0 && Value(s[j]) == Some(k) && Value(s[j + 1]) == Some(ValuePairs(m, s).value[k])
    decreases s
  {
    hide Value;
    var k0, v0 := Value(s[0]).value, Value(s[1]).value;
    if k == k0 && ValuePairs(m, s).value[k] == v0 {
      j := 0;
    } else {
      j := KeyFrom(m[k0 := v0], s[2..], k);
      j := j + 2;
    }
  }

  // ------------------------------------------------------------------
  // Reading
  // ------------------------------------------------------------------

  /** How a load ends: with a value and what follows it in the input; refused, with what is left on the stack;
      with a panic over a nil key; beyond what C defines, past the end of the input or with a count below zero; or
      at the tag of a function, where the format modelled here ends and nothing is claimed. */
  datatype Load<+T> = Done(v: T, rest: seq<Byte>) | Refused(left: seq<Val>) | Panicked | Undefined | Outside

  function LoadWord(b: seq<Byte>): (r: Load<nat>)
    ensures r.Done? ==> |r.rest| < |b|
    ensures r.Done? || r.Undefined?
  {
    ScanParts(b, 0);
    match Scan(b, 0)
    case None => Undefined
    case Some(p) => Done(p.0, b[p.1..])
  }

  function LoadU32(b: seq<Byte>): (r: Load<nat>)
    ensures r.Done? ==> |r.rest| < |b| && r.v < U32
    ensures r.Done? || r.Undefined?
  {
    match LoadWord(b)
    case Done(x, rest) => Done(x % U32, rest)
    case r => r
  }

  /** The low half of a word as an `int`. */
  function ToInt(x: nat): int {
    var n: int := x % U32;
    if n < LIMIT then n else n - U32
  }

  function Parse(b: seq<Byte>): (r: Load<Val>)
    ensures r.Done? ==> |r.rest| < |b|
    decreases |b|, 0
  {
    match LoadU32(b)
    case Done(tag, c) =>
      if tag == NIL then Done(Nil, c)
      else if tag == INT then
        (match LoadWord(c) case Done(x, rest) => Done(Int(Unzigzag(x)), rest) case _ => Undefined)
      else if tag == BOOL then
        (match LoadWord(c) case Done(x, rest) => Done(Bool(ToInt(x)), rest) case _ => Undefined)
      else if tag == KSTR then LoadStr(c)
      else if tag == FUNC then Outside
      else if tag == Tag(Dyay) then LoadArr(c)
      else if tag == Tag(Hmap) then LoadMap(Hmap, c)
      else if tag == Tag(Skls) then LoadMap(Skls, c)
      else Refused([])
    case _ => Undefined
  }

  function LoadStr(c: seq<Byte>): (r: Load<Val>)
    ensures r.Done? ==> |r.rest| < |c|
  {
    match LoadU32(c)
    case Done(n, d) => if n >= LIMIT then Undefined else if |d| < n then Refused([]) else Done(Str(d[..n]), d[n..])
    case _ => Undefined
  }

  function LoadArr(c: seq<Byte>): (r: Load<Val>)
    ensures r.Done? ==> |r.rest| < |c|
    decreases |c|, 2
  {
    match LoadU32(c)
    case Done(n, d) => if n >= LIMIT then Undefined else LoadElems([], n, d)
    case _ => Undefined
  }

  function LoadMap(kind: Kind, c: seq<Byte>): (r: Load<Val>)
    ensures r.Done? ==> |r.rest| < |c|
    decreases |c|, 2
  {
    match LoadU32(c)
    case Done(n, d) => LoadPairs(kind, map[], if n >= LIMIT then 0 else n, d)
    case _ => Undefined
  }

  /** `n` more elements of the array on the stack. */
  function LoadElems(vs: seq<Val>, n: nat, b: seq<Byte>): (r: Load<Val>)
    ensures r.Done? ==> |r.rest| <= |b|
    decreases |b|, 1
  {
    if n == 0 then Done(Arr(vs), b)
    else
      match Parse(b)
      case Done(v, rest) => LoadElems(vs + [v], n - 1, rest)
      case Refused(left) => Refused([Arr(vs)] + left)
      case other => other
  }

  /** `n` more entries of the map on the stack. */
  function LoadPairs(kind: Kind, m: map<Val, Val>, n: nat, b: seq<Byte>): (r: Load<Val>)
    ensures r.Done? ==> |r.rest| <= |b|
    decreases |b|, 1
  {
    if n == 0 then Done(Map(kind, m), b)
    else
      match Parse(b)
      case Done(k, c) =>
        (match Parse(c)
         case Done(v, rest) => if k.Nil? then Panicked else LoadPairs(kind, m[k := v], n - 1, rest)
         case Refused(left) => Refused([Map(kind, m), k] + left)
         case other => other)
      case Refused(left) => Refused([Map(kind, m)] + left)
      case other => other
  }

  /** The input starts with a tag that is not known, or with a string that is longer than what follows. */
  predicate StartsBadly(b: seq<Byte>) {
    match LoadU32(b)
    case Done(tag, c) =>
      if tag == KSTR then (match LoadU32(c) case Done(n, d) => |d| < n < LIMIT case _ => false)
      else tag !in {NIL, INT, BOOL, FUNC, Tag(Dyay), Tag(Hmap), Tag(Skls)}
    case _ => false
  }

  /** A refused load leaves nothing of its own on the stack exactly if the input starts badly; one that is refused
      further on leaves at least the array or the map that it was loading. */
  lemma {:induction false} NothingLeft(b: seq<Byte>)
    ensures Parse(b) == Refused([]) <==> StartsBadly(b)
  {
    hide LoadU32, LoadWord, LoadElems, LoadPairs;
    if LoadU32(b).Done? && LoadU32(LoadU32(b).rest).Done? {
      var c := LoadU32(b).rest;
      var n, d := LoadU32(c).v, LoadU32(c).rest;
      ElemsLeft([], n, d);
      PairsLeft(Hmap, map[], if n >= LIMIT then 0 else n, d);
      PairsLeft(Skls, map[], if n >= LIMIT then 0 else n, d);
    }
  }

  lemma {:induction false} ElemsLeft(vs: seq<Val>, n: nat, b: seq<Byte>)
    ensures LoadElems(vs, n, b) != Refused([])
    decreases n
  {
    hide Parse;
    if n > 0 && Parse(b).Done? {
      ElemsLeft(vs + [Parse(b).v], n - 1, Parse(b).rest);
    } else if n > 0 && Parse(b).Refused? {
      assert |[Arr(vs)] + Parse(b).left| > 0;
    }
  }

  lemma {:induction false} PairsLeft(kind: Kind, m: map<Val, Val>, n: nat, b: seq<Byte>)
    ensures LoadPairs(kind, m, n, b) != Refused([])
    decreases n
  {
    hide Parse;
    if n > 0 && Parse(b).Done? {
      var k, c := Parse(b).v, Parse(b).rest;
      if Parse(c).Done? && !k.Nil? {
        PairsLeft(kind, m[k := Parse(c).v], n - 1, Parse(c).rest);
      } else if Parse(c).Refused? {
        assert |[Map(kind, m), k] + Parse(c).left| > 0;
      }
    } else if n > 0 && Parse(b).Refused? {
      assert |[Map(kind, m)] + Parse(b).left| > 0;
    }
  }

  /** An array that the input starts with has a member that starts badly, or a map has such a key, and what comes
      before it can be loaded. */
  predicate BadInside(b: seq<Byte>) {
    match LoadU32(b)
    case Done(tag, c) => (
      match LoadU32(c)
      case Done(n, d) =>
        n < LIMIT && (if tag == Tag(Dyay) then BadMember(n, d) else tag in {Tag(Hmap), Tag(Skls)} && BadKey(n, d))
      case _ => false)
    case _ => false
  }

  predicate BadMember(n: nat, b: seq<Byte>) {
    n > 0 && (StartsBadly(b) || (Parse(b).Done? && BadMember(n - 1, Parse(b).rest)))
  }

  predicate BadKey(n: nat, b: seq<Byte>) {
    n > 0 &&
    (StartsBadly(b) ||
     (Parse(b).Done? && !Parse(b).v.Nil? && Parse(Parse(b).rest).Done? && BadKey(n - 1, Parse(Parse(b).rest).rest)))
  }

  /** A refused load leaves exactly one value if what cannot be loaded is a member of the outermost array, or a key of
      the outermost map; a value of the map leaves its key too, and what is further inside leaves more. */
  lemma {:induction false} OneLeft(b: seq<Byte>)
    ensures Parse(b).Refused? && |Parse(b).left| == 1 <==> BadInside(b)
  {
    hide LoadU32, LoadWord, LoadElems, LoadPairs, BadMember, BadKey;
    if LoadU32(b).Done? && LoadU32(LoadU32(b).rest).Done? {
      var c := LoadU32(b).rest;
      var n, d := LoadU32(c).v, LoadU32(c).rest;
      MemberLeft([], n, d);
      KeyLeft(Hmap, map[], if n >= LIMIT then 0 else n, d);
      KeyLeft(Skls, map[], if n >= LIMIT then 0 else n, d);
      NoneBad(d);
    }
  }

  lemma {:induction false} NoneBad(b: seq<Byte>)
    ensures !BadKey(0, b)
  {
  }

  lemma {:induction false} MemberLeft(vs: seq<Val>, n: nat, b: seq<Byte>)
    ensures var r := LoadElems(vs, n, b); r.Refused? && |r.left| == 1 <==> BadMember(n, b)
    decreases n
  {
    hide Parse, StartsBadly;
    if n > 0 {
      NothingLeft(b);
      if Parse(b).Done? { MemberLeft(vs + [Parse(b).v], n - 1, Parse(b).rest); }
    }
  }

  lemma {:induction false} KeyLeft(kind: Kind, m: map<Val, Val>, n: nat, b: seq<Byte>)
    ensures var r := LoadPairs(kind, m, n, b); r.Refused? && |r.left| == 1 <==> BadKey(n, b)
    decreases n
  {
    hide Parse, StartsBadly;
    if n > 0 {
      NothingLeft(b);
      if Parse(b).Done? {
        var k, c := Parse(b).v, Parse(b).rest;
        if Parse(c).Done? && !k.Nil? { KeyLeft(kind, m[k := Parse(c).v], n - 1, Parse(c).rest); }
      }
    }
  }

  // ------------------------------------------------------------------
  // The round trip
  // ------------------------------------------------------------------

  /** What a load makes of a value, or of a nil key. */
  function Loaded(v: Option<Val>, rest: seq<Byte>): Load<Val> {
    match v
    case None => Panicked
    case Some(x) => Done(x, rest)
  }

  lemma {:induction false} WordLoads(x: nat, rest: seq<Byte>)
    requires x < U64
    ensures LoadWord(Encode(x) + rest) == Done(x, rest)
    ensures x < U32 ==> LoadU32(Encode(x) + rest) == Done(x, rest)
  {
    RoundTrip(x, rest);
    ScanParts(Encode(x) + rest, 0);
    Parts(Encode(x), rest);
  }

  /** A dumped value is loaded again, with zero for the least integer, and the load stops at its end whatever
      follows. */
  lemma {:induction false} LoadShow(t: Tree, rest: seq<Byte>)
    requires Fits(t)
    ensures Parse(Show(t) + rest) == Loaded(Value(Zeroed(t)), rest)
    decreases t, 1
  {
    hide Encode, EncodeSigned, LoadWord, LoadU32, LoadElems, LoadPairs;
    match t
    case TNil => WordLoads(NIL, rest);
    case TInt(i) =>
      Assoc(Encode(INT), EncodeSigned(i), rest);
      WordLoads(INT, EncodeSigned(i) + rest);
      SignedLoads(i, rest);
    case TBool(n) =>
      Assoc(Encode(BOOL), Encode(n % U64), rest);
      WordLoads(BOOL, Encode(n % U64) + rest);
      WordLoads(n % U64, rest);
      assert ToInt(n % U64) == n;
    case TStr(z) =>
      Assoc4(Encode(KSTR), Encode(|z|), z, rest);
      Assoc(Encode(|z|), z, rest);
      WordLoads(KSTR, Encode(|z|) + (z + rest));
      WordLoads(|z|, z + rest);
      Parts(z, rest);
    case TNode(kind, elems) =>
      var n := Count(kind, |elems|);
      Assoc4(Encode(Tag(kind)), Encode(n), ShowAll(elems), rest);
      Assoc(Encode(n), ShowAll(elems), rest);
      WordLoads(Tag(kind), Encode(n) + (ShowAll(elems) + rest));
      WordLoads(n, ShowAll(elems) + rest);
      if kind.Dyay? {
        ElemsLoad([], elems, rest);
        if ValueAll(ZeroedAll(elems)).Some? {
          assert [] + ValueAll(ZeroedAll(elems)).value == ValueAll(ZeroedAll(elems)).value;
        }
      } else {
        PairsLoad(kind, map[], elems, rest);
      }
  }

  lemma {:induction false} SignedLoads(i: int, rest: seq<Byte>)
    requires Signed(i, true)
    ensures var r := LoadWord(EncodeSigned(i) + rest);
      r.Done? && r.rest == rest && Unzigzag(r.v) == if i == -0x8000_0000_0000_0000 then 0 else i
  {
    SignedRoundTrip(i, true);
    WordLoads(Zigzag(i, true), rest);
  }

  lemma {:induction false} ElemsLoad(vs: seq<Val>, s: seq<Tree>, rest: seq<Byte>)
    requires FitsAll(s)
    ensures LoadElems(vs, |s|, ShowAll(s) + rest) ==
      match ValueAll(ZeroedAll(s)) case None => Panicked case Some(r) => Done(Arr(vs + r), rest)
    decreases s, 0
  {
    hide Parse, Show, Value, Zeroed, Fits;
    if s == [] {
      assert ShowAll(s) + rest == rest;
      assert vs + [] == vs;
    } else {
      var z := ZeroedAll(s);
      assert z[0] == Zeroed(s[0]) && z[1..] == ZeroedAll(s[1..]);
      Assoc(Show(s[0]), ShowAll(s[1..]), rest);
      LoadShow(s[0], ShowAll(s[1..]) + rest);
      if Value(Zeroed(s[0])).Some? {
        var v := Value(Zeroed(s[0])).value;
        ElemsLoad(vs + [v], s[1..], rest);
        if ValueAll(z[1..]).Some? { Assoc(vs, [v], ValueAll(z[1..]).value); }
      }
    }
  }

  lemma {:induction false} PairsLoad(kind: Kind, m: map<Val, Val>, s: seq<Tree>, rest: seq<Byte>)
    requires FitsAll(s) && |s| % 2 == 0
    ensures LoadPairs(kind, m, |s| / 2, ShowAll(s) + rest) ==
      match ValuePairs(m, ZeroedAll(s)) case None => Panicked case Some(r) => Done(Map(kind, r), rest)
    decreases s, 0
  {
    hide Parse, Show, Value, Zeroed, Fits;
    if s == [] {
      assert ShowAll(s) + rest == rest;
    } else {
      var z, later := ZeroedAll(s), ShowAll(s[2..]) + rest;
      assert s[1..][1..] == s[2..] && s[1..] != [];
      assert z[0] == Zeroed(s[0]) && z[1..] == ZeroedAll(s[1..]) && z[1] == Zeroed(s[1]) && z[2..] == ZeroedAll(s[2..]);
      assert ShowAll(s) + rest == Show(s[0]) + (Show(s[1]) + later);
      LoadShow(s[0], Show(s[1]) + later);
      LoadShow(s[1], later);
      if Value(z[0]).Some? && Value(z[1]).Some? && !Value(z[0]).value.Nil? {
        PairsLoad(kind, m[Value(z[0]).value := Value(z[1]).value], s[2..], rest);
      }
    }
  }
}
