/** The mark and sweep collector. */
module Collector {
  import opened Basics

  /** An object: its marks, its link in the list it is on, and the objects that the variables in it refer to, in
      the order in which marking visits them; a string has its text. */
  class Node {
    const text: seq<Byte>
    var black: bool
    var gray: bool
    var next: Node?
    var refs: seq<Node>

    constructor (text: seq<Byte>)
      ensures !black && gray && next == null && refs == [] && this.text == text
    {
      this.text := text;
      black, gray, next, refs := false, true, null, [];
    }
  }

  // ------------------------------------------------------------------
  // Reachability
  // ------------------------------------------------------------------

  /** Each object of the path refers to the next. */
  ghost predicate IsPath(heap: set<Node>, older p: seq<Node>)
    reads heap`refs
  {
    p != [] && (forall i | 0 <= i < |p| :: p[i] in heap) && forall i | 0 <= i < |p| - 1 :: p[i + 1] in p[i].refs
  }

  ghost predicate Leads(heap: set<Node>, roots: seq<Node>, older p: seq<Node>, n: Node)
    reads heap`refs
  {
    IsPath(heap, p) && p[0] in roots && p[|p| - 1] == n
  }

  ghost predicate Reachable(heap: set<Node>, roots: seq<Node>, n: Node)
    reads heap`refs
  {
    exists p: seq<Node> :: Leads(heap, roots, p, n)
  }

  /** References lead to objects of the heap. */
  ghost predicate IsHeap(heap: set<Node>)
    reads heap`refs
  {
    forall n | n in heap :: RefsIn(heap, n)
  }

  ghost predicate RefsIn(heap: set<Node>, n: Node)
    reads n`refs
  {
    forall m | m in n.refs :: m in heap
  }

  lemma {:induction false} RootReachable(heap: set<Node>, roots: seq<Node>, n: Node)
    requires n in roots && n in heap
    ensures Reachable(heap, roots, n)
  {
    assert Leads(heap, roots, [n], n);
  }

  lemma {:induction false} StepReachable(heap: set<Node>, roots: seq<Node>, n: Node, m: Node)
    requires Reachable(heap, roots, n) && n in heap && m in n.refs && m in heap
    ensures Reachable(heap, roots, m)
  {
    var p: seq<Node> :| Leads(heap, roots, p, n);
    var q := p + [m];
    forall i | 0 <= i < |q| - 1 ensures q[i + 1] in q[i].refs {
      if i < |p| - 1 { assert p[i + 1] in p[i].refs; }
    }
    assert Leads(heap, roots, q, m);
  }

  /** A set of objects that holds the roots and what its members refer to holds everything reachable. */
  lemma {:induction false} ClosedHoldsPath(heap: set<Node>, roots: seq<Node>, p: seq<Node>, s: set<Node>)
    requires IsPath(heap, p) && p[0] in roots
    requires forall n | n in roots :: n in s
    requires forall n, m | n in s && n in heap && m in n.refs :: m in s
    ensures p[|p| - 1] in s
    decreases |p|
  {
    if |p| > 1 {
      var q := p[..|p| - 1];
      assert IsPath(heap, q) by {
        forall i | 0 <= i < |q| - 1 ensures q[i + 1] in q[i].refs { assert p[i + 1] in p[i].refs; }
      }
      ClosedHoldsPath(heap, roots, q, s);
      assert p[|p| - 2] == q[|q| - 1] && p[|p| - 2 + 1] in p[|p| - 2].refs;
    }
  }

  // ------------------------------------------------------------------
  // Marking
  // ------------------------------------------------------------------

  ghost function White(heap: set<Node>): set<Node>
    reads heap`black
  {
    set n | n in heap && !n.black
  }

  ghost function Black(heap: set<Node>): set<Node>
    reads heap`black
  {
    set n | n in heap && n.black
  }

  /** What was marked after `before` is reachable, and all it refers to is marked too, but for what `but` refers
      to. */
  ghost predicate MarkedSince(heap: set<Node>, roots: seq<Node>, before: set<Node>, black: set<Node>, but: set<Node>)
    requires black <= heap
    reads heap`refs
  {
    forall n | n in black && n !in before ::
      Reachable(heap, roots, n) && (n !in but ==> forall m | m in n.refs :: m in black)
  }

  /** First more, and then still more was marked. */
  lemma {:induction false} MarkedMore(heap: set<Node>, roots: seq<Node>, before: set<Node>, mid: set<Node>,
      black: set<Node>, but: set<Node>)
    requires mid <= black <= heap
    requires MarkedSince(heap, roots, before, mid, but) && MarkedSince(heap, roots, mid, black, {})
    ensures MarkedSince(heap, roots, before, black, but)
  {
  }

  lemma {:induction false} MarkedLast(heap: set<Node>, roots: seq<Node>, before: set<Node>, black: set<Node>, o: Node)
    requires black <= heap && o in heap && MarkedSince(heap, roots, before, black, {o})
    requires forall i | 0 <= i < |o.refs| :: o.refs[i] in black
    ensures MarkedSince(heap, roots, before, black, {})
  {
  }

  lemma {:induction false} MarkedFirst(heap: set<Node>, roots: seq<Node>, before: set<Node>, o: Node)
    requires before <= heap && o in heap && Reachable(heap, roots, o)
    ensures MarkedSince(heap, roots, before, before + {o}, {o})
  {
  }

  /** Marks an object that is not marked yet, and all that it leads to through unmarked objects. */
  method Mark(o: Node, ghost heap: set<Node>, ghost roots: seq<Node>)
    requires IsHeap(heap) && o in heap && !o.black && Reachable(heap, roots, o)
    modifies heap`black
    ensures o.black && old(Black(heap)) <= Black(heap) && White(heap) < old(White(heap))
    ensures MarkedSince(heap, roots, old(Black(heap)), Black(heap), {})
    decreases White(heap)
  {
    hide Reachable, MarkedSince;
    ghost var before := Black(heap);
    MarkedFirst(heap, roots, before, o);
    o.black := true;
    assert o in old(White(heap)) && o !in White(heap);
    assert Black(heap) == before + {o};
    var i := 0;
    while i < |o.refs|
      invariant 0 <= i <= |o.refs| && before <= Black(heap) && White(heap) < old(White(heap))
      invariant o in Black(heap) && forall j | 0 <= j < i :: o.refs[j] in Black(heap)
      invariant MarkedSince(heap, roots, before, Black(heap), {o})
    {
      hide Reachable, MarkedSince;
      var m := o.refs[i];
      assert RefsIn(heap, o);
      if !m.black {
        StepReachable(heap, roots, o, m);
        ghost var mid := Black(heap);
        Mark(m, heap, roots);
        MarkedMore(heap, roots, before, mid, Black(heap), {o});
        assert m in Black(heap);
      }
      i := i + 1;
    }
    MarkedLast(heap, roots, before, Black(heap), o);
  }

  /** What is marked is reachable, and all it refers to is marked too. */
  ghost predicate Marked(heap: set<Node>, roots: seq<Node>)
    reads heap`refs, heap`black
  {
    MarkedSince(heap, roots, {}, Black(heap), {})
  }

  /** Marks an object unless it is marked already. */
  method MarkOne(o: Node, ghost heap: set<Node>, ghost roots: seq<Node>)
    requires IsHeap(heap) && o in heap && o in roots && Marked(heap, roots)
    modifies heap`black
    ensures o in Black(heap) && Marked(heap, roots) && old(Black(heap)) <= Black(heap)
  {
    hide Reachable, MarkedSince;
    if !o.black {
      RootReachable(heap, roots, o);
      ghost var mid := Black(heap);
      Mark(o, heap, roots);
      MarkedMore(heap, roots, {}, mid, Black(heap), {});
    }
  }

  /** Marks the objects that a list of variables refers to. */
  method MarkEach(vars: seq<Node>, ghost heap: set<Node>, ghost roots: seq<Node>)
    requires IsHeap(heap) && Marked(heap, roots) && forall n | n in vars :: n in heap && n in roots
    modifies heap`black
    ensures Marked(heap, roots) && (forall n | n in vars :: n in Black(heap)) && old(Black(heap)) <= Black(heap)
  {
    hide Marked, IsHeap, Black;
    var i := 0;
    while i < |vars|
      invariant 0 <= i <= |vars| && Marked(heap, roots) && old(Black(heap)) <= Black(heap)
      invariant forall j | 0 <= j < i :: vars[j] in Black(heap)
    {
      hide Marked, IsHeap, Black;
      assert vars[i] in vars;
      MarkOne(vars[i], heap, roots);
      i := i + 1;
    }
  }

  // ------------------------------------------------------------------
  // Lists
  // ------------------------------------------------------------------

  /** The objects of a list in their order. */
  ghost predicate IsList(first: Node?, s: seq<Node>)
    reads s`next
  {
    first == (if s == [] then null else s[0]) &&
    (forall i | 0 <= i < |s| :: s[i].next == (if i + 1 < |s| then s[i + 1] else null)) &&
    forall i, j | 0 <= i < j < |s| :: s[i] != s[j]
  }

  /** An object stays if it is marked or held. */
  ghost predicate Stays(n: Node)
    reads n`black, n`gray
  {
    n.black || n.gray
  }

  /** The members of `keep` in their order. */
  ghost function Kept(s: seq<Node>, keep: set<Node>): seq<Node> {
    if s == [] then [] else Kept(s[..|s| - 1], keep) + (if s[|s| - 1] in keep then [s[|s| - 1]] else [])
  }

  lemma {:induction false} KeptMembers(s: seq<Node>, keep: set<Node>)
    ensures forall n | n in Kept(s, keep) :: n in s && n in keep
    ensures forall n | n in s && n in keep :: n in Kept(s, keep)
    decreases |s|
  {
    if s != [] {
      KeptMembers(s[..|s| - 1], keep);
      assert s == s[..|s| - 1] + [s[|s| - 1]];
    }
  }

  /** The state of a sweep: the objects that stay are linked from the dummy up to `p`, which links to `x`, and
      the objects from the `i`th are linked as they were. */
  ghost predicate Sweeping(dummy: Node, p: Node, x: Node?, s: seq<Node>, i: nat, done: seq<Node>)
    reads dummy`next, done`next, s`next
  {
    i <= |s| && x == (if i < |s| then s[i] else null) &&
    p == (if done == [] then dummy else done[|done| - 1]) && p.next == x && dummy !in done && dummy !in s &&
    dummy.next == (if done == [] then x else done[0]) &&
    (forall j | 0 <= j < |done| - 1 :: done[j].next == done[j + 1]) &&
    (forall a, b | 0 <= a < b < |done| :: done[a] != done[b]) &&
    (forall j | i <= j < |s| :: s[j].next == (if j + 1 < |s| then s[j + 1] else null)) &&
    (forall a, b | 0 <= a < b < |s| :: s[a] != s[b]) &&
    (forall k, j | 0 <= k < |done| && i <= j < |s| :: done[k] != s[j]) && forall n | n in done :: n in s
  }

  /** Takes `x` out of its list. */
  method Unlink(p: Node, x: Node, ghost dummy: Node, ghost s: seq<Node>, ghost i: nat, ghost done: seq<Node>)
    requires Sweeping(dummy, p, x, s, i, done)
    modifies p`next
    ensures Sweeping(dummy, p, p.next, s, i + 1, done)
  {
    assert forall j | i <= j < |s| :: s[j] != p;
    p.next := x.next;
  }

  /** Goes on after `x`, which stays. */
  lemma {:induction false} KeepOne(dummy: Node, p: Node, x: Node, s: seq<Node>, i: nat, done: seq<Node>)
    requires Sweeping(dummy, p, x, s, i, done)
    ensures Sweeping(dummy, x, x.next, s, i + 1, done + [x])
  {
    var d := done + [x];
    forall k, j | 0 <= k < |d| && i + 1 <= j < |s| ensures d[k] != s[j] { assert s[i] != s[j]; }
    forall a, b | 0 <= a < b < |d| ensures d[a] != d[b] { assert b == |done| ==> done[a] != s[i]; }
  }

  lemma {:induction false} SweepStarts(dummy: Node, first: Node?, s: seq<Node>)
    requires IsList(first, s) && dummy.next == first && dummy !in s
    ensures Sweeping(dummy, dummy, first, s, 0, [])
  {
  }

  lemma {:induction false} SweepEnds(dummy: Node, p: Node, s: seq<Node>, done: seq<Node>)
    requires Sweeping(dummy, p, null, s, |s|, done)
    ensures IsList(dummy.next, done)
  {
  }

  /** The marks of a list while it is swept. */
  ghost predicate Unmarked(s: seq<Node>, keep: set<Node>, i: nat, done: seq<Node>)
    requires i <= |s|
    reads s`black, s`gray, done`black
  {
    (forall n: Node | n in done :: !n.black) && forall j | i <= j < |s| :: s[j] in keep <==> Stays(s[j])
  }

  lemma {:induction false} UnmarkedNext(s: seq<Node>, keep: set<Node>, i: nat, done: seq<Node>)
    requires i < |s| && Unmarked(s, keep, i, done)
    ensures Unmarked(s, keep, i + 1, done) && (s[i] in keep <==> Stays(s[i]))
  {
  }

  /** Takes the mark from `x`, which stays. */
  method Unmark(x: Node, ghost dummy: Node, ghost p: Node, ghost s: seq<Node>, ghost keep: set<Node>, ghost i: nat,
      ghost done: seq<Node>)
    requires Sweeping(dummy, p, x, s, i, done) && Unmarked(s, keep, i, done)
    modifies x`black
    ensures Unmarked(s, keep, i + 1, done + [x]) && !x.black
  {
    x.black := false;
  }

  /** Unlinks `x`, which has no mark, or takes the mark from it. */
  method SweepOne(p: Node, x: Node, ghost dummy: Node, ghost s: seq<Node>, ghost keep: set<Node>, ghost i: nat,
      ghost done: seq<Node>) returns (q: Node, y: Node?, dead: bool, ghost rest: seq<Node>)
    requires Sweeping(dummy, p, x, s, i, done) && Unmarked(s, keep, i, done)
    modifies p`next, x`black
    ensures Sweeping(dummy, q, y, s, i + 1, rest) && Unmarked(s, keep, i + 1, rest)
    ensures dead <==> x !in keep
    ensures rest == if dead then done else done + [x]
  {
    hide Sweeping, Unmarked;
    SweepAt(dummy, p, x, s, i, done);
    UnmarkedNext(s, keep, i, done);
    if !x.black && !x.gray {
      Unlink(p, x, dummy, s, i, done);
      q, y, dead, rest := p, p.next, true, done;
    } else {
      Unmark(x, dummy, p, s, keep, i, done);
      KeepOne(dummy, p, x, s, i, done);
      q, y, dead, rest := x, x.next, false, done + [x];
    }
  }

  /** Unlinks the objects of a list that are neither marked nor held, and takes the mark from the others. */
  method SweepList(first: Node?, ghost s: seq<Node>, ghost keep: set<Node>) returns (head: Node?, freed: nat)
    requires IsList(first, s) && forall n | n in s :: n in keep <==> Stays(n)
    modifies s`next, s`black
    ensures IsList(head, Kept(s, keep)) && freed == |s| - |Kept(s, keep)|
    ensures forall n | n in Kept(s, keep) :: !n.black
  {
    hide Kept, Sweeping, Unmarked, IsList;
    var dummy := new Node([]);
    dummy.next := first;
    var p: Node, x: Node? := dummy, first;
    freed := 0;
    ghost var i: nat := 0;
    ghost var done: seq<Node> := [];
    KeptStep(s, keep, 0);
    SweepStarts(dummy, first, s);
    UnmarkedFirst(s, keep);
    while x != null
      invariant i <= |s| && fresh(dummy) && done == Kept(s[..i], keep) && freed == i - |done|
      invariant Sweeping(dummy, p, x, s, i, done) && Unmarked(s, keep, i, done)
      decreases |s| - i
    {
      hide Kept, Sweeping, Unmarked, IsList;
      SweepAt(dummy, p, x, s, i, done);
      KeptStep(s, keep, i);
      var dead: bool;
      p, x, dead, done := SweepOne(p, x, dummy, s, keep, i, done);
      freed := if dead then freed + 1 else freed;
      i := i + 1;
    }
    SweepAt(dummy, p, x, s, i, done);
    assert s[..i] == s;
    SweepEnds(dummy, p, s, done);
    UnmarkedLast(s, keep, done);
    return dummy.next, freed;
  }

  lemma {:induction false} SweepAt(dummy: Node, p: Node, x: Node?, s: seq<Node>, i: nat, done: seq<Node>)
    requires Sweeping(dummy, p, x, s, i, done)
    ensures i <= |s| && (p == dummy || p in s) && x == if i < |s| then s[i] else null
  {
  }

  lemma {:induction false} UnmarkedFirst(s: seq<Node>, keep: set<Node>)
    requires forall n | n in s :: n in keep <==> Stays(n)
    ensures Unmarked(s, keep, 0, [])
  {
  }

  lemma {:induction false} UnmarkedLast(s: seq<Node>, keep: set<Node>, done: seq<Node>)
    requires Unmarked(s, keep, |s|, done)
    ensures forall n: Node | n in done :: !n.black
  {
  }

  lemma {:induction false} KeptStep(s: seq<Node>, keep: set<Node>, i: nat)
    requires i <= |s|
    ensures Kept([], keep) == [] && s[..0] == []
    ensures i < |s| ==>
      Kept(s[..i + 1], keep) == if s[i] in keep then Kept(s[..i], keep) + [s[i]] else Kept(s[..i], keep)
  {
    if i < |s| { assert s[..i + 1][..i] == s[..i]; }
  }

  // ------------------------------------------------------------------
  // The whole heap
  // ------------------------------------------------------------------

  ghost predicate OnList(lists: seq<seq<Node>>, n: Node) {
    exists i :: 0 <= i < |lists| && n in lists[i]
  }

  /** The lists hold the objects of the heap, each on one list. */
  ghost predicate Holding(lists: seq<seq<Node>>, heap: set<Node>) {
    (forall i | 0 <= i < |lists| :: ListIn(lists[i], heap)) && (forall n | n in heap :: OnList(lists, n)) &&
    forall i, j | 0 <= i < j < |lists| :: Apart(lists[i], lists[j])
  }

  ghost predicate ListIn(s: seq<Node>, heap: set<Node>) {
    forall n | n in s :: n in heap
  }

  ghost predicate Apart(s: seq<Node>, r: seq<Node>) {
    forall n | n in s :: n !in r
  }

  ghost function KeptAll(lists: seq<seq<Node>>, keep: set<Node>): (r: seq<seq<Node>>)
    ensures |r| == |lists| && forall i | 0 <= i < |lists| :: r[i] == Kept(lists[i], keep)
  {
    seq(|lists|, i requires 0 <= i < |lists| => Kept(lists[i], keep))
  }

  ghost function Total(lists: seq<seq<Node>>): nat {
    if lists == [] then 0 else Total(lists[..|lists| - 1]) + |lists[|lists| - 1]|
  }

  lemma {:induction false} IsListAt(first: Node?, s: seq<Node>, j: nat)
    requires IsList(first, s) && j < |s|
    ensures s[j].next == if j + 1 < |s| then s[j + 1] else null
    ensures forall k | j < k < |s| :: s[j] != s[k]
  {
  }

  lemma {:induction false} IsListNew(first: Node?, s: seq<Node>, x: Node, r: seq<Node>)
    requires IsList(first, s) && x !in s && x.next == first && r == [x] + s
    ensures IsList(x, r)
  {
    assert first == if s == [] then null else s[0];
    forall i | 0 <= i < |r| ensures r[i].next == (if i + 1 < |r| then r[i + 1] else null) {
      if i > 0 {
        IsListAt(first, s, i - 1);
        assert i + 1 < |r| ==> r[i + 1] == s[i];
      }
    }
    forall i, j | 0 <= i < j < |r| ensures r[i] != r[j] {
      if i > 0 { IsListAt(first, s, i - 1); }
    }
  }

  /** A new object at the front of the last list. */
  lemma {:induction false} HoldingNew(lists: seq<seq<Node>>, heap: set<Node>, x: Node)
    requires Holding(lists, heap) && x !in heap && lists != []
    ensures Holding(lists[..|lists| - 1] + [[x] + lists[|lists| - 1]], heap + {x})
  {
    var z := |lists| - 1;
    var r := lists[..z] + [[x] + lists[z]];
    forall i | 0 <= i < |r| ensures ListIn(r[i], heap + {x}) { assert ListIn(lists[i], heap); }
    forall n | n in heap + {x} ensures OnList(r, n) {
      if n == x {
        assert n in r[z];
      } else {
        assert OnList(lists, n);
        var i :| 0 <= i < |lists| && n in lists[i];
        assert n in r[i];
      }
    }
    forall i, j | 0 <= i < j < |r| ensures Apart(r[i], r[j]) {
      assert Apart(lists[i], lists[j]) && ListIn(lists[i], heap);
    }
  }

  lemma {:induction false} KeptHolding(lists: seq<seq<Node>>, heap: set<Node>, keep: set<Node>)
    requires Holding(lists, heap)
    ensures Holding(KeptAll(lists, keep), heap * keep)
  {
    var r := KeptAll(lists, keep);
    forall i | 0 <= i < |r| ensures ListIn(r[i], heap * keep) {
      KeptMembers(lists[i], keep);
      assert ListIn(lists[i], heap);
    }
    forall n | n in heap * keep ensures OnList(r, n) {
      assert OnList(lists, n);
      var i :| 0 <= i < |lists| && n in lists[i];
      KeptMembers(lists[i], keep);
      assert n in r[i];
    }
    forall i, j | 0 <= i < j < |r| ensures Apart(r[i], r[j]) {
      KeptApart(lists[i], lists[j], keep);
      assert Apart(lists[i], lists[j]);
    }
  }

  lemma {:induction false} KeptApart(s: seq<Node>, r: seq<Node>, keep: set<Node>)
    ensures Apart(s, r) ==> Apart(Kept(s, keep), Kept(r, keep)) && Apart(Kept(s, keep), r)
    ensures Apart(s, r) ==> Apart(r, s)
  {
    hide Kept;
    var a, b := Kept(s, keep), Kept(r, keep);
    KeptMembers(s, keep);
    KeptMembers(r, keep);
    assert forall n | n in a :: n in s;
    assert forall n | n in b :: n in r;
  }

  lemma {:induction false} TotalUpdate(lists: seq<seq<Node>>, i: nat, s: seq<Node>)
    requires i < |lists|
    ensures Total(lists[i := s]) == Total(lists) - |lists[i]| + |s|
    decreases |lists|
  {
    var n := |lists| - 1;
    if i == n {
      assert lists[i := s][..n] == lists[..n];
    } else {
      assert lists[i := s][..n] == lists[..n][i := s];
      TotalUpdate(lists[..n], i, s);
    }
  }

  lemma {:induction false} NullList(s: seq<Node>, keep: set<Node>)
    requires IsList(null, s)
    ensures s == [] && Kept(s, keep) == []
  {
  }

  /** Of the objects in `all` exactly those are in `left` that are in `r` or held, or all if nothing is freed. */
  ghost predicate LeftOf(all: set<Node>, left: set<Node>, r: set<Node>, spared: bool)
    reads all`gray
  {
    forall n | n in all :: n in left <==> spared || n in r || n.gray
  }

  lemma {:induction false} LeftMore(all: set<Node>, left: set<Node>, r: set<Node>, spared: bool, x: Node)
    requires LeftOf(all, left, r, spared) && x !in all
    ensures LeftOf(all, left + {x}, r, spared)
  {
  }

  /** The variables that the machine starts marking from, and the lists that hold all objects: the strings of
      the pool, bucket by bucket, and all others. */
  class Machine {
    var global: Node
    var locals: seq<Node>
    var calls: seq<Node>
    var stack: seq<Node>
    var alloced: Node?
    var slot: array<Node?>
    var shift: nat
    var used: int
    var pause: nat
    ghost var objs: seq<Node>
    ghost var chains: seq<seq<Node>>
    ghost var heap: set<Node>

    /** A machine with a table of globals and an empty string pool. */
    constructor ()
      ensures Listed() && Rooted() && NoBlack() && fresh(slot) && fresh(heap)
      ensures objs == [global] && heap == {global} && locals == calls == stack == [] && pause == 0 && used == 0
      ensures global.refs == [] && !global.gray && global.next == null
      ensures shift == 8 && chains == seq(Pow2(shift), _ => [])
    {
      var g := new Node([]);
      g.gray := false;
      global, alloced := g, g;
      locals, calls, stack := [], [], [];
      shift := 8;
      slot := new Node?[Pow2(8)](_ => null);
      used, pause := 0, 0;
      objs := [g];
      chains := seq(Pow2(8), _ => []);
      heap := {g};
      new;
      assert Lists()[Pow2(8)] == objs;
    }

    /** The lists of the pool, and the list of all other objects. */
    ghost function Lists(): seq<seq<Node>>
      reads this
    {
      chains + [objs]
    }

    ghost function Roots(): seq<Node>
      reads this
    {
      [global] + locals + calls + stack
    }

    /** A set that holds what the machine starts marking from: the globals, the locals, the functions being called
        and all of the operand stack; and whatever its members refer to. */
    ghost predicate Encloses(s: set<Node>)
      reads this`global, this`locals, this`calls, this`stack, s`refs
    {
      global in s && (forall n | n in locals :: n in s) && (forall n | n in calls :: n in s) &&
      (forall n | n in stack :: n in s) && forall n | n in s :: RefsIn(s, n)
    }

    /** The least such set of the objects in `all`. */
    ghost predicate IsLive(r: set<Node>, all: set<Node>)
      reads this`global, this`locals, this`calls, this`stack, all`refs
    {
      r <= all && Encloses(r) && forall s: set<Node> | s <= all && Encloses(s) :: r <= s
    }

    /** The lists are well formed and hold all objects. */
    ghost predicate Listed()
      reads this, slot, heap`next
    {
      |chains| == slot.Length && Holding(Lists(), heap) && ListIn(objs, heap) && IsList(alloced, objs) &&
      forall i | 0 <= i < slot.Length :: ListIn(chains[i], heap) && IsList(slot[i], chains[i])
    }

    /** Neither roots nor references lead out of the heap. */
    ghost predicate Rooted()
      reads this, heap`refs
    {
      IsHeap(heap) && forall n | n in Roots() :: n in heap
    }

    ghost predicate NoBlack()
      reads this, heap`black
    {
      forall n | n in heap :: !n.black
    }

    /** What a collection leaves: what the roots lead to, and what is held. */
    ghost function Live(): set<Node>
      reads this, heap`refs, heap`gray
    {
      set n | n in heap && (Reachable(heap, Roots(), n) || n.gray)
    }

    /** Marks exactly what the roots lead to. */
    method GcMark()
      requires Rooted() && NoBlack()
      modifies heap`black
      ensures forall n | n in heap :: n.black <==> Reachable(heap, Roots(), n)
      ensures global.black && (forall n | n in locals :: n.black) && (forall n | n in calls :: n.black) &&
        forall n | n in stack :: n.black
    {
      hide Reachable, MarkedSince;
      ghost var roots := Roots();
      assert global in roots;
      RootReachable(heap, roots, global);
      assert Black(heap) == {};
      Mark(global, heap, roots);
      MarkEach(locals, heap, roots);
      MarkEach(calls, heap, roots);
      MarkEach(stack, heap, roots);
      assert forall n | n in roots :: n in Black(heap);
      AllMarked(heap, roots, Black(heap));
    }

    /** Frees the strings of the pool that are neither marked nor held. */
    method GcKpoolSweep(ghost keep: set<Node>)
      requires Listed() && forall n | n in heap :: n in keep <==> Stays(n)
      modifies this`used, this`chains, slot, heap`next, heap`black
      ensures |chains| == |old(chains)|
      ensures forall i | 0 <= i < |chains| :: Swept(slot[i], chains[i], old(chains)[i], keep)
      ensures IsList(alloced, objs) && Judged(objs, keep)
      ensures used == old(used) - (Total(old(chains)) - Total(chains))
    {
      hide Kept, IsList, Holding, Total, Clean, Judged, Bucket;
      ghost var all := chains;
      ghost var lists := Lists();
      JudgedAll(keep);
      var i := 0;
      while i < slot.Length
        invariant 0 <= i <= slot.Length == |chains| == |all|
        invariant forall j | 0 <= j < |all| :: Bucket(slot[j], chains[j], all[j], keep, j < i)
        invariant Bucket(alloced, objs, objs, keep, false)
        invariant used == old(used) - (Total(all) - Total(chains))
      {
        hide Kept, IsList, Holding, Total, Clean, Judged, Bucket;
        OthersApart(lists, heap, i, keep);
        assert lists[i] == all[i] && lists[|all|] == objs;
        forall j | 0 <= j < |all| && j != i ensures Apart(all[j], all[i]) && Apart(Kept(all[j], keep), all[i]) {
          assert lists[j] == all[j];
        }
        InHeap(lists, heap, i);
        SweepBucket(i, all, keep);
        i := i + 1;
      }
      forall j | 0 <= j < |chains| ensures Swept(slot[j], chains[j], all[j], keep) {
        BucketMeans(slot[j], chains[j], all[j], keep, true);
      }
      BucketMeans(alloced, objs, objs, keep, false);
    }

    lemma {:induction false} JudgedAll(keep: set<Node>)
      requires Listed() && forall n | n in heap :: n in keep <==> Stays(n)
      ensures forall i | 0 <= i < |chains| :: Bucket(slot[i], chains[i], chains[i], keep, false)
      ensures Bucket(alloced, objs, objs, keep, false)
    {
      hide Holding, IsList;
    }

    /** The list of one bucket. */
    method SweepBucket(i: nat, ghost all: seq<seq<Node>>, ghost keep: set<Node>)
      requires i < slot.Length == |chains| == |all|
      requires forall j | 0 <= j < |all| :: Bucket(slot[j], chains[j], all[j], keep, j < i)
      requires Bucket(alloced, objs, objs, keep, false)
      requires forall j | 0 <= j < |all| && j != i :: Apart(all[j], all[i]) && Apart(Kept(all[j], keep), all[i])
      requires Apart(objs, all[i])
      modifies this`used, this`chains, slot, all[i]`next, all[i]`black
      ensures |chains| == |all|
      ensures forall j | 0 <= j < |all| :: Bucket(slot[j], chains[j], all[j], keep, j <= i)
      ensures Bucket(alloced, objs, objs, keep, false)
      ensures used - Total(chains) == old(used) - Total(old(chains))
    {
      hide Kept, Total, IsList, Clean, Judged;
      ghost var s := all[i];
      TotalUpdate(chains, i, Kept(s, keep));
      BucketMeans(slot[i], chains[i], s, keep, false);
      if slot[i] != null {
        JudgedMeans(s, keep);
        forall j | 0 <= j < |all| && j != i ensures Apart(chains[j], s) {
          BucketMeans(slot[j], chains[j], all[j], keep, j < i);
        }
        var head, freed := SweepList(slot[i], s, keep);
        forall j | 0 <= j < |all| && j != i ensures Bucket(slot[j], chains[j], all[j], keep, j < i) {
          assert old(Bucket(slot[j], chains[j], all[j], keep, j < i));
          assert Apart(chains[j], s);
          forall n: Node | n in chains[j] ensures n.next == old(n.next) && n.black == old(n.black) {}
        }
        forall n: Node | n in objs ensures n.next == old(n.next) && n.black == old(n.black) {}
        assert old(Bucket(alloced, objs, objs, keep, false));
        assert Bucket(alloced, objs, objs, keep, false);
        CleanMeans(Kept(s, keep));
        slot[i] := head;
        used := used - freed;
      } else {
        NullList(s, keep);
        CleanMeans(s);
      }
      chains := chains[i := Kept(s, keep)];
    }

    /** Frees what is neither marked nor held, and takes the marks away. */
    method GcSweep()
      requires Listed()
      modifies this`alloced, this`used, this`objs, this`chains, this`heap, slot, heap`next, heap`black
      ensures Listed() && NoBlack()
      ensures var keep := old(set n | n in heap && Stays(n)); heap == keep && Lists() == KeptAll(old(Lists()), keep)
      ensures used == old(used) - (Total(old(chains)) - Total(chains))
    {
      hide Kept, Total, Holding, NoBlack;
      ghost var keep := set n | n in heap && Stays(n);
      ghost var lists := Lists();
      GcKpoolSweep(keep);
      SweepObjs(lists, keep);
      KeptHolding(lists, heap, keep);
      assert Lists() == KeptAll(lists, keep);
      heap := heap * keep;
      NoneBlack();
    }

    /** The list of all other objects. */
    method SweepObjs(ghost lists: seq<seq<Node>>, ghost keep: set<Node>)
      requires |lists| == |chains| + 1 && |chains| == slot.Length && lists[|chains|] == objs && Holding(lists, heap)
      requires forall i | 0 <= i < |chains| :: Swept(slot[i], chains[i], lists[i], keep)
      requires IsList(alloced, objs) && Judged(objs, keep)
      modifies this`alloced, this`objs, objs`next, objs`black
      ensures objs == Kept(old(objs), keep) && IsList(alloced, objs) && Clean(objs)
      ensures forall i | 0 <= i < |chains| :: IsList(slot[i], chains[i]) && Clean(chains[i])
    {
      hide Kept, Holding;
      ghost var s := objs;
      OthersApart(lists, heap, |chains|, keep);
      var head, freed := SweepList(alloced, s, keep);
      forall j | 0 <= j < |chains| ensures IsList(slot[j], chains[j]) && Clean(chains[j]) {
        assert old(IsList(slot[j], chains[j])) && old(Clean(chains[j])) && Apart(Kept(lists[j], keep), s);
        forall a | 0 <= a < |chains[j]| ensures chains[j][a].next == old(chains[j][a].next) {
          assert chains[j][a] in chains[j];
        }
      }
      alloced := head;
      objs := Kept(s, keep);
    }

    lemma {:induction false} NoneBlack()
      requires Holding(Lists(), heap) && Clean(objs) && forall i | 0 <= i < |chains| :: Clean(chains[i])
      ensures NoBlack()
    {
      forall n | n in heap ensures !n.black {
        assert OnList(Lists(), n);
        var i :| 0 <= i < |Lists()| && n in Lists()[i];
        if i < |chains| { assert Lists()[i] == chains[i] && Clean(chains[i]); }
      }
    }
  
    /** What held objects refer to stays. */
    ghost predicate HeldSafe()
      reads this, heap`refs, heap`gray
    {
      forall n | n in heap && n.gray && !Reachable(heap, Roots(), n) :: RefsIn(Live(), n)
    }

    /** What the roots lead to. */
    ghost function Reached(): set<Node>
      reads this, heap`refs
    {
      set n | n in heap && Reachable(heap, Roots(), n)
    }

    lemma {:induction false} ReachedIsLive()
      requires Rooted()
      ensures IsLive(Reached(), heap)
    {
      hide Reachable;
      ReachedEncloses();
      forall s: set<Node> | s <= heap && Encloses(s) ensures Reached() <= s { EnclosesReached(s); }
    }

    lemma {:induction false} ReachedEncloses()
      requires Rooted()
      ensures Reached() <= heap && Encloses(Reached())
    {
      hide Reachable;
      forall n | n in Roots() ensures n in Reached() { RootReachable(heap, Roots(), n); }
      forall n | n in Reached() ensures RefsIn(Reached(), n) {
        assert RefsIn(heap, n);
        forall m | m in n.refs ensures m in Reached() { StepReachable(heap, Roots(), n, m); }
      }
      assert global in Roots() && forall n | n in locals + calls + stack :: n in Roots();
    }

    /** Nothing outside a set that encloses the roots is reached. */
    lemma {:induction false} EnclosesReached(s: set<Node>)
      requires Encloses(s)
      ensures Reached() <= s
    {
      hide Reachable;
      forall n | n in Reached() ensures n in s {
        if n !in s {
          forall m, k | m in s && m in heap && k in m.refs ensures k in s { assert RefsIn(s, m); }
          NotReachable(heap, Roots(), s, n);
        }
      }
    }

    lemma {:induction false} LiveHolds(r: set<Node>, all: set<Node>)
      requires IsLive(r, all)
      ensures global in r && (forall n | n in locals :: n in r) && (forall n | n in calls :: n in r) &&
        forall n | n in stack :: n in r
    {
    }

    /** A collection, unless collecting is paused. */
    method Collect()
      requires Listed() && Rooted() && NoBlack()
      modifies this`alloced, this`used, this`objs, this`chains, this`heap, slot, heap`next, heap`black
      ensures Listed() && NoBlack()
      ensures var left := if pause == 0 then old(Live()) else old(heap);
        heap == left && (pause == 0 ==> Lists() == KeptAll(old(Lists()), left))
      ensures pause > 0 ==> chains == old(chains) && objs == old(objs) && used == old(used)
      ensures pause == 0 ==> used == old(used) - (Total(old(chains)) - Total(chains))
      ensures Rooted() <==> pause > 0 || old(HeldSafe())
      ensures exists r: set<Node> :: IsLive(r, old(heap)) && LeftOf(old(heap), heap, r, pause > 0)
      ensures global in heap && (forall n | n in locals :: n in heap) && (forall n | n in calls :: n in heap) &&
        forall n | n in stack :: n in heap
    {
      hide Reachable, Holding, Kept, Total, KeptAll, Encloses;
      ghost var r := Reached();
      ReachedIsLive();
      if pause == 0 {
        NoDangling(heap, Roots());
        forall n | n in Roots() ensures n in Live() { RootReachable(heap, Roots(), n); }
        ghost var live := Live();
        GcMark();
        assert (set n | n in heap && Stays(n)) == live;
        GcSweep();
        assert heap == live;
      }
      assert IsLive(r, old(heap));
      LiveHolds(r, old(heap));
    }

    /** Puts a new object on the list of all others. */
    method Track(x: Node)
      requires Listed() && NoBlack() && x !in heap && x.refs == [] && !x.black
      requires x !in Roots() && forall n | n in heap :: x !in n.refs
      modifies this`alloced, this`objs, this`heap, x`next
      ensures Listed() && NoBlack() && heap == old(heap) + {x} && chains == old(chains) && objs == [x] + old(objs)
      ensures Rooted() <==> old(Rooted())
    {
      hide Holding;
      if forall n | n in heap + {x} :: RefsIn(heap + {x}, n) {
        forall n | n in heap ensures RefsIn(heap, n) { assert RefsIn(heap + {x}, n); }
      }
      ghost var lists := Lists();
      HoldingNew(lists, heap, x);
      assert lists[..|lists| - 1] == chains;
      assert x !in objs;
      x.next := alloced;
      forall i | 0 <= i < |chains| ensures IsList(slot[i], chains[i]) {
        assert old(IsList(slot[i], chains[i])) && ListIn(chains[i], heap);
        forall a | 0 <= a < |chains[i]| ensures chains[i][a].next == old(chains[i][a].next) {
          assert chains[i][a] in chains[i];
        }
      }
      forall a | 0 <= a < |objs| ensures objs[a].next == old(objs[a].next) { assert objs[a] in objs; }
      IsListNew(alloced, objs, x, [x] + objs);
      alloced := x;
      objs := [x] + objs;
      heap := heap + {x};
      assert Lists() == lists[..|lists| - 1] + [[x] + lists[|lists| - 1]];
      forall i | 0 <= i < slot.Length ensures ListIn(chains[i], heap) { assert ListIn(chains[i], old(heap)); }
    }

    /** When room is short, what is not needed is freed. */
    method MakeRoom(full: bool)
      requires Listed() && Rooted() && NoBlack()
      modifies this`alloced, this`used, this`objs, this`chains, this`heap, slot, heap`next, heap`black
      ensures Listed() && NoBlack() && heap == if full && pause == 0 then old(Live()) else old(heap)
      ensures Rooted() <==> !full || pause > 0 || old(HeldSafe())
      ensures !full || pause > 0 ==> chains == old(chains) && used == old(used)
      ensures exists r: set<Node> :: IsLive(r, old(heap)) && LeftOf(old(heap), heap, r, !full || pause > 0)
    {
      hide Reachable, Holding, Kept, Total, KeptAll, Encloses;
      if full {
        Collect();
      } else {
        ReachedIsLive();
        assert LeftOf(heap, heap, Reached(), true);
      }
    }

    method TrackNew(text: seq<Byte>) returns (x: Node)
      requires Listed() && NoBlack()
      modifies this`alloced, this`objs, this`heap
      ensures Listed() && NoBlack() && fresh(x) && x.gray && x.refs == [] && x.text == text
      ensures heap == old(heap) + {x} && chains == old(chains) && (Rooted() <==> old(Rooted()))
    {
      hide Reachable, Holding, Kept, Total, KeptAll, NoBlack, Encloses;
      x := new Node(text);
      Track(x);
    }

    /** A new object, which its creator holds; when room is short, what is not needed is freed first. */
    method GcNew(text: seq<Byte>, full: bool) returns (x: Node)
      requires Listed() && Rooted() && NoBlack()
      modifies this`alloced, this`used, this`objs, this`chains, this`heap, slot, heap`next, heap`black
      ensures Listed() && NoBlack() && fresh(x) && x.gray && x.refs == [] && x.text == text
      ensures var left := if full && pause == 0 then old(Live()) else old(heap); heap == left + {x}
      ensures Rooted() <==> !full || pause > 0 || old(HeldSafe())
      ensures !full || pause > 0 ==> chains == old(chains) && used == old(used)
      ensures exists r: set<Node> :: IsLive(r, old(heap)) && LeftOf(old(heap), heap, r, !full || pause > 0)
      ensures global in heap && (forall n | n in locals :: n in heap) && (forall n | n in calls :: n in heap) &&
        forall n | n in stack :: n in heap
    {
      hide Reachable, Holding, Kept, Total, KeptAll, NoBlack, Encloses, HeldSafe, Listed, Rooted, Live;
      ghost var all := heap;
      MakeRoom(full);
      ghost var left, spared := heap, !full || pause > 0;
      ghost var r: set<Node> :| IsLive(r, all) && LeftOf(all, left, r, spared);
      x := TrackNew(text);
      LeftMore(all, left, r, spared, x);
      LiveHolds(r, all);
    }
  }

  /** A list of the pool while the pool is swept: before its turn, and after it. */
  ghost predicate Bucket(first: Node?, s: seq<Node>, all: seq<Node>, keep: set<Node>, swept: bool)
    reads s`next, s`black, s`gray
  {
    if swept then Swept(first, s, all, keep) else s == all && IsList(first, s) && Judged(s, keep)
  }

  ghost predicate Swept(first: Node?, s: seq<Node>, all: seq<Node>, keep: set<Node>)
    reads s`next, s`black
  {
    s == Kept(all, keep) && IsList(first, s) && Clean(s)
  }

  lemma {:induction false} BucketMeans(first: Node?, s: seq<Node>, all: seq<Node>, keep: set<Node>, swept: bool)
    requires Bucket(first, s, all, keep, swept)
    ensures if swept then Swept(first, s, all, keep) else s == all && IsList(first, s) && Judged(s, keep)
  {
  }

  lemma {:induction false} JudgedMeans(s: seq<Node>, keep: set<Node>)
    requires Judged(s, keep)
    ensures forall n | n in s :: n in keep <==> Stays(n)
  {
  }

  lemma {:induction false} CleanMeans(s: seq<Node>)
    ensures Clean(s) <==> forall n | n in s :: !n.black
  {
  }

  lemma {:induction false} InHeap(lists: seq<seq<Node>>, heap: set<Node>, i: nat)
    requires Holding(lists, heap) && i < |lists|
    ensures ListIn(lists[i], heap)
  {
  }

  /** No object of a list is marked. */
  ghost predicate Clean(s: seq<Node>)
    reads s`black
  {
    forall n | n in s :: !n.black
  }

  /** The objects to be kept are those that stay. */
  ghost predicate Judged(s: seq<Node>, keep: set<Node>)
    reads s`black, s`gray
  {
    forall n | n in s :: n in keep <==> Stays(n)
  }

  /** What is on one list is on no other. */
  lemma {:induction false} OthersApart(lists: seq<seq<Node>>, heap: set<Node>, i: nat, keep: set<Node>)
    requires Holding(lists, heap) && i < |lists|
    ensures forall j | 0 <= j < |lists| && j != i :: Apart(lists[j], lists[i]) && Apart(Kept(lists[j], keep), lists[i])
  {
    forall j | 0 <= j < |lists| && j != i ensures Apart(lists[j], lists[i]) && Apart(Kept(lists[j], keep), lists[i]) {
      KeptApart(lists[j], lists[i], keep);
      KeptApart(lists[i], lists[j], keep);
      if j < i { assert Apart(lists[j], lists[i]); } else { assert Apart(lists[i], lists[j]); }
    }
  }

  /** Marks that hold the roots and what they refer to are on everything reachable, and on nothing else. */
  lemma {:induction false} AllMarked(heap: set<Node>, roots: seq<Node>, black: set<Node>)
    requires black <= heap && MarkedSince(heap, roots, {}, black, {}) && forall n | n in roots :: n in black
    ensures forall n | n in heap :: n in black <==> Reachable(heap, roots, n)
  {
    forall n | n in heap && Reachable(heap, roots, n) ensures n in black {
      var p: seq<Node> :| Leads(heap, roots, p, n);
      ClosedHoldsPath(heap, roots, p, black);
    }
  }

  /** After a collection no reference leads out of the heap exactly if what the held objects refer to stayed
      too: a held object stays, but what it refers to is not marked for its sake. */
  lemma {:induction false} NoDangling(heap: set<Node>, roots: seq<Node>)
    requires IsHeap(heap)
    ensures var live := set n | n in heap && (Reachable(heap, roots, n) || n.gray);
      IsHeap(live) <==> forall n | n in heap && n.gray && !Reachable(heap, roots, n) :: RefsIn(live, n)
  {
    var live := set n | n in heap && (Reachable(heap, roots, n) || n.gray);
    if forall n | n in heap && n.gray && !Reachable(heap, roots, n) :: RefsIn(live, n) {
      forall n | n in live ensures RefsIn(live, n) {
        if Reachable(heap, roots, n) {
          assert RefsIn(heap, n);
          forall m | m in n.refs ensures m in live { StepReachable(heap, roots, n, m); }
        }
      }
    }
  }

  /** What the roots do not lead to: all that lies outside a set that holds the roots and what its members refer
      to. */
  lemma {:induction false} NotReachable(heap: set<Node>, roots: seq<Node>, s: set<Node>, n: Node)
    requires forall m | m in roots :: m in s
    requires forall m, k | m in s && m in heap && k in m.refs :: k in s
    requires n !in s
    ensures !Reachable(heap, roots, n)
  {
    if Reachable(heap, roots, n) {
      var p: seq<Node> :| Leads(heap, roots, p, n);
      ClosedHoldsPath(heap, roots, p, s);
    }
  }

  /** A machine with an object held by its creator that refers to another one which nothing else refers to. */
  method HeldPair() returns (m: Machine, a: Node, b: Node)
    ensures fresh(m) && fresh(m.heap) && fresh(m.slot) && m.Listed() && m.Rooted() && m.NoBlack() && m.pause == 0
    ensures m.Roots() == [m.global] && m.global.refs == [] && a in m.heap && b in m.heap
    ensures a.gray && a.refs == [b] && !b.gray && b != m.global
  {
    hide Reachable, KeptAll, Kept, Holding, Machine.Listed, Machine.Rooted, Machine.NoBlack, Machine.Live;
    m := new Machine();
    b := m.TrackNew([]);
    a := m.TrackNew([]);
    Refer(m, a, b);
  }

  /** The creator of `b` stores it in `a` and lets go of it. */
  method Refer(m: Machine, a: Node, b: Node)
    requires m.Listed() && m.Rooted() && m.NoBlack() && a in m.heap && b in m.heap && a != b
    modifies a`refs, b`gray
    ensures a.refs == [b] && !b.gray && m.Listed() && m.Rooted() && m.NoBlack()
  {
    a.refs, b.gray := [b], false;
    forall n | n in m.heap ensures RefsIn(m.heap, n) { assert n != a ==> old(RefsIn(m.heap, n)); }
  }

  /** The reference of a held object can outlive what it refers to. */
  method HeldLeaks() returns (m: Machine, a: Node, b: Node)
    ensures m.Listed() && m.NoBlack() && a in m.heap && a.refs == [b] && b !in m.heap
  {
    hide Reachable, KeptAll, Kept, Holding, IsList, IsHeap;
    m, a, b := HeldPair();
    NotReachable(m.heap, m.Roots(), {m.global}, b);
    m.Collect();
  }
}
