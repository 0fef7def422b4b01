/** What one step of the machine leaves on the operand stack, written out for each operator. */
module VmEffects {
  import opened ScriptSyntax
  import opened Runtime
  import opened VmCode
  import opened VmMachine

  /** A 64-bit integer. */
  predicate IsWord(n: int) {
    -0x8000_0000_0000_0000 <= n < 0x8000_0000_0000_0000
  }

  /** `r` is the 64-bit integer that `n` wraps around to. */
  predicate WrapsTo(n: int, r: int) {
    IsWord(r) && (r - n) % 0x1_0000_0000_0000_0000 == 0
  }

  /** The machine is about to execute `i` with `stack` as its operands. */
  predicate About(c: Chunk, s: Vm, i: Inst, stack: seq<Value>) {
    s.Running? && s.pc < |c.inst| && c.inst[s.pc] == i && s.stack == stack
  }

  /** The machine went on to the next instruction with `stack`, and nothing else changed. */
  predicate WentOn(s: Vm, s': Vm, stack: seq<Value>) {
    s.Running? && s' == s.(pc := s.pc + 1, stack := stack)
  }

  lemma {:induction false} Wrapped(n: int)
    ensures WrapsTo(n, Wrap(n))
  {
    var m := n + 0x8000_0000_0000_0000;
    assert Wrap(n) - n == m % 0x1_0000_0000_0000_0000 - m;
    assert m == m / 0x1_0000_0000_0000_0000 * 0x1_0000_0000_0000_0000 + m % 0x1_0000_0000_0000_0000;
    assert Wrap(n) - n == -(m / 0x1_0000_0000_0000_0000) * 0x1_0000_0000_0000_0000;
  }

  /** There is only one such integer. */
  lemma {:induction false} WrapsOnce(n: int, r: int, q: int)
    requires WrapsTo(n, r) && WrapsTo(n, q)
    ensures r == q
    ensures IsWord(n) ==> r == n
  {
    var d, e := (r - n) / 0x1_0000_0000_0000_0000, (q - n) / 0x1_0000_0000_0000_0000;
    assert r - n == d * 0x1_0000_0000_0000_0000 && q - n == e * 0x1_0000_0000_0000_0000;
    assert r - q == (d - e) * 0x1_0000_0000_0000_0000;
  }

  lemma {:induction false} TwoOnTop(base: seq<Value>, x: Value, y: Value)
    ensures var s := base + [x, y]; Top(s, 1) == x && Top(s, 0) == y && Popped(s, 2) == base
  {
  }

  lemma {:induction false} OneOnTop(base: seq<Value>, x: Value)
    ensures var s := base + [x]; Top(s, 0) == x && Popped(s, 1) == base
  {
  }

  /** Integers are added, subtracted and multiplied modulo 2^64. */
  lemma {:induction false} IntegersCombined(rt: Runtime, c: Chunk, s: Vm, base: seq<Value>, a: int, b: int,
      op: BinaryOp)
    returns (n: int)
    requires op == Add || op == Sub || op == Mul
    requires About(c, s, IOperate(op), base + [Int(a), Int(b)]) && |base| < 128
    ensures WentOn(s, Step(rt, c, s), base + [Int(n)])
    ensures op == Add ==> WrapsTo(a + b, n)
    ensures op == Sub ==> WrapsTo(a - b, n)
    ensures op == Mul ==> WrapsTo(a * b, n)
  {
    hide Wrap, WrapsTo;
    TwoOnTop(base, Int(a), Int(b));
    var m := if op == Add then a + b else if op == Sub then a - b else a * b;
    Wrapped(m);
    n := Wrap(m);
  }

  /** `/` and `%` leave the quotient and the remainder that truncation towards zero gives, and panic at zero. */
  lemma {:induction false} IntegersDivided(rt: Runtime, c: Chunk, s: Vm, base: seq<Value>, a: int, b: int, op: BinaryOp)
    returns (q: int, r: int, n: int)
    requires op == Div || op == Mod
    requires About(c, s, IOperate(op), base + [Int(a), Int(b)]) && |base| < 128
    ensures b == 0 ==> Step(rt, c, s) == Crashed(s.w)
    ensures b != 0 ==>
      a == q * b + r && (if b > 0 then -b < r < b else b < r < -b) && (r > 0 ==> a > 0) && (r < 0 ==> a < 0) &&
      WentOn(s, Step(rt, c, s), base + [Int(n)]) && WrapsTo(if op == Div then q else r, n)
    ensures b != 0 && op == Mod && IsWord(a) ==> n == r
    ensures b != 0 && op == Div && IsWord(a) && !(a == -0x8000_0000_0000_0000 && b == -1) ==> n == q
  {
    hide Wrap, WrapsTo, Quotient, Remainder;
    TwoOnTop(base, Int(a), Int(b));
    q, r, n := 0, 0, 0;
    if b != 0 {
      q, r := Quotient(a, b), Remainder(a, b);
      Division(a, b);
      n := Wrap(if op == Div then q else r);
      Wrapped(if op == Div then q else r);
      ResultFits(a, b);
      WrapsOnce(if op == Div then q else r, n, n);
    }
  }

  lemma {:induction false} ResultFits(a: int, b: int)
    requires b != 0
    ensures var q, r := Quotient(a, b), Remainder(a, b);
      (r > 0 ==> a > 0) && (r < 0 ==> a < 0) && (IsWord(a) ==> IsWord(r)) &&
      (IsWord(a) && !(a == -0x8000_0000_0000_0000 && b == -1) ==> IsWord(q))
  {
    var x, y := Abs(a), Abs(b);
    DividedDown(x, y);
    assert IsWord(a) ==> x <= 0x8000_0000_0000_0000 && (x == 0x8000_0000_0000_0000 ==> a < 0);
    assert y == 1 ==> b == 1 || b == -1;
  }

  lemma {:induction false} DividedDown(x: nat, y: nat)
    requires y > 0
    ensures x % y <= x && x / y <= x && x % y < y
    ensures y > 1 && x > 0 ==> x / y < x
  {
    var q, r := x / y, x % y;
    assert x == q * y + r && 0 <= r < y;
    ProductGrows(q, y);
  }

  lemma {:induction false} ProductGrows(q: nat, y: nat)
    requires y > 0
    ensures q <= q * y && (y > 1 && q > 0 ==> q < q * y)
  {
  }

  /** Strings are put together. */
  lemma {:induction false} StringsJoined(rt: Runtime, c: Chunk, s: Vm, base: seq<Value>, x: string, y: string)
    requires About(c, s, IOperate(Add), base + [Str(x), Str(y)]) && |base| < 128
    ensures WentOn(s, Step(rt, c, s), base + [Str(x + y)])
  {
    TwoOnTop(base, Str(x), Str(y));
  }

  /** No arithmetic is done on anything else. */
  lemma {:induction false} OthersPanic(rt: Runtime, c: Chunk, s: Vm, base: seq<Value>, x: Value, y: Value, op: BinaryOp)
    requires op in {Add, Sub, Mul, Div, Mod} && !(x.Int? && y.Int?) && !(op == Add && x.Str? && y.Str?)
    requires About(c, s, IOperate(op), base + [x, y])
    ensures Step(rt, c, s) == Crashed(s.w)
  {
    TwoOnTop(base, x, y);
  }

  /** A test leaves whether the comparison has the sign that it asks for. */
  lemma {:induction false} ValuesTested(rt: Runtime, c: Chunk, s: Vm, base: seq<Value>, x: Value, y: Value,
      op: BinaryOp)
    requires op in {Eq, Ne, Lt, Le, Gt, Ge}
    requires About(c, s, IOperate(op), base + [x, y]) && |base| < 128
    ensures var s' := Step(rt, c, s);
      var sign := rt.compare(s.w, x, y);
      (op == Eq ==> WentOn(s, s', base + [Bool(rt.equal(s.w, x, y))])) &&
      (op == Ne ==> WentOn(s, s', base + [Bool(!rt.equal(s.w, x, y))])) &&
      (op == Lt ==> WentOn(s, s', base + [Bool(sign < 0)])) &&
      (op == Le ==> WentOn(s, s', base + [Bool(sign <= 0)])) &&
      (op == Gt ==> WentOn(s, s', base + [Bool(sign > 0)])) &&
      (op == Ge ==> WentOn(s, s', base + [Bool(sign >= 0)]))
  {
    TwoOnTop(base, x, y);
  }

  /** `~=` leaves the answer of the matcher for two strings, and panics for a pattern in error and anything else. */
  lemma {:induction false} StringsMatched(rt: Runtime, c: Chunk, s: Vm, base: seq<Value>, x: Value, y: Value)
    requires About(c, s, IOperate(Match), base + [x, y]) && |base| < 128
    ensures if x.Str? && y.Str? && rt.matches(x.z, y.z).Some?
            then WentOn(s, Step(rt, c, s), base + [Bool(rt.matches(x.z, y.z).value)])
            else Step(rt, c, s) == Crashed(s.w)
  {
    TwoOnTop(base, x, y);
  }

  /** Unary operators: `-` negates modulo 2^64, `not` and `!` leave whether the operand is nil or false. */
  lemma {:induction false} OperandChanged(rt: Runtime, c: Chunk, s: Vm, base: seq<Value>, x: Value, op: UnaryOp)
    returns (n: int)
    requires About(c, s, IApply(op), base + [x]) && |base| < 128
    ensures var s' := Step(rt, c, s);
      (op == Minus && x.Int? ==> WrapsTo(-x.n, n) && WentOn(s, s', base + [Int(n)])) &&
      (op == Minus && !x.Int? ==> s' == Crashed(s.w)) &&
      (op == Not || op == NotNil ==> WentOn(s, s', base + [Bool(x == Nil || x == Bool(false))])) &&
      (op == TypeOf ==> WentOn(s, s', base + [Str(rt.typeName(s.w, x))]))
  {
    hide Wrap, WrapsTo;
    OneOnTop(base, x);
    n := 0;
    if x.Int? {
      Wrapped(-x.n);
      n := Wrap(-x.n);
    }
  }

  /** Where a jump lands. */
  predicate Lands(pc: nat, j: Jump, q: nat) {
    match j
    case Fwd(off) => q == pc + off
    case Bwd(off) => q == pc - off
  }

  /** `IJne` takes the condition and jumps exactly on nil and false; `IJnt` and `IJnn` jump exactly on what decides
      `and` and `or`, and leave that where it is. */
  lemma {:induction false} JumpsTaken(rt: Runtime, c: Chunk, s: Vm, base: seq<Value>, x: Value, j: Jump, q: nat)
    requires s.Running? && Lands(s.pc, j, q)
    ensures var falsy, s' := x == Nil || x == Bool(false), Step(rt, c, s);
      (About(c, s, IJne(j), base + [x]) ==>
        s' == s.(pc := if falsy then q else s.pc + 1, stack := base)) &&
      (About(c, s, IJnt(j), base + [x]) ==>
        s' == if falsy then s.(pc := q) else s.(pc := s.pc + 1, stack := base)) &&
      (About(c, s, IJnn(j), base + [x]) ==>
        s' == if falsy then s.(pc := s.pc + 1, stack := base) else s.(pc := q)) &&
      (About(c, s, IForeach(j), base + [x]) ==>
        s' == if x == Nil then s.(pc := q, stack := base) else s.(pc := s.pc + 1)) &&
      (About(c, s, IJmp(j), base + [x]) ==> s' == s.(pc := q))
  {
    OneOnTop(base, x);
  }

  /** A global is nil until it is stored, and then what was stored last. */
  lemma {:induction false} GlobalsKept(rt: Runtime, c: Chunk, s: Vm, base: seq<Value>, x: Value, i: nat, y: Name)
    requires i < |c.kval| && c.kval[i].Str?
    ensures var s' := Step(rt, c, s);
      (About(c, s, IPushGlobal(i), base) && |base| < 128 ==>
        var z := c.kval[i].z;
        WentOn(s, s', base + [if z in s.w.globals then s.w.globals[z] else Nil])) &&
      (About(c, s, IStoreGlobal(i), base + [x]) ==>
        s'.Running? && s'.pc == s.pc + 1 && s'.stack == base && s'.locals == s.locals && s'.w.heap == s.w.heap &&
        c.kval[i].z in s'.w.globals && s'.w.globals[c.kval[i].z] == x &&
        (y == c.kval[i].z || (y !in s'.w.globals && y !in s.w.globals) ||
         (y in s'.w.globals && y in s.w.globals && s'.w.globals[y] == s.w.globals[y])))
  {
    OneOnTop(base, x);
  }

  /** The operand stack has 128 cells. */
  lemma {:induction false} StackEnds(rt: Runtime, c: Chunk, s: Vm, v: Value, i: nat)
    requires s.Running? && s.pc < |c.inst| && i < |c.kval| && c.kval[i] == v && c.inst[s.pc] == IPushConst(i)
    ensures if |s.stack| < 128 then WentOn(s, Step(rt, c, s), s.stack + [v]) else Step(rt, c, s) == Crashed(s.w)
  {
  }
}
