/** Values, the state that scripts share, and the operations on values that running a script relies on. */
module Runtime {
  import opened Basics
  import opened ScriptSyntax

  datatype Value = Nil | Bool(b: bool) | Int(n: int) | Str(z: string) | Ref(id: nat)

  /** An object on the heap: its kind and what it holds. */
  datatype Cell = Cell(kind: nat, holds: seq<Value>)

  datatype World = World(globals: map<string, Value>, heap: map<nat, Cell>)

  /** What an operation that may panic comes to. */
  datatype Outcome<+T> = Gives(v: T, w: World) | Panics(w: World)

  /** The operations on objects, the calls and the comparisons; `call` is given the free cells of the operand
      stack, the function and the arguments, and answers the values left on the stack. */
  datatype Runtime = Runtime(
    get: (World, Value, Value) -> Outcome<Value>,
    put: (World, Value, Value, Value) -> Outcome<()>,
    newArray: (World, seq<Value>) -> Outcome<Value>,
    call: (World, nat, Value, seq<Value>) -> Outcome<seq<Value>>,
    equal: (World, Value, Value) -> bool,
    compare: (World, Value, Value) -> int,
    matches: (string, string) -> Option<bool>,
    typeName: (World, Value) -> string)

  /** Cells of the operand stack. */
  const MAX_STACK: nat := 128

  /** Cells for the locals. */
  const MAX_LOCAL: nat := 512

  function Truth(v: Value): bool {
    match v
    case Nil => false
    case Bool(b) => b
    case Int(_) | Str(_) | Ref(_) => true
  }

  /** A 64-bit two's complement result. */
  function Wrap(n: int): (r: int)
    ensures -0x8000_0000_0000_0000 <= r < 0x8000_0000_0000_0000
    ensures -0x8000_0000_0000_0000 <= n < 0x8000_0000_0000_0000 ==> r == n
  {
    (n + 0x8000_0000_0000_0000) % 0x1_0000_0000_0000_0000 - 0x8000_0000_0000_0000
  }

  function Abs(n: int): nat {
    if n < 0 then -n else n
  }

  /** Division truncates towards zero. */
  function Quotient(a: int, b: int): int
    requires b != 0
  {
    if (a < 0) == (b < 0) then Abs(a) / Abs(b) else -(Abs(a) / Abs(b))
  }

  /** The remainder has the sign of the dividend. */
  function Remainder(a: int, b: int): int
    requires b != 0
  {
    if a < 0 then -(Abs(a) % Abs(b)) else Abs(a) % Abs(b)
  }

  lemma {:induction false} Division(a: int, b: int)
    requires b != 0
    ensures a == Quotient(a, b) * b + Remainder(a, b)
    ensures Abs(Remainder(a, b)) < Abs(b)
    ensures Remainder(a, b) != 0 ==> (Remainder(a, b) < 0 <==> a < 0)
  {
    var x, y := Abs(a), Abs(b);
    assert x == x / y * y + x % y;
    if b < 0 {
      assert (x / y) * b == -(x / y * y);
      assert (-(x / y)) * b == x / y * y;
    }
  }

  /** The least integer divided by -1 does not fit a word, which C leaves undefined and common machines trap;
      here the quotient wraps around and the remainder is zero. */
  function Arith(op: BinaryOp, a: int, b: int): Option<int> {
    match op
    case Add => Some(Wrap(a + b))
    case Sub => Some(Wrap(a - b))
    case Mul => Some(Wrap(a * b))
    case Div => if b == 0 then None else Some(Wrap(Quotient(a, b)))
    case Mod => if b == 0 then None else Some(Wrap(Remainder(a, b)))
    case _ => None
  }

  function Tested(b: bool, w: World): Outcome<Value> {
    Gives(Bool(b), w)
  }

  function OnInts(w: World, op: BinaryOp, l: Value, r: Value): Outcome<Value> {
    if !l.Int? || !r.Int? then Panics(w)
    else
      match Arith(op, l.n, r.n)
      case Some(n) => Gives(Int(n), w)
      case None => Panics(w)
  }

  /** A binary operator other than `and` and `or`. */
  function Operate(rt: Runtime, w: World, op: BinaryOp, l: Value, r: Value): Outcome<Value> {
    match op
    case Add => if l.Str? && r.Str? then Gives(Str(l.z + r.z), w) else OnInts(w, op, l, r)
    case Sub | Mul | Div | Mod => OnInts(w, op, l, r)
    case Eq => Tested(rt.equal(w, l, r), w)
    case Ne => Tested(!rt.equal(w, l, r), w)
    case Lt => Tested(rt.compare(w, l, r) < 0, w)
    case Le => Tested(rt.compare(w, l, r) <= 0, w)
    case Gt => Tested(rt.compare(w, l, r) > 0, w)
    case Ge => Tested(rt.compare(w, l, r) >= 0, w)
    case Match => (
      if !l.Str? || !r.Str? then Panics(w)
      else
        match rt.matches(l.z, r.z)
        case Some(b) => Tested(b, w)
        case None => Panics(w))
    case And | Or => Panics(w)
  }

  function Apply(rt: Runtime, w: World, op: UnaryOp, v: Value): Outcome<Value> {
    match op
    case Minus => if v.Int? then Gives(Int(Wrap(-v.n)), w) else Panics(w)
    case Not | NotNil => Gives(Bool(!Truth(v)), w)
    case TypeOf => Gives(Str(rt.typeName(w, v)), w)
  }

  /** A global that was never stored is nil. */
  function Global(w: World, x: Name): Value {
    if x in w.globals then w.globals[x] else Nil
  }

  function SetGlobal(w: World, x: Name, v: Value): World {
    w.(globals := w.globals[x := v])
  }

  /** A call whose value is wanted keeps the first value it left, or takes nil. */
  function First(vs: seq<Value>): Value {
    if vs == [] then Nil else vs[0]
  }

  function LiteralValue(c: Literal): Value {
    match c
    case NilLit => Nil
    case BoolLit(b) => Bool(b)
    case IntLit(n) => Int(n)
    case StrLit(z) => Str(z)
  }
}
