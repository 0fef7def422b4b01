/** Small definitions that several modules share. */
module Basics {

  datatype Option<+T> = None | Some(value: T)

  type Byte = b: int | 0 <= b < 256

  function Pow2(n: nat): (r: nat)
    ensures r >= 1 && (n > 0 ==> r >= 2 && r % 2 == 0)
  {
    if n == 0 then 1 else 2 * Pow2(n - 1)
  }

  lemma {:induction false} Assoc<T>(a: seq<T>, b: seq<T>, c: seq<T>)
    ensures (a + b) + c == a + (b + c)
  {
  }

  lemma {:induction false} Assoc4<T>(a: seq<T>, b: seq<T>, c: seq<T>, d: seq<T>)
    ensures a + b + c + d == a + (b + c + d)
  {
  }

  lemma {:induction false} Parts<T>(a: seq<T>, b: seq<T>)
    ensures (a + b)[..|a|] == a && (a + b)[|a|..] == b
  {
  }
}
