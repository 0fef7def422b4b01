/** Integers of variable length: seven bits to a byte, high bits first, and the top bit set in all bytes but the
    last. */
module Varint {
  import opened Basics

  const U32: nat := 0x1_0000_0000
  const U64: nat := 0x1_0000_0000_0000_0000

  // ------------------------------------------------------------------
  // The format
  // ------------------------------------------------------------------

  /** The digits of `x` to the base 128, each with the top bit set. */
  function Leading(x: nat): seq<Byte> {
    if x < 128 then [x + 128] else Leading(x / 128) + [x % 128 + 128]
  }

  /** The shortest form of `x`. */
  function Encode(x: nat): seq<Byte> {
    if x < 128 then [x] else Leading(x / 128) + [x % 128]
  }

  /** Reads on with `x` as the value so far, in 64 bits: the value and the bytes read, or nothing if the bytes
      run out. */
  function Scan(b: seq<Byte>, x: nat): Option<(nat, nat)> {
    if b == [] then None
    else if b[0] < 128 then Some((x + b[0], 1))
    else Later(Scan(b[1..], Push(x, b[0])), 1)
  }

  /** The value with seven more bits, moved up by seven. */
  function Push(x: nat, d: Byte): nat
    requires d >= 128
  {
    (x + d - 128) * 128 % U64
  }

  function Later(r: Option<(nat, nat)>, k: nat): Option<(nat, nat)> {
    if r.None? then None else Some((r.value.0, r.value.1 + k))
  }

  /** The leading digits are read, whatever follows. */
  lemma {:induction false} ScanLeading(x: nat, rest: seq<Byte>)
    requires x * 128 < U64
    ensures Scan(Leading(x) + rest, 0) == Later(Scan(rest, x * 128), |Leading(x)|)
  {
    if x < 128 {
      assert (Leading(x) + rest)[1..] == rest;
    } else {
      var d: seq<Byte> := [x % 128 + 128];
      Assoc(Leading(x / 128), d, rest);
      ScanLeading(x / 128, d + rest);
      assert (d + rest)[1..] == rest && x / 128 * 128 + x % 128 == x;
    }
  }

  /** What was written is read, and nothing more, whatever follows. */
  lemma {:induction false} RoundTrip(x: nat, rest: seq<Byte>)
    requires x < U64
    ensures Scan(Encode(x) + rest, 0) == Some((x, |Encode(x)|))
  {
    if x < 128 {
      assert (Encode(x) + rest)[0] == x;
    } else {
      var d: seq<Byte> := [x % 128];
      Assoc(Leading(x / 128), d, rest);
      ScanLeading(x / 128, d + rest);
      assert (d + rest)[0] == x % 128;
    }
  }

  /** No form is the beginning of another. */
  lemma {:induction false} PrefixFree(x: nat, y: nat, r: seq<Byte>, s: seq<Byte>)
    requires x < U64 && y < U64 && Encode(x) + r == Encode(y) + s
    ensures x == y && r == s
  {
    RoundTrip(x, r);
    RoundTrip(y, s);
    Parts(Encode(x), r);
    Parts(Encode(y), s);
  }

  function Pow128(n: nat): nat {
    if n == 0 then 1 else 128 * Pow128(n - 1)
  }

  /** The digits are as few as can be. */
  lemma {:induction false} LeadingLength(x: nat)
    requires x > 0
    ensures |Leading(x)| > 0 && Pow128(|Leading(x)| - 1) <= x < Pow128(|Leading(x)|) && Leading(x)[0] > 128
  {
    if x < 128 {
      assert Pow128(1) == 128 * Pow128(0);
    } else {
      LeadingLength(x / 128);
      assert |Leading(x)| == |Leading(x / 128)| + 1;
    }
  }

  lemma {:induction false} EncodeLength(x: nat)
    ensures |Encode(x)| > 0 && x < Pow128(|Encode(x)|) &&
      (|Encode(x)| > 1 ==> Pow128(|Encode(x)| - 1) <= x && Encode(x)[0] > 128)
  {
    if x < 128 {
      assert Pow128(1) == 128 * Pow128(0);
    } else {
      LeadingLength(x / 128);
      assert |Encode(x)| == |Leading(x / 128)| + 1;
    }
  }

  /** The number that bytes stand for, seven bits of each, the first ones highest. */
  function Number(b: seq<Byte>): nat {
    if b == [] then 0 else Number(b[..|b| - 1]) * 128 + b[|b| - 1] % 128
  }

  lemma {:induction false} LeadingNumber(x: nat)
    ensures Number(Leading(x)) == x && forall i | 0 <= i < |Leading(x)| :: Leading(x)[i] >= 128
  {
    if x < 128 {
      assert Leading(x)[..0] == [];
    } else {
      LeadingNumber(x / 128);
      assert Leading(x)[..|Leading(x)| - 1] == Leading(x / 128);
    }
  }

  /** The bytes stand for the number, and the top bit is set in all of them but the last. */
  lemma {:induction false} EncodeNumber(x: nat)
    ensures Number(Encode(x)) == x && Encode(x) != []
    ensures forall i | 0 <= i < |Encode(x)| :: Encode(x)[i] >= 128 <==> i < |Encode(x)| - 1
  {
    if x < 128 {
      assert Encode(x)[..0] == [];
    } else {
      LeadingNumber(x / 128);
      assert Encode(x)[..|Encode(x)| - 1] == Leading(x / 128);
    }
  }

  lemma {:induction false} PowerGrows(m: nat, n: nat)
    requires m <= n
    ensures 0 < Pow128(m) <= Pow128(n)
  {
    if m < n { PowerGrows(m, n - 1); } else if n > 0 { PowerGrows(n - 1, n - 1); }
  }

  lemma {:induction false} InBytes(x: nat, n: nat)
    requires 0 < n && x < Pow128(n)
    ensures |Encode(x)| <= n
  {
    EncodeLength(x);
    if |Encode(x)| > n { PowerGrows(n, |Encode(x)| - 1); }
  }

  lemma {:induction false} WordFits(x: nat)
    ensures x < U64 ==> |Encode(x)| <= 10
    ensures x < U32 ==> |Encode(x)| <= 5
  {
    assert Pow128(2) == 0x4000 && Pow128(3) == 0x20_0000 && Pow128(4) == 0x1000_0000 && Pow128(5) == 0x8_0000_0000;
    assert Pow128(7) == 0x4000 * Pow128(5) && Pow128(9) == 0x4000 * Pow128(7) && Pow128(10) == 128 * Pow128(9);
    if x < U64 { InBytes(x, 10); }
    if x < U32 { InBytes(x, 5); }
  }

  // ------------------------------------------------------------------
  // The ladder
  // ------------------------------------------------------------------

  /** `x` shifted right by `7 * c` bits. */
  function Shifted(x: nat, c: nat): nat {
    if c == 0 then x else Shifted(x, c - 1) / 128
  }

  /** The group of seven bits that has `7 * c` bits to its right. */
  function Group(x: nat, c: nat): (g: Byte)
    ensures g < 128
  {
    Shifted(x, c) % 128
  }

  lemma {:induction false} ShiftedThrice(x: nat, c: nat)
    ensures Shifted(x, 0) == x && Shifted(x, c + 1) == Shifted(x, c) / 128
    ensures Shifted(x, c + 2) == Shifted(x, c + 1) / 128 && Shifted(x, c + 3) == Shifted(x, c + 2) / 128
  {
    ShiftedNext(x, c);
    ShiftedNext(x, c + 1);
    ShiftedNext(x, c + 2);
    hide Shifted;
  }

  lemma {:induction false} ShiftedWord(x: nat)
    requires x < U64
    ensures Shifted(x, 10) == 0 && Shifted(x, 7) < 0x8000
    ensures (Shifted(x, 4) < 0x20_0000) <==> (Shifted(x, 7) == 0)
    ensures (Shifted(x, 1) < 0x20_0000) <==> (Shifted(x, 4) == 0)
  {
    ShiftedThrice(x, 0);
    ShiftedThrice(x, 3);
    ShiftedThrice(x, 6);
    ShiftedThrice(x, 9);
    hide Shifted;
  }

  lemma {:induction false} ShiftedNext(x: nat, c: nat)
    ensures Shifted(x, c + 1) == Shifted(x, c) / 128 && Shifted(x, 0) == x
    ensures Shifted(x, c + 1) == 0 ==> Group(x, c) == Shifted(x, c)
  {
  }

  /** Nothing but zeros above the group `c`, which is not zero: the digits start here. */
  ghost predicate Starts(x: nat, c: nat) {
    Shifted(x, c + 1) == 0 && Shifted(x, c) != 0
  }

  /** A rung of the ladder: the bytes before it, and the group it starts with. */
  ghost predicate Rung(x: nat, at: nat, c: nat, rv: seq<Byte>, g: Byte) {
    at >= c && g == Group(x, c) &&
    if at == c then rv == [] && Starts(x, c) else Shifted(x, c + 1) != 0 && rv == Leading(Shifted(x, c + 1))
  }

  /** Writes a group and takes the next one. */
  method Fill(x: nat, ghost at: nat, c: nat, rv: seq<Byte>, g: Byte) returns (out: seq<Byte>, next: Byte)
    requires g < 128 && Rung(x, at, c + 1, rv, g)
    ensures Rung(x, at, c, out, next) && next < 128
  {
    out, next := rv + [g + 128], Group(x, c);
    ShiftedNext(x, c + 1);
  }

  /** The end of the ladder. */
  lemma {:induction false} Landed(x: nat, at: nat, rv: seq<Byte>, g: Byte)
    requires Rung(x, at, 0, rv, g) && at > 0
    ensures rv + [g] == Encode(x)
  {
    ShiftedNext(x, 0);
  }

  /** The way down from the group `at`, by fall through. */
  method Ladder(x: nat, at: nat, first: Byte) returns (rv: seq<Byte>)
    requires 0 < at <= 9 && Starts(x, at) && first == Group(x, at)
    ensures rv == Encode(x)
  {
    hide Group, Starts, Rung;
    Mount(x, at, first);
    rv := [];
    var g := first;
    if at >= 9 { rv, g := Fill(x, at, 8, rv, g); }
    if at >= 8 { rv, g := Fill(x, at, 7, rv, g); }
    if at >= 7 { rv, g := Fill(x, at, 6, rv, g); }
    if at >= 6 { rv, g := Fill(x, at, 5, rv, g); }
    if at >= 5 { rv, g := Fill(x, at, 4, rv, g); }
    if at >= 4 { rv, g := Fill(x, at, 3, rv, g); }
    if at >= 3 { rv, g := Fill(x, at, 2, rv, g); }
    if at >= 2 { rv, g := Fill(x, at, 1, rv, g); }
    rv, g := Fill(x, at, 0, rv, g);
    Landed(x, at, rv, g);
    rv := rv + [g];
  }

  lemma {:induction false} Mount(x: nat, at: nat, first: Byte)
    requires Starts(x, at) && first == Group(x, at)
    ensures Rung(x, at, at, [], first) && first < 128
  {
  }

  /** Three groups tested from the top, behind one test of all their bits. */
  method Topmost(x: nat, c: nat, ghost top: nat) returns (at: nat)
    requires c > 0 && Shifted(x, c + 3) == 0 && top == Shifted(x, c)
    ensures if top == 0 then at == 0 else at > 0 && c <= at < c + 3 && Starts(x, at)
  {
    ShiftedNext(x, c);
    ShiftedNext(x, c + 1);
    ShiftedNext(x, c + 2);
    at :=
      if Group(x, c + 2) != 0 then c + 2
      else if Group(x, c + 1) != 0 then c + 1
      else if Group(x, c) != 0 then c
      else 0;
  }

  /** The longest group that is not zero, by halves; below the first group there is nothing to jump to. */
  method Uint64Encode(x: nat) returns (rv: seq<Byte>)
    requires x < U64
    ensures rv == Encode(x) && |rv| <= 10
  {
    hide Group, Starts, Shifted;
    ShiftedWord(x);
    ShiftedNext(x, 0);
    WordFits(x);
    var at := 0;
    if Shifted(x, 7) % 0x8000 != 0 {
      at := Topmost(x, 7, Shifted(x, 7));
    }
    if at == 0 && Shifted(x, 4) % 0x20_0000 != 0 {
      at := Topmost(x, 4, Shifted(x, 4));
    }
    if at == 0 && Shifted(x, 1) % 0x20_0000 != 0 {
      at := Topmost(x, 1, Shifted(x, 1));
    }
    if at == 0 {
      rv := [Group(x, 0)];
    } else {
      rv := Ladder(x, at, Group(x, at));
    }
  }

  lemma {:induction false} ShiftedHalf(x: nat)
    requires x < U32
    ensures Shifted(x, 5) == 0
  {
    ShiftedThrice(x, 0);
    ShiftedThrice(x, 3);
    hide Shifted;
  }

  /** The longest group that is not zero, from the top. */
  method Uint32Encode(x: nat) returns (rv: seq<Byte>)
    requires x < U32
    ensures rv == Encode(x) && |rv| <= 5
  {
    hide Starts;
    ShiftedHalf(x);
    ShiftedNext(x, 0);
    WordFits(x);
    var at := 0;
    if Group(x, 4) != 0 {
      at := 4;
      Top(x, 4);
    } else {
      ShiftedNext(x, 4);
      at := Topmost(x, 1, Shifted(x, 1));
    }
    if at == 0 {
      rv := [Group(x, 0)];
    } else {
      rv := Ladder(x, at, Group(x, at));
    }
  }

  lemma {:induction false} Top(x: nat, c: nat)
    requires Shifted(x, c + 1) == 0 && Group(x, c) != 0
    ensures Starts(x, c)
  {
  }

  /** Reads up to the first byte whose top bit is clear: the value, and the bytes read. */
  method Uint64Decode(b: seq<Byte>) returns (x: nat, i: nat)
    requires Scan(b, 0).Some?
    ensures (x, i) == Scan(b, 0).value && 0 < i <= |b| && x < U64
  {
    hide Scan, Push;
    i, x := 0, 0;
    ScanParts(b, 0);
    assert b[0..] == b;
    while b[i] >= 128
      invariant i < |b| && Scan(b[i..], x).Some? && Scan(b, 0) == Later(Scan(b[i..], x), i) && x < U64 && x % 128 == 0
      invariant Scan(b[i..], x).value.1 <= |b| - i && Scan(b[i..], x).value.0 < U64
      decreases |b| - i
    {
      hide Scan, Push;
      ScanParts(b[i..], x);
      PushClear(x, b[i]);
      assert b[i..][1..] == b[i + 1..];
      x := Push(x, b[i]);
      i := i + 1;
      ScanParts(b[i..], x);
    }
    ScanParts(b[i..], x);
    x := x + b[i];
    i := i + 1;
  }

  lemma {:induction false} ScanParts(b: seq<Byte>, x: nat)
    ensures Scan(b, x).Some? ==> b != []
    ensures b != [] && b[0] < 128 ==> Scan(b, x) == Some((x + b[0], 1))
    ensures b != [] && b[0] >= 128 ==> Scan(b, x) == Later(Scan(b[1..], Push(x, b[0])), 1)
    ensures x < U64 && x % 128 == 0 && Scan(b, x).Some? ==> 0 < Scan(b, x).value.1 <= |b| && Scan(b, x).value.0 < U64
  {
    if b != [] && b[0] >= 128 {
      LowClear(x + b[0] - 128);
      ScanParts(b[1..], Push(x, b[0]));
    }
    if x < U64 && x % 128 == 0 { HighRoom(x); }
  }

  /** A word shifted left by seven bits. */
  lemma {:induction false} LowClear(x: nat)
    ensures var y := x * 128 % U64; y < U64 && y % 128 == 0
  {
    var q := x * 128 / U64;
    assert x * 128 % U64 == (x - q * 0x200_0000_0000_0000) * 128;
  }

  lemma {:induction false} PushClear(x: nat, d: Byte)
    requires d >= 128
    ensures Push(x, d) < U64 && Push(x, d) % 128 == 0
  {
    LowClear(x + d - 128);
  }

  lemma {:induction false} HighRoom(x: nat)
    requires x < U64 && x % 128 == 0
    ensures x + 127 < U64
  {
  }

  /** The same, cut down to 32 bits. */
  method Uint32Decode(b: seq<Byte>) returns (x: nat, i: nat)
    requires Scan(b, 0).Some?
    ensures x == Scan(b, 0).value.0 % U32 && i == Scan(b, 0).value.1 && 0 < i <= |b|
  {
    x, i := Uint64Decode(b);
    x := x % U32;
  }

  // ------------------------------------------------------------------
  // Signed integers
  // ------------------------------------------------------------------

  /** The number of words of 64 or 32 bits. */
  function Words(wide: bool): int {
    if wide then U64 else U32
  }

  /** The magnitude above the sign; the magnitude of the least integer wraps around to zero. */
  function Zigzag(i: int, wide: bool): nat {
    if i >= 0 then i * 2 else if wide then -i * 2 % U64 + 1 else -i * 2 % U32 + 1
  }

  function Unzigzag(u: nat): int {
    var half: int := u / 2;
    if u % 2 == 1 then -half else half
  }

  /** The integers of a word. */
  predicate Signed(i: int, wide: bool) {
    -Words(wide) <= i * 2 < Words(wide)
  }

  /** Every integer comes back but the least one, which comes back as zero. */
  lemma {:induction false} SignedRoundTrip(i: int, wide: bool)
    requires Signed(i, wide)
    ensures Zigzag(i, wide) < Words(wide)
    ensures Unzigzag(Zigzag(i, wide)) == if i * 2 == -Words(wide) then 0 else i
  {
  }

  /** Every word comes back but 1, the negative zero. */
  lemma {:induction false} WordRoundTrip(u: nat, wide: bool)
    requires u < Words(wide)
    ensures Signed(Unzigzag(u), wide)
    ensures Zigzag(Unzigzag(u), wide) == if u == 1 then 0 else u
  {
  }

  /** A signed integer as bytes. */
  function EncodeSigned(i: int): seq<Byte> {
    Encode(Zigzag(i, true))
  }

  method Sint64Encode(i: int) returns (rv: seq<Byte>)
    requires Signed(i, true)
    ensures rv == EncodeSigned(i) && |rv| <= 10
  {
    SignedRoundTrip(i, true);
    rv := Uint64Encode(Zigzag(i, true));
  }

  method Sint64Decode(b: seq<Byte>) returns (i: int, k: nat)
    requires Scan(b, 0).Some?
    ensures i == Unzigzag(Scan(b, 0).value.0) && k == Scan(b, 0).value.1
  {
    var x: nat;
    x, k := Uint64Decode(b);
    i := Unzigzag(x);
  }

  /** The bytes of an integer stand for twice its magnitude, and one more if it is negative; those of the least one are
      the single byte 1. */
  lemma {:induction false} SignedNumber(i: int)
    requires Signed(i, true)
    ensures 0 <= i ==> Number(EncodeSigned(i)) == 2 * i
    ensures -0x8000_0000_0000_0000 < i < 0 ==> Number(EncodeSigned(i)) == -2 * i + 1
    ensures i == -0x8000_0000_0000_0000 ==> EncodeSigned(i) == [1]
    ensures i == 1 ==> EncodeSigned(i) == [2]
    ensures i == -1 ==> EncodeSigned(i) == [3]
  {
    EncodeNumber(Zigzag(i, true));
  }

  /** A signed integer is read back from its bytes, whatever follows, exactly if it is not the least one. */
  lemma {:induction false} SignedBytes(i: int, rest: seq<Byte>)
    requires Signed(i, true)
    ensures var r := Scan(EncodeSigned(i) + rest, 0);
      r.Some? && r.value.1 == |EncodeSigned(i)| && (Unzigzag(r.value.0) == i <==> i != -0x8000_0000_0000_0000)
  {
    SignedRoundTrip(i, true);
    RoundTrip(Zigzag(i, true), rest);
  }
}
