/** Bytes, machine integers and their big-endian encodings, as written by `put_i32`/`put_i64`
    and `write_i32`/`write_i64` and read back by `get_i32`/`get_i64`. */
module Bytes {
  type Byte = x: int | 0 <= x < 256
  type I32 = x: int | -0x8000_0000 <= x < 0x8000_0000
  type I64 = x: int | -0x8000_0000_0000_0000 <= x < 0x8000_0000_0000_0000

  const TWO32: int := 0x1_0000_0000
  const TWO64: int := 0x1_0000_0000_0000_0000

  /** The value of `x as i32` for an integer that may not fit (two's complement wrap-around). */
  function WrapI32(x: int): (r: I32)
    ensures -0x8000_0000 <= x < 0x8000_0000 ==> r == x
  {
    (x + 0x8000_0000) % TWO32 - 0x8000_0000
  }

  /** The value of `x as i64`. */
  function WrapI64(x: int): (r: I64)
    ensures -0x8000_0000_0000_0000 <= x < 0x8000_0000_0000_0000 ==> r == x
  {
    (x + 0x8000_0000_0000_0000) % TWO64 - 0x8000_0000_0000_0000
  }

  /** The value of `x as u64` (or `as usize`). */
  function AsU64(x: int): (r: nat)
    ensures r < TWO64 && (0 <= x < TWO64 ==> r == x)
  {
    x % TWO64
  }

  /** Wrapping after every addition is the same as wrapping the exact sum. */
  lemma WrapI64Add(x: int, y: int)
    ensures WrapI64(WrapI64(x) + y) == WrapI64(x + y)
  {
  }

  lemma WrapI32Add(x: int, y: int)
    ensures WrapI32(WrapI32(x) + y) == WrapI32(x + y)
  {
  }

  lemma AsU64Add(x: int, y: int)
    ensures AsU64(AsU64(x) + AsU64(y)) == AsU64(x + y)
  {
  }

  function Pow256(n: nat): (p: nat)
    ensures p > 0
  {
    if n == 0 then 1 else 256 * Pow256(n - 1)
  }

  function PutUint(v: nat, width: nat): (s: seq<Byte>)
    ensures |s| == width
  {
    if width == 0 then [] else PutUint(v / 256, width - 1) + [v % 256]
  }

  function GetUint(s: seq<Byte>): nat {
    if s == [] then 0 else 256 * GetUint(s[..|s| - 1]) + s[|s| - 1]
  }

  lemma {:induction false} GetUintBound(s: seq<Byte>)
    ensures GetUint(s) < Pow256(|s|)
  {
    if s != [] {
      GetUintBound(s[..|s| - 1]);
    }
  }

  lemma {:induction false} GetUintSnoc(s: seq<Byte>, b: Byte)
    ensures GetUint(s + [b]) == 256 * GetUint(s) + b
  {
    assert (s + [b])[..|s|] == s;
  }

  lemma {:induction false} UintRoundTrip(v: nat, width: nat)
    requires v < Pow256(width)
    ensures GetUint(PutUint(v, width)) == v
  {
    if width > 0 {
      UintRoundTrip(v / 256, width - 1);
      GetUintSnoc(PutUint(v / 256, width - 1), v % 256);
    }
  }

  /** Big-endian: the i-th byte is the digit of the i-th highest power of 256. */
  lemma {:induction false} PutUintAt(v: nat, width: nat, i: nat)
    requires i < width
    ensures PutUint(v, width)[i] == v / Pow256(width - 1 - i) % 256
    decreases width
  {
    if i < width - 1 {
      PutUintAt(v / 256, width - 1, i);
      DivTwice(v, Pow256(width - 2 - i));
    }
  }

  lemma Quotient(v: nat, d: nat, q: nat, r: nat)
    requires v == d * q + r && r < d
    ensures v / d == q
  {
    var p := v / d - q;
    assert r - v % d == d * p;
    MultipleGap(d, p);
  }

  lemma MultipleGap(d: nat, p: int)
    ensures p >= 1 ==> d * p >= d
    ensures p <= -1 ==> d * p <= -1 * d
  {
  }

  lemma DivTwice(v: nat, n: nat)
    requires n > 0
    ensures v / 256 / n == v / (256 * n)
  {
    var a, t := v / 256, v % 256;
    var q, r := a / n, a % n;
    assert 256 * a == 256 * n * q + 256 * r by {
      assert a == n * q + r;
    }
    Quotient(v, 256 * n, q, 256 * r + t);
  }

  lemma Widths()
    ensures Pow256(4) == TWO32 && Pow256(8) == TWO64
  {
    assert Pow256(2) == 0x1_0000 by { assert Pow256(1) == 256; }
    assert Pow256(3) == 0x100_0000;
    assert Pow256(6) == 0x1_0000_0000_0000 by { assert Pow256(5) == 0x100_0000_0000; }
    assert Pow256(7) == 0x100_0000_0000_0000;
  }

  /** Two's complement: the unsigned value of a signed integer, and back. */
  function Unsigned(v: int, modulus: int): int { if v < 0 then v + modulus else v }

  function Signed(u: int, modulus: int): int { if 2 * u >= modulus then u - modulus else u }

  function PutI32(v: I32): (s: seq<Byte>)
    ensures |s| == 4
  {
    PutUint(Unsigned(v, 0x1_0000_0000), 4)
  }

  function GetI32(s: seq<Byte>): (v: I32)
    requires |s| == 4
  {
    Widths();
    GetUintBound(s);
    Signed(GetUint(s), 0x1_0000_0000)
  }

  lemma I32RoundTrip(v: I32)
    ensures GetI32(PutI32(v)) == v
  {
    Widths();
    UintRoundTrip(Unsigned(v, TWO32), 4);
  }

  /** The bytes of a 32-bit integer, highest first, of its value modulo 2^32. */
  lemma I32Bytes(v: I32)
    ensures var u := v % TWO32;
            PutI32(v) == [u / 0x100_0000 % 256, u / 0x1_0000 % 256, u / 0x100 % 256, u % 256]
  {
    var u := Unsigned(v, TWO32);
    assert u == v % TWO32;
    PutUintAt(u, 4, 0);
    PutUintAt(u, 4, 1);
    PutUintAt(u, 4, 2);
    PutUintAt(u, 4, 3);
    assert Pow256(0) == 1 && Pow256(1) == 0x100 && Pow256(2) == 0x1_0000 && Pow256(3) == 0x100_0000;
  }

  function PutI64(v: I64): (s: seq<Byte>)
    ensures |s| == 8
  {
    PutUint(Unsigned(v, 0x1_0000_0000_0000_0000), 8)
  }

  function GetI64(s: seq<Byte>): (v: I64)
    requires |s| == 8
  {
    Widths();
    GetUintBound(s);
    Signed(GetUint(s), 0x1_0000_0000_0000_0000)
  }

  lemma I64RoundTrip(v: I64)
    ensures GetI64(PutI64(v)) == v
  {
    Widths();
    UintRoundTrip(Unsigned(v, TWO64), 8);
  }

  /** The same for 64 bits. */
  lemma {:induction false} I64Bytes(v: I64, i: nat)
    requires i < 8
    ensures PutI64(v)[i] == v % TWO64 / Pow256(7 - i) % 256
  {
    assert Unsigned(v, TWO64) == v % TWO64;
    PutUintAt(Unsigned(v, TWO64), 8, i);
  }
}
