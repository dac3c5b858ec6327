/** Java `long` arithmetic on unbounded integers: two's-complement wrap-around,
    the shifts, the low-bit masks and the bitwise OR that the id generator and
    the sign-in counter use. A `long` value is the `int` it denotes. */
module JavaLong {

  const LONG_MIN: int := -0x8000_0000_0000_0000
  const LONG_MAX: int := 0x7FFF_FFFF_FFFF_FFFF
  const TWO_64: int := 0x1_0000_0000_0000_0000
  const TWO_32: int := 0x1_0000_0000

  predicate InLong(x: int)
  {
    LONG_MIN <= x <= LONG_MAX
  }

  function Pow2(k: nat): (p: nat)
    ensures p >= 1
  {
    if k == 0 then 1 else 2 * Pow2(k - 1)
  }

  /** The `long` that an exact result `x` wraps around to. */
  function Wrap(x: int): (r: int)
    ensures InLong(r)
    ensures InLong(x) ==> r == x
    ensures (x - r) % TWO_64 == 0
  {
    (x - LONG_MIN) % TWO_64 + LONG_MIN
  }

  /** `x.intValue()`: the low 32 bits of a long read as a signed `int`. */
  function IntValue(x: int): (r: int)
    ensures -0x8000_0000 <= r < 0x8000_0000
    ensures -0x8000_0000 <= x < 0x8000_0000 ==> r == x
    ensures (x - r) % TWO_32 == 0
  {
    (x + 0x8000_0000) % TWO_32 - 0x8000_0000
  }

  /** Two longs that agree modulo 2^64 are the same long. */
  lemma SameModulo(a: int, b: int)
    requires InLong(a) && InLong(b) && (a - b) % TWO_64 == 0
    ensures a == b
  {
  }

  /** `x << k` for `0 <= k < 64`. */
  function ShiftLeft(x: int, k: nat): int
    requires k < 64
  {
    Wrap(x * Pow2(k))
  }

  /** `x >> k` (arithmetic shift): the floor of `x / 2^k`. */
  function ShiftRight(x: int, k: nat): int
  {
    x / Pow2(k)
  }

  /** `x >>> k` on a long, `1 <= k < 64`: shift of the unsigned 64-bit pattern. */
  function UnsignedShiftRight(x: int, k: nat): (r: int)
    requires InLong(x) && 1 <= k < 64
    ensures x >= 0 ==> r == x / Pow2(k)
  {
    (x % TWO_64) / Pow2(k)
  }

  /** `x & (2^k - 1)`: the low `k` bits of the two's-complement pattern. */
  function LowBits(x: int, k: nat): (r: int)
    ensures 0 <= r < Pow2(k)
  {
    x % Pow2(k)
  }

  /** The bitwise OR of the low `n` bits of `a` and `b`. */
  function BitOr(a: nat, b: nat, n: nat): (r: nat)
    ensures r < Pow2(n)
  {
    if n == 0 then 0
    else 2 * BitOr(a / 2, b / 2, n - 1) + (if a % 2 == 1 || b % 2 == 1 then 1 else 0)
  }

  /** `x | y` on longs. */
  function Or(x: int, y: int): int
  {
    Wrap(BitOr(x % TWO_64, y % TWO_64, 64))
  }

  /** OR with zero keeps a value that already fits in `n` bits. */
  lemma {:induction false} BitOrZero(a: nat, n: nat)
    requires a < Pow2(n)
    ensures BitOr(a, 0, n) == a
  {
    if n > 0 {
      BitOrZero(a / 2, n - 1);
    }
  }

  /** When `a` has its low `k` bits clear and `c` fits in `k` bits, OR is addition. */
  lemma {:induction false} BitOrDisjoint(a: nat, c: nat, k: nat, n: nat, j: nat)
    requires k <= n && a < Pow2(n) && c < Pow2(k)
    requires a == Pow2(k) * j
    ensures BitOr(a, c, n) == a + c
  {
    if k == 0 {
      BitOrZero(a, n);
    } else {
      var p := Pow2(k - 1);
      assert a == 2 * (p * j);
      BitOrDisjoint(a / 2, c / 2, k - 1, n - 1, j);
    }
  }

  lemma {:induction false} Pow2Add(a: nat, b: nat)
    ensures Pow2(a + b) == Pow2(a) * Pow2(b)
  {
    if a > 0 {
      Pow2Add(a - 1, b);
    }
  }

  /** `(x << 32) | c` is `x * 2^32 + c` whenever that fits: the bit-packing the
      id generator relies on, including a negative `x`. */
  lemma PackIsArithmetic(x: int, c: int)
    requires -0x8000_0000 <= x < 0x8000_0000
    requires 0 <= c < TWO_32
    ensures Or(ShiftLeft(x, 32), c) == x * TWO_32 + c
  {
    var r := x % TWO_32;
    LowBitsOfInt(x);
    var y := r * TWO_32 + c;
    assert Or(ShiftLeft(x, 32), c) == Wrap(y) by {
      Pow2Value();
      ShiftLeftLow(x);
      assert c % TWO_64 == c;
      BitOrDisjoint(r * TWO_32, c, 32, 64, r);
    }
    if x < 0 {
      WrapDown(y);
    }
  }

  /** The low 32 bits of an `int`, read unsigned. */
  lemma LowBitsOfInt(x: int)
    requires -0x8000_0000 <= x < 0x8000_0000
    ensures x % TWO_32 == if x < 0 then x + TWO_32 else x
  {
  }

  /** The 64 bits of `x << 32` are the low 32 bits of `x` moved up. */
  lemma ShiftLeftLow(x: int)
    requires -0x8000_0000 <= x < 0x8000_0000
    ensures ShiftLeft(x, 32) % TWO_64 == (x % TWO_32) * TWO_32
    ensures 0 <= (x % TWO_32) * TWO_32 < TWO_64
  {
    Pow2Value();
    var s := x * TWO_32;
    var q, r := x / TWO_32, x % TWO_32;
    assert x == q * TWO_32 + r;
    assert s == q * TWO_64 + r * TWO_32;
    assert 0 <= r * TWO_32 < TWO_64;
  }

  /** An unsigned 64-bit value above `LONG_MAX` reads as itself minus 2^64. */
  lemma WrapDown(y: int)
    requires LONG_MAX < y < TWO_64
    ensures Wrap(y) == y - TWO_64
  {
    assert (y - LONG_MIN) % TWO_64 == y - LONG_MIN - TWO_64;
  }

  lemma Pow2Value()
    ensures Pow2(32) == TWO_32 && Pow2(64) == TWO_64
  {
    assert Pow2(8) == 256;
    Pow2Add(8, 8);
    Pow2Add(16, 16);
    Pow2Add(32, 32);
  }
}
