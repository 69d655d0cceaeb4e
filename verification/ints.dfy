/** Machine-integer ranges used by the on-chain program, and the Rust
    operators whose meaning differs from Dafny's unbounded Euclidean
    arithmetic. */
module Ints {

  const U8_MAX: int := 0xFF
  const U16_MAX: int := 0xFFFF
  const U64_MAX: int := 0xFFFF_FFFF_FFFF_FFFF
  const U128_MAX: int := 0xFFFF_FFFF_FFFF_FFFF_FFFF_FFFF_FFFF_FFFF
  const I32_MIN: int := -0x8000_0000
  const I32_MAX: int := 0x7FFF_FFFF
  const I64_MIN: int := -0x8000_0000_0000_0000
  const I64_MAX: int := 0x7FFF_FFFF_FFFF_FFFF
  const I128_MIN: int := -0x8000_0000_0000_0000_0000_0000_0000_0000
  const I128_MAX: int := 0x7FFF_FFFF_FFFF_FFFF_FFFF_FFFF_FFFF_FFFF

  type U8 = x: int | 0 <= x <= U8_MAX
  type U16 = x: int | 0 <= x <= U16_MAX
  type U64 = x: int | 0 <= x <= U64_MAX
  type I32 = x: int | I32_MIN <= x <= I32_MAX
  type I64 = x: int | I64_MIN <= x <= I64_MAX

  predicate IsU64(x: int) { 0 <= x <= U64_MAX }
  predicate IsI64(x: int) { I64_MIN <= x <= I64_MAX }
  predicate IsI128(x: int) { I128_MIN <= x <= I128_MAX }

  /** Rust's `abs()` on a value widened to `i128` first, which cannot overflow. */
  function Abs(x: int): nat
  {
    if x < 0 then -x else x
  }

  /** Rust's `/` on signed integers: the quotient rounded toward zero
      (Dafny's `/` rounds toward minus infinity for a positive divisor). */
  function Quot(a: int, b: int): int
    requires b > 0
  {
    if a >= 0 then a / b else -((-a) / b)
  }

  /** Rust's `x as u64` from any wider integer: keeps the low 64 bits. */
  function AsU64(x: int): U64
  {
    x % (U64_MAX + 1)
  }

  /** Rust's `x as i32` from a wider integer: keeps the low 32 bits,
      read as two's complement. */
  function AsI32(x: int): I32
  {
    (x - I32_MIN) % 0x1_0000_0000 + I32_MIN
  }

  lemma AsI32InRange(x: int)
    requires I32_MIN <= x <= I32_MAX
    ensures AsI32(x) == x
  {
    assert 0 <= x - I32_MIN < 0x1_0000_0000;
  }

  lemma AsU64InRange(x: int)
    requires 0 <= x <= U64_MAX
    ensures AsU64(x) == x
  {
  }

  lemma MulAtLeast(a: int, b: int)
    requires 0 < a && 1 <= b
    ensures a * b >= a
  {
    assert a * b == a * (b - 1) + a;
    assert a * (b - 1) >= 0;
  }

  /** Quotient and remainder are pinned down by any decomposition
      `n == dv * q + r` with `0 <= r < dv`. */
  lemma DivModUnique(n: int, dv: int, q: int, r: int)
    requires 0 < dv && n == dv * q + r && 0 <= r < dv
    ensures n / dv == q && n % dv == r
  {
    var q', r' := n / dv, n % dv;
    assert n == dv * q' + r' && 0 <= r' < dv;
    assert dv * (q - q') == r' - r;
    if q > q' {
      MulAtLeast(dv, q - q');
    } else if q < q' {
      MulAtLeast(dv, q' - q);
    }
  }

  /** Floor division of a non-negative number brackets it between two
      consecutive multiples of the divisor. */
  lemma FloorDivBracket(n: int, d: int)
    requires n >= 0 && d > 0
    ensures 0 <= n / d <= n
    ensures (n / d) * d <= n < (n / d) * d + d
  {
    var q, r := n / d, n % d;
    assert n == d * q + r && 0 <= r < d;
    if q > n {
      MulAtLeast(q, d);
    }
  }

  lemma MulMonotone(a: int, b: int, c: int)
    requires 0 <= a && b <= c
    ensures a * b <= a * c
  {
    assert a * c - a * b == a * (c - b);
  }

  /** Floor division by a positive divisor is monotone. */
  lemma DivMonotone(a: int, b: int, d: int)
    requires a <= b && 0 < d
    ensures a / d <= b / d
  {
    var qa, qb := a / d, b / d;
    assert a == d * qa + a % d && b == d * qb + b % d;
    if qa > qb {
      MulAtLeast(d, qa - qb);
    }
  }

  /** The positive part of `x`: `x` when it is positive, else 0. */
  function PosPart(x: int): (r: nat)
    ensures r >= x && (r == 0 || r == x)
  {
    if x > 0 then x else 0
  }
}
