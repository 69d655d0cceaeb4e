/** Fixed-point helpers of the program: powers of ten in `u128`, rescaling a
    Pyth price to micro-units, and the basis-point tolerance and confidence
    tests the oracle checks rely on. */
module FixedPoint {
  import opened Ints
  import opened Errors

  /** 100% in basis points. */
  const BPS_DENOMINATOR: int := 10_000

  /** Micro-units per unit: prices are carried as `usd * 10^6`. */
  const E6: int := 1_000_000

  /** The mathematical power of ten, the reference for `pow10_u128`. */
  function Pow10(n: nat): (r: nat)
    ensures r >= 1
  {
    if n == 0 then 1 else 10 * Pow10(n - 1)
  }

  lemma Pow10Monotone(m: nat, n: nat)
    requires m <= n
    ensures Pow10(m) <= Pow10(n)
    decreases n - m
  {
    if m < n {
      Pow10Monotone(m, n - 1);
    }
  }

  /** `10^38` is the largest power of ten a `u128` holds. */
  lemma Pow10U128Limit()
    ensures Pow10(38) <= U128_MAX < Pow10(39)
  {
    assert Pow10(2) == 100;
    Pow10Split(2, 2);
    Pow10Split(4, 4);
    Pow10Split(8, 8);
    Pow10Split(16, 16);
    assert Pow10(32) == 100_000_000_000_000_000_000_000_000_000_000;
    Pow10Split(32, 4);
    Pow10Split(36, 2);
    assert Pow10(38) == 100_000_000_000_000_000_000_000_000_000_000_000_000;
    assert Pow10(39) == 10 * Pow10(38);
  }

  lemma {:induction false} Pow10Split(m: nat, n: nat)
    ensures Pow10(m + n) == Pow10(m) * Pow10(n)
  {
    if n > 0 {
      Pow10Split(m, n - 1);
      assert Pow10(m + n) == 10 * Pow10(m + n - 1);
    }
  }

  /** `pow10_u128`: ten to the `p`, multiplying by ten `p` times and giving up
      as soon as a product leaves `u128`. */
  function Pow10U128(p: nat): (r: Option<int>)
    ensures r.Some? <==> Pow10(p) <= U128_MAX
    ensures r.Some? ==> r.value == Pow10(p)
  {
    if p == 0 then Some(1)
    else
      match Pow10U128(p - 1)
      case None => None
      case Some(v) => if v * 10 <= U128_MAX then Some(v * 10) else None
  }

  /** The powers `pow10_u128` can return are exactly those up to `10^38`. */
  lemma Pow10U128Defined(p: nat)
    ensures Pow10U128(p).Some? <==> p <= 38
  {
    Pow10U128Limit();
    if p <= 38 {
      Pow10Monotone(p, 38);
    } else {
      Pow10Monotone(39, p);
    }
  }

  /** `scale_price_to_e6`: `price * 10^expo` in micro-units, as a `u64`.
      The exponent is moved by 6; a non-negative shift multiplies in `i128`,
      a negative one divides rounding toward zero; negative results and
      results beyond `u64` are refused. An `expo` so large that `expo + 6`
      leaves `i32` is refused too. */
  function ScalePriceToE6(price: I64, expo: I32): (r: Option<U64>)
    ensures var adj := expo + 6;
            r.Some? <==> adj <= I32_MAX && -38 <= adj <= 38
                         && (adj >= 0 ==> 0 <= price * Pow10(adj) <= U64_MAX)
                         && (adj < 0 ==> price + Pow10(-adj) > 0)
    ensures var adj := expo + 6;
            r.Some? && adj >= 0 ==> r.value == price * Pow10(adj)
    ensures var adj := expo + 6;
            r.Some? && adj < 0 && price >= 0
            ==> r.value * Pow10(-adj) <= price < r.value * Pow10(-adj) + Pow10(-adj)
    ensures var adj := expo + 6;
            r.Some? && adj < 0 && price < 0 ==> r.value == 0
  {
    var adj := expo + 6;
    if adj > I32_MAX then None
    else if adj >= 0 then ScaleUp(price, adj)
    else ScaleDown(price, -adj)
  }

  /** The multiplying branch of `scale_price_to_e6`, for a shift `p >= 0`. */
  function ScaleUp(price: I64, p: nat): (r: Option<U64>)
    ensures r.Some? <==> p <= 38 && 0 <= price * Pow10(p) <= U64_MAX
    ensures r.Some? ==> r.value == price * Pow10(p)
  {
    Pow10U128Defined(p);
    match Pow10U128(p)
    case None => None
    case Some(f) =>
      var v := price * f;
      if !IsI128(v) || v < 0 || v > U64_MAX then None else Some(v)
  }

  /** The dividing branch of `scale_price_to_e6`, for a shift `-p < 0`. */
  function ScaleDown(price: I64, p: nat): (r: Option<U64>)
    ensures r.Some? <==> p <= 38 && price + Pow10(p) > 0
    ensures r.Some? && price >= 0 ==> r.value * Pow10(p) <= price < r.value * Pow10(p) + Pow10(p)
    ensures r.Some? && price < 0 ==> r.value == 0
  {
    Pow10U128Defined(p);
    match Pow10U128(p)
    case None => None
    case Some(f) =>
      var v := Quot(price, f);
      QuotBracket(price, f);
      if v < 0 then None else Some(v)
  }

  /** What truncating division leaves of a price: a non-negative price keeps
      its floor quotient, a negative one gives zero exactly when it is smaller
      in magnitude than the divisor, and a negative quotient otherwise. */
  lemma QuotBracket(a: int, f: int)
    requires f >= 1
    ensures a >= 0 ==> 0 <= Quot(a, f) <= a && Quot(a, f) * f <= a < Quot(a, f) * f + f
    ensures a < 0 ==> (Quot(a, f) >= 0 <==> -f < a)
    ensures a < 0 && Quot(a, f) >= 0 ==> Quot(a, f) == 0
  {
    if a >= 0 {
      FloorDivBracket(a, f);
    } else if -f < a {
      DivModUnique(-a, f, 0, -a);
    } else {
      FloorDivBracket(-a, f);
      assert (-a) / f >= 1;
    }
  }

  /** `within_bps`: `value` lies within `tol_bps` basis points of a non-zero
      `reference`, the limit being `reference * tol / 10000` rounded down. */
  function WithinBps(value: U64, reference: U64, tolBps: U16): (b: bool)
    ensures b <==> reference > 0 && Abs(value - reference) * BPS_DENOMINATOR <= reference * tolBps
  {
    if reference == 0 then false
    else
      var limit := (reference * tolBps) / BPS_DENOMINATOR;
      FloorDivBound(Abs(value - reference), reference * tolBps, BPS_DENOMINATOR);
      Abs(value - reference) <= limit
  }

  /** An integer is at most a rounded-down quotient exactly when its multiple
      is at most the dividend. */
  lemma FloorDivBound(x: int, n: int, d: int)
    requires d > 0
    ensures x <= n / d <==> x * d <= n
  {
    var q := n / d;
    assert n == q * d + n % d;
    if x <= q {
      assert x * d <= q * d;
    } else {
      assert x * d >= (q + 1) * d;
    }
  }

  /** A zero tolerance accepts only an exact, non-zero match. */
  lemma WithinZeroTolerance(value: U64, reference: U64)
    ensures WithinBps(value, reference, 0) <==> reference > 0 && value == reference
  {
  }

  /** The tolerance is relative to the reference, so the test is not
      symmetric: 100 is within 10% of 111, but 111 is not within 10% of 100. */
  lemma WithinBpsAsymmetric()
    ensures WithinBps(100, 111, 1000)
    ensures !WithinBps(111, 100, 1000)
  {
  }

  /** In general the test favours the larger of two amounts as reference:
      if the larger is within the tolerance of the smaller, the smaller is
      within it of the larger. The lemma above shows the converse fails. */
  lemma WithinBpsFavoursLarger(low: U64, high: U64, tol: U16)
    requires 0 < low <= high && WithinBps(high, low, tol)
    ensures WithinBps(low, high, tol)
  {
    MulMonotone(tol, low, high);
  }

  /** Widening the tolerance never rejects a value that was accepted. */
  lemma WithinBpsMonotone(value: U64, reference: U64, tol1: U16, tol2: U16)
    requires tol1 <= tol2 && WithinBps(value, reference, tol1)
    ensures WithinBps(value, reference, tol2)
  {
    MulMonotone(reference, tol1, tol2);
  }

  /** `conf_bps_from_price`: the confidence interval as basis points of the
      price's magnitude, rounded down; undefined for a zero price. */
  function ConfBpsFromPrice(price: I64, conf: U64): (r: Option<int>)
    ensures r.None? <==> price == 0
    ensures r.Some? ==> r.value >= 0
                        && r.value * Abs(price) <= conf * BPS_DENOMINATOR < (r.value + 1) * Abs(price)
  {
    if price == 0 then None
    else
      var q := (conf * BPS_DENOMINATOR) / Abs(price);
      FloorDivBound(q, conf * BPS_DENOMINATOR, Abs(price));
      FloorDivBound(q + 1, conf * BPS_DENOMINATOR, Abs(price));
      Some(q)
  }

  /** The confidence test the oracle applies, read without division: the
      interval is at most `maxBps` basis points of the price exactly when
      `conf * 10000 < (maxBps + 1) * |price|`. */
  lemma ConfWithinLimit(price: I64, conf: U64, maxBps: nat)
    requires price != 0
    ensures ConfBpsFromPrice(price, conf).value <= maxBps
            <==> conf * BPS_DENOMINATOR < (maxBps + 1) * Abs(price)
  {
    var q := ConfBpsFromPrice(price, conf).value;
    if q <= maxBps {
      MulMonotone(Abs(price), q + 1, maxBps + 1);
    } else {
      MulMonotone(Abs(price), maxBps + 1, q);
    }
  }

  /** The micro-USD value of `amount` FORCA at `rateE6` micro-USD per FORCA,
      rounded down: `amount * rate / 10^6`. */
  function UsdValueE6(amount: nat, rateE6: nat): (r: nat)
    ensures r * E6 <= amount * rateE6 < r * E6 + E6
  {
    FloorDivBracket(amount * rateE6, E6);
    (amount * rateE6) / E6
  }

  /** A basis-point share `x * bps / 10000`, multiplied in `u128` (which two
      `u64` operands never overflow) and rounded down. */
  function BpsOf(x: nat, bps: nat): (r: nat)
    ensures r * BPS_DENOMINATOR <= x * bps < r * BPS_DENOMINATOR + BPS_DENOMINATOR
    ensures bps <= BPS_DENOMINATOR ==> r <= x
  {
    FloorDivBracket(x * bps, BPS_DENOMINATOR);
    BpsShareAtMost(x, bps);
    (x * bps) / BPS_DENOMINATOR
  }

  /** A share of at most 100% is at most the whole. */
  lemma BpsShareAtMost(x: nat, bps: nat)
    ensures bps <= BPS_DENOMINATOR ==> (x * bps) / BPS_DENOMINATOR <= x
  {
    if bps <= BPS_DENOMINATOR {
      MulMonotone(x, bps, BPS_DENOMINATOR);
      DivMonotone(x * bps, x * BPS_DENOMINATOR, BPS_DENOMINATOR);
      DivModUnique(x * BPS_DENOMINATOR, BPS_DENOMINATOR, x, 0);
    }
  }

  /** The program's `as u64` cast of a basis-point share of a `u64` amount is
      exact whenever the rate is at most 100%. */
  lemma BpsShareCastExact(x: U64, bps: nat)
    requires bps <= BPS_DENOMINATOR
    ensures AsU64(BpsOf(x, bps)) == BpsOf(x, bps)
  {
    AsU64InRange(BpsOf(x, bps));
  }
}
