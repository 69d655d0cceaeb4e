/** The civil month index that rolls the monthly claim counter: Howard
    Hinnant's civil-from-days transform, as the program computes it, together
    with an independent proleptic Gregorian calendar it is proved against. */
module Calendar {
  import opened Ints

  const SECS_PER_DAY: int := 86_400
  const DAYS_PER_ERA: int := 146_097
  /** Days from 0000-03-01 to 1970-01-01. */
  const EPOCH_SHIFT: int := 719_468

  // ---------------------------------------------------------------------
  // The program's transform. Every `/` of the source is Rust's truncating
  // division on `i64`, written `Quot`.
  // ---------------------------------------------------------------------

  /** The 400-year era holding day `z` (days counted from 0000-03-01). The
      source rounds down by hand for negative `z`. */
  function Era(z: int): int
  {
    if z >= 0 then Quot(z, DAYS_PER_ERA) else Quot(z - (DAYS_PER_ERA - 1), DAYS_PER_ERA)
  }

  /** Year of the era (years start on 1 March) holding day-of-era `doe`.
      Every operand of the source's divisions here and in the next two
      functions is non-negative, where truncating and floor division agree
      (`TruncatingYearOfEra` spells this out for the first). */
  function YearOfEra(doe: int): int
    requires 0 <= doe
  {
    (doe - doe / 1460 + doe / 36_524 - doe / 146_096) / 365
  }

  /** Day of the March-based year, given the day of era and its year of era. */
  function DayOfYear(doe: int, yoe: int): int
    requires 0 <= yoe
  {
    doe - (365 * yoe + yoe / 4 - yoe / 100)
  }

  /** Month counted from March: 0 is March, 11 is February. */
  function MarchMonth(doy: int): int
    requires 0 <= doy
  {
    (5 * doy + 2) / 153
  }

  /** `year_month_from_days`: the civil (year, month) holding a day counted
      from 1970-01-01. The year is cast to `i32` as in the source. */
  function YearMonthFromDays(days: I64): (r: (I32, int))
    ensures 1 <= r.1 <= 12
  {
    var z := days + EPOCH_SHIFT;
    var era := Era(z);
    EraIsFloor(z);
    YearMonthInEra(era, z - era * DAYS_PER_ERA)
  }

  /** The second half of `year_month_from_days`, from the era and the day of
      era onwards. */
  function YearMonthInEra(era: int, doe: int): (r: (I32, int))
    requires 0 <= doe <= 146_096
    ensures 1 <= r.1 <= 12
  {
    var yoe := YearOfEra(doe);
    YearOfEraBounds(doe);
    var y := yoe + era * 400;
    var doy := DayOfYear(doe, yoe);
    var mp := MarchMonth(doy);
    var m := mp + (if mp < 10 then 3 else -9);
    var year := y + (if m <= 2 then 1 else 0);
    (AsI32(year), m)
  }

  /** `month_index_from_ts`: `year * 12 + (month - 1)` of the UTC day holding
      `ts`; the day is found with `div_euclid`, i.e. rounding down. */
  function MonthIndexFromTs(ts: I64): I64
  {
    var days := ts / SECS_PER_DAY;
    var ym := YearMonthFromDays(days);
    ym.0 * 12 + (ym.1 - 1)
  }

  // ---------------------------------------------------------------------
  // Reference calendar: the proleptic Gregorian calendar, days counted from
  // 1970-01-01 (negative before it).
  // ---------------------------------------------------------------------

  predicate IsLeapYear(y: int)
  {
    y % 4 == 0 && (y % 100 != 0 || y % 400 == 0)
  }

  function DaysInMonth(y: int, m: int): int
    requires 1 <= m <= 12
  {
    if m == 2 then (if IsLeapYear(y) then 29 else 28)
    else if m == 4 || m == 6 || m == 9 || m == 11 then 30
    else 31
  }

  /** Days in the months of year `y` before month `m`. */
  function DaysBeforeMonth(y: int, m: int): int
    requires 1 <= m <= 12
  {
    var common := [0, 31, 59, 90, 120, 151, 181, 212, 243, 273, 304, 334][m - 1];
    common + (if m > 2 && IsLeapYear(y) then 1 else 0)
  }

  /** Days from 0001-01-01 to the first of January of year `y`. */
  function DaysBeforeYear(y: int): int
  {
    365 * (y - 1) + (y - 1) / 4 - (y - 1) / 100 + (y - 1) / 400
  }

  /** Days from 1970-01-01 to the date `y`-`m`-`d`. */
  function EpochDay(y: int, m: int, d: int): int
    requires 1 <= m <= 12
  {
    DaysBeforeYear(y) + DaysBeforeMonth(y, m) + (d - 1) - DaysBeforeYear(1970)
  }

  predicate ValidDate(y: int, m: int, d: int)
  {
    1 <= m <= 12 && 1 <= d <= DaysInMonth(y, m)
  }

  // ---------------------------------------------------------------------
  // The era arithmetic the transform relies on.
  // ---------------------------------------------------------------------

  /** Days before year of era `yoe`, counted from 1 March of the era's year 0. */
  function DaysBeforeYearOfEra(yoe: int): int
  {
    365 * yoe + yoe / 4 - yoe / 100
  }

  /** Length of March-based year `yoe` of an era: it ends with the February of
      the next civil year. */
  function DaysInYearOfEra(yoe: int): int
  {
    if IsLeapYear(yoe + 1) then 366 else 365
  }

  /** First day of March-based month `mp` in its year. */
  function MarchMonthStart(mp: int): int
  {
    (153 * mp + 2) / 5
  }

  /** The source's hand-rounded era is the floor quotient, so the day of era
      lies in [0, 146096]. */
  lemma EraIsFloor(z: int)
    ensures Era(z) == z / DAYS_PER_ERA
    ensures 0 <= z - Era(z) * DAYS_PER_ERA < DAYS_PER_ERA
  {
    if z < 0 {
      var q := z / DAYS_PER_ERA;
      var r := z % DAYS_PER_ERA;
      assert z == q * DAYS_PER_ERA + r && 0 <= r < DAYS_PER_ERA;
      assert (DAYS_PER_ERA - 1) - z == (-q) * DAYS_PER_ERA + (DAYS_PER_ERA - 1 - r);
      assert ((DAYS_PER_ERA - 1) - z) / DAYS_PER_ERA == -q;
    }
  }

  /** A quotient is pinned down by the multiple of the divisor it brackets. */
  lemma DivUnique(n: int, dv: int, q: int)
    requires 0 < dv && dv * q <= n < dv * q + dv
    ensures n / dv == q
  {
    DivModUnique(n, dv, q, n - dv * q);
  }

  /** On days of era the source's truncating quotients are the floor ones. */
  lemma TruncatingYearOfEra(doe: int)
    requires 0 <= doe
    ensures YearOfEra(doe) == Quot(doe - Quot(doe, 1460) + Quot(doe, 36_524) - Quot(doe, 146_096), 365)
  {
    assert doe - doe / 1460 + doe / 36_524 - doe / 146_096 >= 0 by {
      assert doe / 1460 <= doe / 365;
    }
  }

  /** A year of era split into centuries, four-year cycles and years. */
  lemma YearOfEraDigits(yoe: int) returns (a: int, b: int, e: int)
    requires 0 <= yoe <= 399
    ensures yoe == 100 * a + 4 * b + e && 0 <= a <= 3 && 0 <= b <= 24 && 0 <= e <= 3
    ensures yoe / 4 == 25 * a + b && yoe / 100 == a
    ensures DaysBeforeYearOfEra(yoe) == 36_524 * a + 1461 * b + 365 * e
    ensures IsLeapYear(yoe + 1) ==> e == 3 && (b < 24 || a == 3)
  {
    a, b, e := yoe / 100, (yoe % 100) / 4, yoe % 4;
    DivModUnique(yoe, 4, 25 * a + b, e);
  }

  /** The quotients the source takes of a day of era, except the era's last day. */
  lemma EraDayQuotients(doe: int, a: int, b: int, e: int, k: int)
    requires 0 <= a <= 3 && 0 <= b <= 24 && 0 <= e <= 3 && 0 <= k <= 365
    requires k == 365 ==> e == 3 && b < 24
    requires doe == 36_524 * a + 1461 * b + 365 * e + k
    ensures (doe - doe / 1460 + doe / 36_524 - doe / 146_096) / 365 == 100 * a + 4 * b + e
  {
    var rem := 24 * a + b + 365 * e + k;
    var step := if rem >= 1460 then 1 else 0;
    assert 0 <= rem - 1460 * step < 1460;
    assert 0 <= k - step <= 364;
    assert doe / 1460 == 25 * a + b + step by { DivUnique(doe, 1460, 25 * a + b + step); }
    assert 1461 * b + 365 * e + k < 36_524 by { if k == 365 { assert b <= 23; } }
    assert doe / 36_524 == a by { DivUnique(doe, 36_524, a); }
    assert doe / 146_096 == 0 by { DivUnique(doe, 146_096, 0); }
    var n := doe - doe / 1460 + doe / 36_524 - doe / 146_096;
    assert n == 365 * (100 * a + 4 * b + e) + (k - step);
    DivUnique(n, 365, 100 * a + 4 * b + e);
  }

  /** The quotients the source takes of the era's last day, 146 096. */
  lemma LastEraDayQuotients()
    ensures var doe := 146_096;
            (doe - doe / 1460 + doe / 36_524 - doe / 146_096) / 365 == 399
  {
  }

  /** Year `yoe` of an era and day `k` of it are recovered from the day of era. */
  lemma YearOfEraInverse(yoe: int, k: int)
    requires 0 <= yoe <= 399 && 0 <= k < DaysInYearOfEra(yoe)
    ensures 0 <= DaysBeforeYearOfEra(yoe) + k <= 146_096
    ensures YearOfEra(DaysBeforeYearOfEra(yoe) + k) == yoe
    ensures DayOfYear(DaysBeforeYearOfEra(yoe) + k, yoe) == k
  {
    var a, b, e := YearOfEraDigits(yoe);
    var doe := DaysBeforeYearOfEra(yoe) + k;
    if doe == 146_096 {
      assert yoe == 399;
      LastEraDayQuotients();
    } else {
      EraDayQuotients(doe, a, b, e, k);
    }
  }

  /** Every day of an era falls in one of its years, at a day the year has. */
  lemma YearOfEraBounds(doe: int)
    requires 0 <= doe <= 146_096
    ensures 0 <= YearOfEra(doe) <= 399
    ensures 0 <= DayOfYear(doe, YearOfEra(doe)) < DaysInYearOfEra(YearOfEra(doe))
    ensures 0 <= DayOfYear(doe, YearOfEra(doe)) <= 365
  {
    var a, b, e, k := EraDayDigits(doe);
    var yoe := 100 * a + 4 * b + e;
    assert yoe / 4 == 25 * a + b && yoe / 100 == a by {
      DivModUnique(yoe, 4, 25 * a + b, e);
      DivModUnique(yoe, 100, a, 4 * b + e);
    }
    assert doe == DaysBeforeYearOfEra(yoe) + k;
    if k == 365 {
      LeapAtCycleEnd(a, b);
    }
    YearOfEraInverse(yoe, k);
  }

  /** A day of era written in centuries, four-year cycles, years and days,
      the way the year-of-era formula reads it. */
  lemma EraDayDigits(doe: int) returns (a: int, b: int, e: int, k: int)
    requires 0 <= doe <= 146_096
    ensures 0 <= a <= 3 && 0 <= b <= 24 && 0 <= e <= 3 && 0 <= k <= 365
    ensures doe == 36_524 * a + 1461 * b + 365 * e + k
    ensures k == 365 ==> e == 3 && (b < 24 || a == 3)
  {
    a := if doe == 146_096 then 3 else doe / 36_524;
    var r1 := doe - 36_524 * a;
    b := if r1 == 36_524 then 24 else r1 / 1461;
    var r2 := r1 - 1461 * b;
    e := if r2 == 1460 then 3 else r2 / 365;
    k := r2 - 365 * e;
  }

  /** The last year of a four-year cycle is a leap year, unless the cycle
      closes a century other than the era's last. */
  lemma LeapAtCycleEnd(a: int, b: int)
    requires 0 <= a <= 3 && 0 <= b <= 24 && (b < 24 || a == 3)
    ensures IsLeapYear(100 * a + 4 * b + 4)
  {
    var y := 100 * a + 4 * b + 4;
    DivModUnique(y, 4, 25 * a + b + 1, 0);
    if b < 24 {
      DivModUnique(y, 100, a, 4 * b + 4);
    }
  }

  /** The March-based month of a day of the year is the one whose span holds it. */
  lemma MarchMonthInverse(mp: int, doy: int)
    requires 0 <= mp <= 11
    requires MarchMonthStart(mp) <= doy < MarchMonthStart(mp + 1)
    ensures MarchMonth(doy) == mp
  {
  }

  /** Months of the reference calendar, counted from March instead of January. */
  lemma MonthsFromMarch(y: int, m: int, d: int)
    requires ValidDate(y, m, d)
    ensures var mp := if m >= 3 then m - 3 else m + 9;
            && DaysBeforeMonth(y, m)
               == MarchMonthStart(mp) + (if m >= 3 then 59 + (if IsLeapYear(y) then 1 else 0) else -306)
            && MarchMonthStart(mp) <= MarchMonthStart(mp) + (d - 1) < MarchMonthStart(mp + 1)
            && MarchMonthStart(mp) + (d - 1) < (if m >= 3 then 365 else 365 + (if IsLeapYear(y) then 1 else 0))
  {
  }

  /** Whole eras of 146 097 days, then the years of the last one. */
  lemma YearsFromMarch(yp: int)
    ensures DaysBeforeYear(yp + 1) == (yp / 400) * DAYS_PER_ERA + DaysBeforeYearOfEra(yp % 400)
  {
    var era := yp / 400;
    var yoe := yp % 400;
    assert yp == 400 * era + yoe && 0 <= yoe < 400;
    assert yp / 4 == 100 * era + yoe / 4;
    assert yp / 100 == 4 * era + yoe / 100;
  }

  /** Consecutive years of an era: each adds its own length. */
  lemma YearOfEraStep(r: int)
    requires 0 <= r < 399
    ensures DaysBeforeYearOfEra(r + 1) == DaysBeforeYearOfEra(r) + DaysInYearOfEra(r)
  {
    if r % 4 == 3 {
      DivModUnique(r + 1, 4, r / 4 + 1, 0);
    } else {
      DivModUnique(r + 1, 4, r / 4, r % 4 + 1);
    }
    if r % 100 == 99 {
      DivModUnique(r + 1, 100, r / 100 + 1, 0);
    } else {
      DivModUnique(r + 1, 100, r / 100, r % 100 + 1);
    }
    DivModUnique(r + 1, 400, 0, r + 1);
  }

  /** A civil year adds 366 days when it is a leap year and 365 otherwise. */
  lemma DaysBeforeNextYear(y: int)
    ensures DaysBeforeYear(y + 1) == DaysBeforeYear(y) + (if IsLeapYear(y) then 366 else 365)
  {
    var q, r := (y - 1) / 400, (y - 1) % 400;
    YearsFromMarch(y - 1);
    YearsFromMarch(y);
    if r == 399 {
      DivModUnique(y, 400, q + 1, 0);
      DivModUnique(y, 4, 100 * (q + 1), 0);
      assert DaysBeforeYearOfEra(399) == 145_731;
    } else {
      DivModUnique(y, 400, q, r + 1);
      YearOfEraStep(r);
      LeapYearShift(r + 1, q);
    }
  }

  /** Leap years repeat every 400 years. */
  lemma LeapYearShift(y: int, era: int)
    ensures IsLeapYear(y + 400 * era) == IsLeapYear(y)
  {
    DivModUnique(y + 400 * era, 4, y / 4 + 100 * era, y % 4);
    DivModUnique(y + 400 * era, 100, y / 100 + 4 * era, y % 100);
    DivModUnique(y + 400 * era, 400, y / 400 + era, y % 400);
  }

  /** Day number of a date in March..December, in era terms. */
  lemma EpochDayFromMarch(y: int, m: int, d: int)
    requires ValidDate(y, m, d) && m >= 3
    ensures EpochDay(y, m, d) + EPOCH_SHIFT
            == DaysBeforeYear(y + 1) + MarchMonthStart(m - 3) + (d - 1)
  {
    assert DaysBeforeYear(1970) == 719_162;
    MonthsFromMarch(y, m, d);
    DaysBeforeNextYear(y);
  }

  /** Day number of a date in January or February, in era terms: it belongs to
      the March-based year that started in the previous civil year. */
  lemma EpochDayBeforeMarch(y: int, m: int, d: int)
    requires ValidDate(y, m, d) && m <= 2
    ensures EpochDay(y, m, d) + EPOCH_SHIFT
            == DaysBeforeYear(y) + MarchMonthStart(m + 9) + (d - 1)
  {
    assert DaysBeforeYear(1970) == 719_162;
    MonthsFromMarch(y, m, d);
  }

  /** The reference day count, rewritten in the era, year-of-era, March-based
      month and day-of-year terms the transform works with. */
  lemma EpochDayInEraTerms(y: int, m: int, d: int) returns (era: int, yoe: int, mp: int, doy: int)
    requires ValidDate(y, m, d)
    ensures 0 <= yoe <= 399 && 0 <= mp <= 11
    ensures MarchMonthStart(mp) <= doy < MarchMonthStart(mp + 1)
    ensures doy < DaysInYearOfEra(yoe)
    ensures EpochDay(y, m, d) + EPOCH_SHIFT == era * DAYS_PER_ERA + DaysBeforeYearOfEra(yoe) + doy
    ensures yoe + era * 400 + (if mp >= 10 then 1 else 0) == y
    ensures (if mp < 10 then mp + 3 else mp - 9) == m
  {
    var yp := if m <= 2 then y - 1 else y;
    era, yoe := yp / 400, yp % 400;
    mp := if m >= 3 then m - 3 else m + 9;
    doy := MarchMonthStart(mp) + (d - 1);
    assert yp == 400 * era + yoe && 0 <= yoe <= 399;
    MonthsFromMarch(y, m, d);
    assert DaysBeforeYear(yp + 1) == era * DAYS_PER_ERA + DaysBeforeYearOfEra(yoe) by {
      YearsFromMarch(yp);
    }
    assert IsLeapYear(yoe + 1) == IsLeapYear(yp + 1) by {
      LeapYearShift(yoe + 1, era);
    }
    if m >= 3 {
      EpochDayFromMarch(y, m, d);
    } else {
      EpochDayBeforeMarch(y, m, d);
    }
  }

  // ---------------------------------------------------------------------
  // What the transform computes.
  // ---------------------------------------------------------------------

  /** Day numbers of dates whose year is within a billion of year 0 fit `i64`. */
  lemma EpochDayBounds(y: int, m: int, d: int)
    requires -1_000_000_000 <= y <= 1_000_000_000
    requires ValidDate(y, m, d)
    ensures -500_000_000_000 <= EpochDay(y, m, d) <= 500_000_000_000
  {
    var era, yoe, mp, doy := EpochDayInEraTerms(y, m, d);
    assert -2_500_001 <= era <= 2_500_000;
  }

  /** The second half of the transform, read from the year of era, day of
      year and March-based month it computes on the way. */
  lemma YearMonthInEraOfParts(era: int, doe: int, yoe: int, doy: int, mp: int)
    requires 0 <= doe <= 146_096 && 0 <= yoe && 0 <= doy && 0 <= mp <= 11
    requires YearOfEra(doe) == yoe && DayOfYear(doe, yoe) == doy && MarchMonth(doy) == mp
    ensures YearMonthInEra(era, doe)
            == (AsI32(yoe + era * 400 + (if mp >= 10 then 1 else 0)), if mp < 10 then mp + 3 else mp - 9)
  {
    var m := mp + (if mp < 10 then 3 else -9);
    assert m <= 2 <==> mp >= 10;
    var r := YearMonthInEra(era, doe);
    assert r.1 == m;
    assert r.0 == AsI32(yoe + era * 400 + (if m <= 2 then 1 else 0));
  }

  /** Within an era, the second half of the transform recovers the year of era
      and the March-based month of a day. */
  lemma YearMonthInEraOfDay(era: int, yoe: int, mp: int, doy: int)
    requires 0 <= yoe <= 399 && 0 <= mp <= 11
    requires MarchMonthStart(mp) <= doy < MarchMonthStart(mp + 1)
    requires doy < DaysInYearOfEra(yoe)
    ensures 0 <= DaysBeforeYearOfEra(yoe) + doy <= 146_096
    ensures YearMonthInEra(era, DaysBeforeYearOfEra(yoe) + doy)
            == (AsI32(yoe + era * 400 + (if mp >= 10 then 1 else 0)), if mp < 10 then mp + 3 else mp - 9)
  {
    YearOfEraInverse(yoe, doy);
    MarchMonthInverse(mp, doy);
    YearMonthInEraOfParts(era, DaysBeforeYearOfEra(yoe) + doy, yoe, doy, mp);
  }

  /** The transform's floor-rounded era and day of era, given any split of the
      shifted day number into whole eras and a remainder. */
  lemma YearMonthFromDaysOfEra(days: I64, era: int, doe: int)
    requires 0 <= doe < DAYS_PER_ERA && days + EPOCH_SHIFT == era * DAYS_PER_ERA + doe
    ensures YearMonthFromDays(days) == YearMonthInEra(era, doe)
  {
    var z := days + EPOCH_SHIFT;
    assert Era(z) == era by {
      EraIsFloor(z);
      DivModUnique(z, DAYS_PER_ERA, era, doe);
    }
  }

  /** The second half of the transform, applied to the terms of a date. */
  lemma YearMonthInEraOfDate(y: int, m: int, era: int, yoe: int, mp: int, doy: int)
    requires I32_MIN <= y <= I32_MAX
    requires 0 <= yoe <= 399 && 0 <= mp <= 11
    requires MarchMonthStart(mp) <= doy < MarchMonthStart(mp + 1)
    requires doy < DaysInYearOfEra(yoe)
    requires yoe + era * 400 + (if mp >= 10 then 1 else 0) == y
    requires (if mp < 10 then mp + 3 else mp - 9) == m
    ensures 0 <= DaysBeforeYearOfEra(yoe) + doy <= 146_096
    ensures YearMonthInEra(era, DaysBeforeYearOfEra(yoe) + doy) == (y, m)
  {
    YearMonthInEraOfDay(era, yoe, mp, doy);
    AsI32InRange(y);
  }

  /** The transform maps every date's day number back to that date's year and
      month: it inverts the proleptic Gregorian calendar. */
  lemma YearMonthOfEpochDay(y: int, m: int, d: int)
    requires -1_000_000_000 <= y <= 1_000_000_000
    requires ValidDate(y, m, d)
    ensures IsI64(EpochDay(y, m, d))
    ensures YearMonthFromDays(EpochDay(y, m, d)) == (y, m)
  {
    EpochDayBounds(y, m, d);
    var era, yoe, mp, doy := EpochDayInEraTerms(y, m, d);
    YearMonthInEraOfDate(y, m, era, yoe, mp, doy);
    YearMonthFromDaysOfEra(EpochDay(y, m, d), era, DaysBeforeYearOfEra(yoe) + doy);
  }

  /** The month index of any instant of a date is `year * 12 + month - 1`. */
  lemma MonthIndexOfDate(y: int, m: int, d: int, secs: int)
    requires -1_000_000_000 <= y <= 1_000_000_000
    requires ValidDate(y, m, d) && 0 <= secs < SECS_PER_DAY
    ensures IsI64(EpochDay(y, m, d) * SECS_PER_DAY + secs)
    ensures MonthIndexFromTs(EpochDay(y, m, d) * SECS_PER_DAY + secs) == y * 12 + (m - 1)
  {
    YearMonthOfEpochDay(y, m, d);
    EpochDayBounds(y, m, d);
    var days := EpochDay(y, m, d);
    assert (days * SECS_PER_DAY + secs) / SECS_PER_DAY == days;
  }

  /** 1970-01-01T00:00:00Z falls in month index 1970 * 12. */
  lemma MonthIndexAtEpoch()
    ensures MonthIndexFromTs(0) == 23_640
  {
    assert DaysBeforeMonth(1970, 1) == 0;
    assert EpochDay(1970, 1, 1) == 0;
    MonthIndexOfDate(1970, 1, 1, 0);
  }

  /** 1971-01-01T00:00:00Z (31 536 000 s) falls twelve months later. */
  lemma MonthIndexOneYearLater()
    ensures MonthIndexFromTs(31_536_000) == 23_652
  {
    assert DaysBeforeYear(1971) == 719_527 && DaysBeforeYear(1970) == 719_162;
    assert DaysBeforeMonth(1971, 1) == 0;
    assert EpochDay(1971, 1, 1) == 365;
    MonthIndexOfDate(1971, 1, 1, 0);
  }

  // ---------------------------------------------------------------------
  // The month index never runs backwards.
  // ---------------------------------------------------------------------

  /** The range of instants the monotonicity proof covers: about 273
      million years either side of the epoch. Their years fit `i32` with a
      wide margin, so the transform's cast is exact; the cast first wraps
      near 6.78·10^16 s. */
  const MONTH_INDEX_SAFE_SECS: int := 8_640_000_000_000_000

  /** March-based months of an era before the one holding day of era `doe`. */
  function MonthOfEra(doe: int): (r: int)
    requires 0 <= doe <= 146_096
    ensures 0 <= r <= 4799
  {
    YearOfEraBounds(doe);
    MarchMonthAtMost(DayOfYear(doe, YearOfEra(doe)));
    12 * YearOfEra(doe) + MarchMonth(DayOfYear(doe, YearOfEra(doe)))
  }

  lemma MarchMonthAtMost(doy: int)
    requires 0 <= doy <= 365
    ensures 0 <= MarchMonth(doy) <= 11
  {
    DivMonotone(5 * doy + 2, 1827, 153);
  }

  /** Each year of an era has at least 365 days. */
  lemma {:induction false} DaysBeforeYearOfEraGrows(a: int, b: int)
    requires 0 <= a <= b <= 399
    ensures DaysBeforeYearOfEra(a) + 365 * (b - a) <= DaysBeforeYearOfEra(b)
    decreases b - a
  {
    if a < b {
      DaysBeforeYearOfEraGrows(a, b - 1);
      YearOfEraStep(b - 1);
    }
  }

  /** A later day of an era never lies in an earlier year of it. */
  lemma YearOfEraMonotone(d1: int, d2: int)
    requires 0 <= d1 <= d2 <= 146_096
    ensures YearOfEra(d1) <= YearOfEra(d2)
  {
    var y1, y2 := YearOfEra(d1), YearOfEra(d2);
    YearOfEraBounds(d1);
    YearOfEraBounds(d2);
    if y2 < y1 {
      YearOfEraStep(y2);
      DaysBeforeYearOfEraGrows(y2 + 1, y1);
    }
  }

  /** A later day of an era never lies in an earlier month of it. */
  lemma MonthOfEraMonotone(d1: int, d2: int)
    requires 0 <= d1 <= d2 <= 146_096
    ensures MonthOfEra(d1) <= MonthOfEra(d2)
  {
    YearOfEraMonotone(d1, d2);
    var y1, y2 := YearOfEra(d1), YearOfEra(d2);
    YearOfEraBounds(d1);
    YearOfEraBounds(d2);
    var doy1, doy2 := DayOfYear(d1, y1), DayOfYear(d2, y2);
    MarchMonthAtMost(doy1);
    MarchMonthAtMost(doy2);
    if y1 == y2 {
      DivMonotone(5 * doy1 + 2, 5 * doy2 + 2, 153);
    }
  }

  /** For day numbers within 10^11 of the epoch the transform's
      `year * 12 + month - 1` counts the months of whole eras plus the
      months into the era. */
  lemma MonthIndexOfDays(days: I64) returns (era: int, doe: int)
    requires -100_000_000_000 <= days <= 100_000_000_000
    ensures era == (days + EPOCH_SHIFT) / DAYS_PER_ERA
    ensures 0 <= doe <= 146_096 && days + EPOCH_SHIFT == era * DAYS_PER_ERA + doe
    ensures var ym := YearMonthFromDays(days);
            ym.0 * 12 + (ym.1 - 1) == 4800 * era + MonthOfEra(doe) + 2
  {
    var z := days + EPOCH_SHIFT;
    era, doe := z / DAYS_PER_ERA, z % DAYS_PER_ERA;
    assert z == DAYS_PER_ERA * era + doe;
    assert -700_000 <= era <= 700_000 by {
      DivMonotone(-100_000_000_000, z, DAYS_PER_ERA);
      DivMonotone(z, 100_000_719_468, DAYS_PER_ERA);
    }
    YearMonthFromDaysOfEra(days, era, doe);
    MonthIndexInEra(era, doe);
  }

  /** The index `year * 12 + month - 1` of the second half of the transform,
      for eras whose years fit `i32`. */
  lemma MonthIndexInEra(era: int, doe: int)
    requires -700_000 <= era <= 700_000 && 0 <= doe <= 146_096
    ensures var ym := YearMonthInEra(era, doe);
            ym.0 * 12 + (ym.1 - 1) == 4800 * era + MonthOfEra(doe) + 2
  {
    var yoe := YearOfEra(doe);
    YearOfEraBounds(doe);
    var doy := DayOfYear(doe, yoe);
    var mp := MarchMonth(doy);
    MarchMonthAtMost(doy);
    YearMonthInEraOfParts(era, doe, yoe, doy, mp);
    var y := yoe + era * 400 + (if mp >= 10 then 1 else 0);
    AsI32InRange(y);
    assert MonthOfEra(doe) == 12 * yoe + mp;
  }

  /** `month_index_from_ts` never decreases as time moves forward, for
      instants within `MONTH_INDEX_SAFE_SECS` of the epoch. */
  lemma MonthIndexMonotone(ts1: I64, ts2: I64)
    requires -MONTH_INDEX_SAFE_SECS <= ts1 <= ts2 <= MONTH_INDEX_SAFE_SECS
    ensures MonthIndexFromTs(ts1) <= MonthIndexFromTs(ts2)
  {
    var d1, d2 := ts1 / SECS_PER_DAY, ts2 / SECS_PER_DAY;
    DivMonotone(ts1, ts2, SECS_PER_DAY);
    DivMonotone(-MONTH_INDEX_SAFE_SECS, ts1, SECS_PER_DAY);
    DivMonotone(ts2, MONTH_INDEX_SAFE_SECS, SECS_PER_DAY);
    var e1, o1 := MonthIndexOfDays(d1);
    var e2, o2 := MonthIndexOfDays(d2);
    DivMonotone(d1 + EPOCH_SHIFT, d2 + EPOCH_SHIFT, DAYS_PER_ERA);
    if e1 == e2 {
      MonthOfEraMonotone(o1, o2);
    }
  }
}
