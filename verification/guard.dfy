/** The per-(user, ally) abuse guard `claim_rp` runs for users below the
    Strong proof-of-personhood level when the ally enforces it: a monthly
    claim count, a daily USD cap and a cooldown between claims. */
module AbuseGuard {
  import opened Ints
  import opened Errors
  import opened FixedPoint
  import opened Calendar
  import opened State

  /** The guard's day bucket: `now / 86400` with Rust's truncating `/`, unlike
      the month, which rounds down. */
  function DayBucket(now: I64): I64
  {
    Quot(now, SECS_PER_DAY)
  }

  /** A guard created on first use: zero counters, today's bucket, this month. */
  function InitGuard(g: ClaimGuard, user: Key, allyMint: Key, now: I64): ClaimGuard
  {
    if g.user == NO_KEY
    then ClaimGuard(user, allyMint, DayBucket(now), 0, 0, MonthIndexFromTs(now), 0)
    else g
  }

  /** A new calendar month starts a new claim count. */
  function RollMonth(g: ClaimGuard, now: I64): ClaimGuard
  {
    if g.monthIndex != MonthIndexFromTs(now)
    then g.(monthIndex := MonthIndexFromTs(now), monthClaims := 0)
    else g
  }

  /** A new day bucket starts a new USD total. */
  function RollDay(g: ClaimGuard, now: I64): ClaimGuard
  {
    if g.day != DayBucket(now) then g.(day := DayBucket(now), usedUsdE6 := 0) else g
  }

  /** The guard as the claim sees it at `now`: created on first use, its
      month count reset when the calendar month changed, its USD total reset
      when the day bucket changed. */
  function GuardAt(g: ClaimGuard, user: Key, allyMint: Key, now: I64): ClaimGuard
  {
    RollDay(RollMonth(InitGuard(g, user, allyMint, now), now), now)
  }

  /** The cooldown test: `(now - last_claim_ts) as u64 >= cooldown`. The
      difference is computed in `i64` and then reinterpreted, so a claim
      timestamp later than `now` reads as a huge elapsed time. */
  predicate CooldownElapsed(ally: AllyAccount, last: I64, now: I64)
  {
    ally.softCooldownSecs > 0 ==> AsU64(now - last) >= ally.softCooldownSecs
  }

  /** What the guard admits: the outcome of its checks, in the program's
      order, and on success the guard to store together with whether the
      month's claim count must grow once the claim completes. */
  datatype Admission = Admission(guard: ClaimGuard, bumpMonthClaims: bool)

  /** The guard steps of `claim_rp` for `amount` FORCA at `forcaUsdE6`. */
  function GuardAdmit(g: ClaimGuard, ally: AllyAccount, user: Key, amount: U64,
                      forcaUsdE6: U64, now: I64): (r: Result<Admission>)
    ensures var h := GuardAt(g, user, ally.nftMint, now);
            var usd := UsdValueE6(amount, forcaUsdE6);
            r.Ok? <==> && (ally.monthlyClaimLimit > 0 ==> h.monthClaims < ally.monthlyClaimLimit)
                       && h.usedUsdE6 + usd <= ally.softDailyCapUsdE6
                       && (ally.softCooldownSecs > 0 ==> IsI64(now - h.lastClaimTs))
                       && CooldownElapsed(ally, h.lastClaimTs, now)
    ensures var h := GuardAt(g, user, ally.nftMint, now);
            r.Ok? ==> && r.value.guard == h.(usedUsdE6 := h.usedUsdE6 + UsdValueE6(amount, forcaUsdE6),
                                              lastClaimTs := now)
                      && r.value.bumpMonthClaims == (ally.monthlyClaimLimit > 0)
    ensures var h := GuardAt(g, user, ally.nftMint, now);
            ally.monthlyClaimLimit > 0 && h.monthClaims >= ally.monthlyClaimLimit
            ==> r == Err(MonthlyClaimLimitExceeded)
    ensures var h := GuardAt(g, user, ally.nftMint, now);
            var usd := UsdValueE6(amount, forcaUsdE6);
            r.Err? && (ally.monthlyClaimLimit > 0 ==> h.monthClaims < ally.monthlyClaimLimit) ==>
              r.error == TodayError(h, ally, usd, now)
    ensures r.Err? ==> r.error in {MonthlyClaimLimitExceeded, Overflow, SoftDailyCapExceeded, CooldownNotElapsed}
  {
    var rolled := RollMonth(InitGuard(g, user, ally.nftMint, now), now);
    assert GuardAt(g, user, ally.nftMint, now) == RollDay(rolled, now);
    if ally.monthlyClaimLimit > 0 && rolled.monthClaims >= ally.monthlyClaimLimit then
      Err(MonthlyClaimLimitExceeded)
    else
      var admitted :- AdmitToday(rolled, ally, amount, forcaUsdE6, now);
      Ok(Admission(admitted, ally.monthlyClaimLimit > 0))
  }

  /** Which error the USD cap and cooldown checks give for a rolled guard
      `h`, in the program's order: a USD total beyond `u64`, then the daily
      cap, then an elapsed time beyond `i64`, then the cooldown. */
  function TodayError(h: ClaimGuard, ally: AllyAccount, usd: nat, now: I64): RvError
  {
    if h.usedUsdE6 + usd > U64_MAX then Overflow
    else if h.usedUsdE6 + usd > ally.softDailyCapUsdE6 then SoftDailyCapExceeded
    else if !IsI64(now - h.lastClaimTs) then Overflow
    else CooldownNotElapsed
  }

  /** The USD cap and cooldown half of the guard, after the month check. */
  function AdmitToday(g: ClaimGuard, ally: AllyAccount, amount: U64, forcaUsdE6: U64, now: I64)
    : (r: Result<ClaimGuard>)
    ensures var h := RollDay(g, now);
            var usd := UsdValueE6(amount, forcaUsdE6);
            r.Ok? <==> && h.usedUsdE6 + usd <= ally.softDailyCapUsdE6
                       && (ally.softCooldownSecs > 0 ==> IsI64(now - h.lastClaimTs))
                       && CooldownElapsed(ally, h.lastClaimTs, now)
    ensures var h := RollDay(g, now);
            r.Ok? ==> r.value == h.(usedUsdE6 := h.usedUsdE6 + UsdValueE6(amount, forcaUsdE6), lastClaimTs := now)
    ensures r.Err? ==> r.error == TodayError(RollDay(g, now), ally, UsdValueE6(amount, forcaUsdE6), now)
  {
    var usd := UsdValueE6(amount, forcaUsdE6);
    if usd > U64_MAX then Err(Overflow)
    else
      var g := RollDay(g, now);
      var newUsed := g.usedUsdE6 + usd;
      if newUsed > U64_MAX then Err(Overflow)
      else if newUsed > ally.softDailyCapUsdE6 then Err(SoftDailyCapExceeded)
      else if ally.softCooldownSecs > 0 && !IsI64(now - g.lastClaimTs) then Err(Overflow)
      else if ally.softCooldownSecs > 0 && AsU64(now - g.lastClaimTs) < ally.softCooldownSecs then
        Err(CooldownNotElapsed)
      else
        Ok(g.(usedUsdE6 := newUsed, lastClaimTs := now))
  }

  // ---------------------------------------------------------------------
  // Properties.
  // ---------------------------------------------------------------------

  /** The day bucket truncates toward zero while the month rounds down: the
      last second of 1969 shares bucket 0 with the first second of 1970 but
      falls in the previous calendar month. */
  lemma DayBucketTruncates()
    ensures DayBucket(-1) == DayBucket(0) == 0
    ensures MonthIndexFromTs(-1) == 23_639 && MonthIndexFromTs(0) == 23_640
  {
    assert EpochDay(1969, 12, 31) == -1 by {
      assert DaysBeforeYear(1969) == 718_797 && DaysBeforeYear(1970) == 719_162;
      assert DaysBeforeMonth(1969, 12) == 334;
    }
    MonthIndexOfDate(1969, 12, 31, 86_399);
    MonthIndexAtEpoch();
  }

  /** Bucket 0 is two days wide: every instant strictly between -86400 and
      86400 falls in it. */
  lemma DayBucketZeroSpan(now: I64)
    requires -SECS_PER_DAY < now < SECS_PER_DAY
    ensures DayBucket(now) == 0
  {
    if now < 0 {
      DivModUnique(-now, SECS_PER_DAY, 0, -now);
    } else {
      DivModUnique(now, SECS_PER_DAY, 0, now);
    }
  }

  /** A last claim time later than `now` passes any cooldown up to 2^63 s:
      the negative difference reads as a huge `u64`. */
  lemma CooldownPassesWhenClockGoesBack(ally: AllyAccount, last: I64, now: I64)
    requires now < last && IsI64(now - last)
    requires ally.softCooldownSecs <= I64_MAX + 1
    ensures CooldownElapsed(ally, last, now)
  {
    var d := now - last;
    assert AsU64(d) == d + U64_MAX + 1 by {
      DivModUnique(d, U64_MAX + 1, -1, d + U64_MAX + 1);
    }
  }

  /** Two claims admitted in one day bucket together stay within the
      ally's daily cap. */
  lemma DailyCapAcrossClaims(g: ClaimGuard, ally: AllyAccount, user: Key,
                             amount1: U64, amount2: U64, rate: U64, now1: I64, now2: I64)
    requires user != NO_KEY
    requires GuardAdmit(g, ally, user, amount1, rate, now1).Ok?
    requires GuardAdmit(GuardAdmit(g, ally, user, amount1, rate, now1).value.guard,
                        ally, user, amount2, rate, now2).Ok?
    requires DayBucket(now1) == DayBucket(now2)
    ensures UsdValueE6(amount1, rate) + UsdValueE6(amount2, rate) <= ally.softDailyCapUsdE6
  {
    var a1 := GuardAdmit(g, ally, user, amount1, rate, now1).value.guard;
    var h1 := GuardAt(g, user, ally.nftMint, now1);
    assert a1.usedUsdE6 == h1.usedUsdE6 + UsdValueE6(amount1, rate);
    assert a1.day == DayBucket(now1);
    var h2 := GuardAt(a1, user, ally.nftMint, now2);
    assert h2.usedUsdE6 == a1.usedUsdE6;
  }

  /** After an admitted claim, another claim before the cooldown has run
      out is refused. */
  lemma CooldownBlocksQuickRepeat(g: ClaimGuard, ally: AllyAccount, user: Key,
                                  amount1: U64, amount2: U64, rate: U64, now1: I64, now2: I64)
    requires user != NO_KEY
    requires GuardAdmit(g, ally, user, amount1, rate, now1).Ok?
    requires now1 <= now2 < now1 + ally.softCooldownSecs
    ensures GuardAdmit(GuardAdmit(g, ally, user, amount1, rate, now1).value.guard,
                       ally, user, amount2, rate, now2).Err?
  {
    var a1 := GuardAdmit(g, ally, user, amount1, rate, now1).value.guard;
    assert a1.user != NO_KEY && a1.lastClaimTs == now1;
    GuardAtKeepsClaimTime(a1, user, ally.nftMint, now2);
    CooldownPending(ally, now1, now2);
    PendingCooldownRefuses(a1, ally, user, amount2, rate, now2);
  }

  /** Less than the cooldown after the last claim, the cooldown has not
      elapsed. */
  lemma CooldownPending(ally: AllyAccount, last: I64, now: I64)
    requires last <= now < last + ally.softCooldownSecs
    ensures !CooldownElapsed(ally, last, now)
  {
    DivModUnique(now - last, U64_MAX + 1, 0, now - last);
  }

  /** A guard whose cooldown has not run out admits nothing. */
  lemma PendingCooldownRefuses(g: ClaimGuard, ally: AllyAccount, user: Key, amount: U64, rate: U64, now: I64)
    requires !CooldownElapsed(ally, GuardAt(g, user, ally.nftMint, now).lastClaimTs, now)
    ensures GuardAdmit(g, ally, user, amount, rate, now).Err?
  {
  }

  /** Rolling the month and the day never touches the last claim time. */
  lemma GuardAtKeepsClaimTime(g: ClaimGuard, user: Key, allyMint: Key, now: I64)
    requires g.user != NO_KEY
    ensures GuardAt(g, user, allyMint, now).lastClaimTs == g.lastClaimTs
  {
  }
}
