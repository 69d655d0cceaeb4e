/** `claim_rp`: a user turns claimable RP into FORCA paid out of the ally's
    vault. Fee C is charged on the gross amount; tax D only on the part of
    the user's cumulative claim basis above the watermark it was last charged
    up to. Users below the Strong proof-of-personhood level may face a
    lifetime USD threshold (KYC) and, where the ally enforces it, the abuse
    guard. */
module Claim {
  import opened Ints
  import opened Errors
  import opened FixedPoint
  import opened State
  import opened Oracle
  import opened AbuseGuard
  import opened Ledger

  /** The caller's side of a claim: who claims, into which token account,
      out of which vault token account, and how much. */
  datatype ClaimRequest = ClaimRequest(user: Key, userAta: TokenAccount, vaultAta: TokenAccount, amount: U64)

  /** Fee C, tax D, what the user receives, and the new claim watermark. */
  datatype Fees = Fees(feeC: U64, taxD: U64, net: U64, newHwm: U64)

  /** Everything a successful claim writes, and its fees. */
  datatype ClaimResult = ClaimResult(ally: AllyAccount, ledger: UserLedger, guard: ClaimGuard,
                                     profile: PopProfile, fees: Fees)

  // ---------------------------------------------------------------------
  // Fees, in exact arithmetic.
  // ---------------------------------------------------------------------

  /** Fee C on the gross amount, rounded down. */
  function FeeOf(st: VaultState, amount: nat): nat
  {
    BpsOf(amount, st.feeCBps)
  }

  /** The cumulative claim basis after claiming `amount`: the previous basis
      plus the amount net of fee C. */
  function BasisAfter(st: VaultState, ledger: UserLedger, amount: nat): int
  {
    ledger.hwmClaimed + amount - FeeOf(st, amount)
  }

  /** Tax D on the excess of the new basis over the tax watermark. */
  function TaxOf(st: VaultState, ledger: UserLedger, amount: nat): nat
  {
    BpsOf(PosPart(BasisAfter(st, ledger, amount) - ledger.taxHwm), st.taxDBps)
  }

  /** The program's fee arithmetic: fee C is cast back with `as u64`, tax D
      must fit `u64`, fee and tax together must leave the user something,
      and the new watermark must fit `u64`. */
  function ClaimFees(st: VaultState, ledger: UserLedger, amount: U64): (r: Result<Fees>)
    ensures VaultInv(st) ==>
              (r.Ok? <==> && FeeOf(st, amount) + TaxOf(st, ledger, amount) < amount
                          && BasisAfter(st, ledger, amount) <= U64_MAX)
    ensures VaultInv(st) && r.Ok? ==>
              && r.value.feeC == FeeOf(st, amount)
              && r.value.taxD == TaxOf(st, ledger, amount)
              && r.value.net == amount - FeeOf(st, amount) - TaxOf(st, ledger, amount)
              && r.value.newHwm == BasisAfter(st, ledger, amount)
    ensures r.Ok? ==> 1 <= r.value.net <= amount
    ensures r.Err? ==> r.error == Overflow || r.error == AmountTooSmallAfterFee
    ensures VaultInv(st) && FeeOf(st, amount) + TaxOf(st, ledger, amount) <= U64_MAX
            && amount <= FeeOf(st, amount) + TaxOf(st, ledger, amount)
            ==> r == Err(AmountTooSmallAfterFee)
    ensures VaultInv(st) && FeeOf(st, amount) + TaxOf(st, ledger, amount) < amount
            && BasisAfter(st, ledger, amount) > U64_MAX
            ==> r == Err(Overflow)
  {
    var feeC := AsU64(BpsOf(amount, st.feeCBps));
    assert VaultInv(st) ==> feeC == FeeOf(st, amount) <= amount by {
      if VaultInv(st) { BpsShareCastExact(amount, st.feeCBps); }
    }
    if feeC > amount then Err(Overflow)
    else
      var basis := amount - feeC;
      var newHwm := ledger.hwmClaimed + basis;
      var excess := if newHwm > ledger.taxHwm then newHwm - ledger.taxHwm else 0;
      var taxD := BpsOf(excess, st.taxDBps);
      if taxD > U64_MAX then Err(Overflow)
      else if feeC + taxD > U64_MAX then Err(Overflow)
      else if amount <= feeC + taxD then Err(AmountTooSmallAfterFee)
      else if newHwm > U64_MAX then Err(Overflow)
      else Ok(Fees(feeC, taxD, basis - taxD, newHwm))
  }

  // ---------------------------------------------------------------------
  // The steps of the instruction.
  // ---------------------------------------------------------------------

  /** The token accounts of a claim: both hold FORCA, the vault account is
      the ally's, the receiving account is the user's own. */
  predicate ClaimAccountsOk(st: VaultState, ally: AllyAccount, q: ClaimRequest)
  {
    && q.userAta.mint == st.forcaMint && q.vaultAta.mint == st.forcaMint
    && q.userAta.owner == q.user && q.vaultAta.key == ally.vaultAta
  }

  /** The checks before any price is needed, in the program's order. Unlike
      conversion, a zero amount is reported before a pause. */
  function ClaimPreflight(st: VaultState, ally: AllyAccount, ledger: UserLedger, q: ClaimRequest)
    : (r: Result<()>)
    ensures r.Ok? <==> && q.amount > 0 && !st.paused && q.amount <= ledger.rpClaimableForca
                       && ClaimAccountsOk(st, ally, q)
                       && q.amount <= ally.balanceForca && q.amount <= ally.rpReserved
                       && ledger.totalClaimedForca + q.amount <= U64_MAX
    ensures q.amount == 0 ==> r == Err(ZeroAmount)
    ensures q.amount > 0 && st.paused ==> r == Err(Paused)
  {
    if q.amount == 0 then Err(ZeroAmount)
    else if st.paused then Err(Paused)
    else if ledger.rpClaimableForca < q.amount then Err(InsufficientRP)
    else if q.userAta.mint != st.forcaMint || q.vaultAta.mint != st.forcaMint then Err(InvalidMint)
    else if q.userAta.owner != q.user then Err(InvalidAuthority)
    else if q.vaultAta.key != ally.vaultAta then Err(InvalidVaultAta)
    else if ally.balanceForca < q.amount then Err(InsufficientVaultBalance)
    else if ally.rpReserved < q.amount then Err(InsufficientReservedBalance)
    else if ledger.totalClaimedForca + q.amount > U64_MAX then Err(Overflow)
    else Ok(())
  }

  /** A FORCA/USD rate is needed for users below Strong when the ally
      enforces proof of personhood or has a KYC threshold. */
  predicate NeedsRate(ally: AllyAccount, strong: bool)
  {
    !strong && (ally.popEnforced || ally.hardKycThresholdUsdE6 > 0)
  }

  /** The FORCA/USD rate of the claim: resolved and positive when needed,
      otherwise 0. */
  function ClaimRate(st: VaultState, ally: AllyAccount, acc: OracleAccounts, strong: bool, now: I64)
    : (r: Result<U64>)
    ensures !NeedsRate(ally, strong) ==> r == Ok(0)
    ensures NeedsRate(ally, strong) ==>
              (r.Ok? <==> ResolveForcaUsdE6(st, acc, now).Ok? && ResolveForcaUsdE6(st, acc, now).value > 0)
    ensures NeedsRate(ally, strong) && r.Ok? ==> r == ResolveForcaUsdE6(st, acc, now)
    ensures NeedsRate(ally, strong) && ResolveForcaUsdE6(st, acc, now) == Ok(0) ==> r == Err(OracleParseFailed)
    ensures r.Err? ==> PriceError(r.error)
  {
    if NeedsRate(ally, strong) then
      var rate :- ResolveForcaUsdE6(st, acc, now);
      if rate == 0 then Err(OracleParseFailed) else Ok(rate)
    else Ok(0)
  }

  /** The KYC threshold applies to users below Strong when it is set. */
  predicate KycApplies(ally: AllyAccount, strong: bool)
  {
    !strong && ally.hardKycThresholdUsdE6 > 0
  }

  /** The lifetime check: the USD value of everything the user will have
      claimed under the ally must not exceed the threshold. */
  function KycCheck(ally: AllyAccount, strong: bool, newTotal: U64, rate: U64): (r: Result<()>)
    ensures r.Ok? <==> KycApplies(ally, strong) ==> UsdValueE6(newTotal, rate) <= ally.hardKycThresholdUsdE6
    ensures r.Err? ==> r.error == (if UsdValueE6(newTotal, rate) > U64_MAX then Overflow else KycRequired)
  {
    if KycApplies(ally, strong) then
      var usd := UsdValueE6(newTotal, rate);
      if usd > U64_MAX then Err(Overflow)
      else if usd > ally.hardKycThresholdUsdE6 then Err(KycRequired)
      else Ok(())
    else Ok(())
  }

  /** The guard applies to users below Strong when the ally enforces proof of
      personhood. */
  predicate GuardApplies(ally: AllyAccount, strong: bool)
  {
    ally.popEnforced && !strong
  }

  /** The guard step: the guard's admission when it applies; otherwise the
      guard as it was, with no month count to bump. */
  function ClaimAdmission(g: ClaimGuard, ally: AllyAccount, user: Key, amount: U64, rate: U64,
                          strong: bool, now: I64): (r: Result<Admission>)
    ensures GuardApplies(ally, strong) ==> r == GuardAdmit(g, ally, user, amount, rate, now)
    ensures !GuardApplies(ally, strong) ==> r == Ok(Admission(g, false))
  {
    if GuardApplies(ally, strong) then GuardAdmit(g, ally, user, amount, rate, now)
    else Ok(Admission(g, false))
  }

  /** The writes once the fees are known: the ledger moves its watermarks to
      the new basis, the guard's month count grows if the guard asked for
      it, and the ally releases the reserve and pays the net out of custody.
      The token transfer of `net` FORCA is not modelled. */
  function Settle(ally: AllyAccount, ledger: UserLedger, admission: Admission, profile: PopProfile,
                  fees: Fees, amount: U64, now: I64): (r: Result<ClaimResult>)
    requires amount <= ledger.rpClaimableForca && amount <= ally.rpReserved && fees.net <= amount
    requires amount <= ally.balanceForca && ledger.totalClaimedForca + amount <= U64_MAX
    requires admission.bumpMonthClaims ==> admission.guard.monthClaims < U16_MAX
    ensures r.Ok? <==> ally.rpReserved - amount <= ally.balanceForca - fees.net
    ensures r.Ok? ==>
              && r.value.ally == ally.(rpReserved := ally.rpReserved - amount,
                                       balanceForca := ally.balanceForca - fees.net)
              && r.value.ledger == ledger.(rpClaimableForca := ledger.rpClaimableForca - amount,
                                           hwmClaimed := fees.newHwm, taxHwm := fees.newHwm,
                                           totalClaimedForca := ledger.totalClaimedForca + amount,
                                           updatedTs := now)
              && r.value.guard.(monthClaims := admission.guard.monthClaims) == admission.guard
              && r.value.guard.monthClaims
                 == admission.guard.monthClaims + (if admission.bumpMonthClaims then 1 else 0)
              && r.value.profile == profile && r.value.fees == fees
    ensures r.Err? ==> r.error == InsufficientUnreservedBalance
  {
    var ledger' := ledger.(rpClaimableForca := ledger.rpClaimableForca - amount,
                           hwmClaimed := fees.newHwm, taxHwm := fees.newHwm,
                           totalClaimedForca := ledger.totalClaimedForca + amount, updatedTs := now);
    var monthClaims := admission.guard.monthClaims + (if admission.bumpMonthClaims then 1 else 0);
    if monthClaims > U16_MAX then Err(Overflow)
    else
      var reserved := ally.rpReserved - amount;
      var balance := ally.balanceForca - fees.net;
      if balance < reserved then Err(InsufficientUnreservedBalance)
      else
        Ok(ClaimResult(ally.(rpReserved := reserved, balanceForca := balance), ledger',
                       admission.guard.(monthClaims := monthClaims), profile, fees))
  }

  /** `claim_rp` at time `now`. */
  function ClaimRp(st: VaultState, ally: AllyAccount, ledger: UserLedger, guard: ClaimGuard,
                   profile: PopProfile, acc: OracleAccounts, q: ClaimRequest, now: I64)
    : (r: Result<ClaimResult>)
    ensures q.amount == 0 ==> r == Err(ZeroAmount)
    ensures q.amount > 0 && st.paused ==> r == Err(Paused)
    ensures r.Ok? ==> ClaimPreflight(st, ally, ledger, q).Ok?
    ensures r.Ok? ==> 1 <= r.value.fees.net <= q.amount
    ensures r.Ok? ==> r.value.ledger.hwmClaimed == r.value.ledger.taxHwm
    ensures r.Ok? ==> r.value.ally.rpReserved <= r.value.ally.balanceForca
    ensures AllyInv(ally) ==> r.Err? ==> r.error != InsufficientUnreservedBalance
  {
    var _ :- ClaimPreflight(st, ally, ledger, q);
    var profile' := ProfileFor(profile, q.user);
    var strong := profile'.level == LEVEL_STRONG;
    var rate :- ClaimRate(st, ally, acc, strong, now);
    var _ :- KycCheck(ally, strong, ledger.totalClaimedForca + q.amount, rate);
    var admission :- ClaimAdmission(guard, ally, q.user, q.amount, rate, strong, now);
    MonthBumpFits(guard, ally, q.user, q.amount, rate, strong, now);
    Payout(st, ally, ledger, admission, profile', q.amount, now)
  }

  /** The last two steps of a claim that passed its checks: the fees, then
      the writes. */
  function Payout(st: VaultState, ally: AllyAccount, ledger: UserLedger, admission: Admission,
                  profile: PopProfile, amount: U64, now: I64): (r: Result<ClaimResult>)
    requires amount <= ledger.rpClaimableForca && amount <= ally.rpReserved
    requires amount <= ally.balanceForca && ledger.totalClaimedForca + amount <= U64_MAX
    requires admission.bumpMonthClaims ==> admission.guard.monthClaims < U16_MAX
    ensures ClaimFees(st, ledger, amount).Err? ==> r == Err(ClaimFees(st, ledger, amount).error)
    ensures ClaimFees(st, ledger, amount).Ok?
            ==> r == Settle(ally, ledger, admission, profile, ClaimFees(st, ledger, amount).value, amount, now)
    ensures r.Ok? ==> 1 <= r.value.fees.net <= amount
    ensures r.Ok? ==> r.value.ledger.hwmClaimed == r.value.ledger.taxHwm
    ensures r.Ok? ==> r.value.ally.rpReserved <= r.value.ally.balanceForca
    ensures AllyInv(ally) ==> r.Err? ==> r.error != InsufficientUnreservedBalance
  {
    var fees :- ClaimFees(st, ledger, amount);
    Settle(ally, ledger, admission, profile, fees, amount, now)
  }

  /** The month count the guard asks to bump is below the ally's monthly
      limit, a `u16`, so the program's checked `+ 1` never overflows. */
  lemma MonthBumpFits(g: ClaimGuard, ally: AllyAccount, user: Key, amount: U64, rate: U64,
                      strong: bool, now: I64)
    ensures var r := ClaimAdmission(g, ally, user, amount, rate, strong, now);
            r.Ok? && r.value.bumpMonthClaims ==> r.value.guard.monthClaims < ally.monthlyClaimLimit <= U16_MAX
  {
    if GuardApplies(ally, strong) {
      var h := GuardAt(g, user, ally.nftMint, now);
      var r := GuardAdmit(g, ally, user, amount, rate, now);
      if r.Ok? && r.value.bumpMonthClaims {
        assert r.value.guard.monthClaims == h.monthClaims;
      }
    }
  }

  // ---------------------------------------------------------------------
  // Properties.
  // ---------------------------------------------------------------------

  /** What a claim does for a vault and an ally that keep their invariants:
      it succeeds exactly when the checks, the rate, the KYC threshold and the
      guard pass and the fees leave the user something; then fee C and tax D
      are the exact-arithmetic shares, both watermarks move to the new basis,
      the reserve drops by the amount and custody by the net, the guard
      records the claim when it applies, and the ally keeps its invariant. */
  lemma ClaimOutcome(st: VaultState, ally: AllyAccount, ledger: UserLedger, guard: ClaimGuard,
                     profile: PopProfile, acc: OracleAccounts, q: ClaimRequest, now: I64)
    requires VaultInv(st) && AllyInv(ally)
    ensures var r := ClaimRp(st, ally, ledger, guard, profile, acc, q, now);
            var strong := ProfileFor(profile, q.user).level == LEVEL_STRONG;
            var rate := ClaimRate(st, ally, acc, strong, now);
            r.Ok? <==> && ClaimPreflight(st, ally, ledger, q).Ok?
                       && rate.Ok?
                       && KycCheck(ally, strong, ledger.totalClaimedForca + q.amount, rate.value).Ok?
                       && ClaimAdmission(guard, ally, q.user, q.amount, rate.value, strong, now).Ok?
                       && FeeOf(st, q.amount) + TaxOf(st, ledger, q.amount) < q.amount
                       && BasisAfter(st, ledger, q.amount) <= U64_MAX
    ensures var r := ClaimRp(st, ally, ledger, guard, profile, acc, q, now);
            var strong := ProfileFor(profile, q.user).level == LEVEL_STRONG;
            var fee := FeeOf(st, q.amount);
            var tax := TaxOf(st, ledger, q.amount);
            var hwm := BasisAfter(st, ledger, q.amount);
            r.Ok? ==>
              && r.value.fees == Fees(fee, tax, q.amount - fee - tax, hwm)
              && r.value.ally == ally.(rpReserved := ally.rpReserved - q.amount,
                                       balanceForca := ally.balanceForca - (q.amount - fee - tax))
              && r.value.ledger == ledger.(rpClaimableForca := ledger.rpClaimableForca - q.amount,
                                           hwmClaimed := hwm, taxHwm := hwm,
                                           totalClaimedForca := ledger.totalClaimedForca + q.amount,
                                           updatedTs := now)
              && r.value.profile == ProfileFor(profile, q.user)
              && (!GuardApplies(ally, strong) ==> r.value.guard == guard)
              && AllyInv(r.value.ally)
    ensures var r := ClaimRp(st, ally, ledger, guard, profile, acc, q, now);
            var strong := ProfileFor(profile, q.user).level == LEVEL_STRONG;
            var h := GuardAt(guard, q.user, ally.nftMint, now);
            r.Ok? && GuardApplies(ally, strong) ==>
              r.value.guard == h.(usedUsdE6 := h.usedUsdE6
                                                + UsdValueE6(q.amount, ClaimRate(st, ally, acc, strong, now).value),
                                  lastClaimTs := now,
                                  monthClaims := h.monthClaims + (if ally.monthlyClaimLimit > 0 then 1 else 0))
  {
    var r := ClaimRp(st, ally, ledger, guard, profile, acc, q, now);
    var profile' := ProfileFor(profile, q.user);
    var strong := profile'.level == LEVEL_STRONG;
    var rate := ClaimRate(st, ally, acc, strong, now);
    if && ClaimPreflight(st, ally, ledger, q).Ok? && rate.Ok?
       && KycCheck(ally, strong, ledger.totalClaimedForca + q.amount, rate.value).Ok?
       && ClaimAdmission(guard, ally, q.user, q.amount, rate.value, strong, now).Ok?
    {
      var admission := ClaimAdmission(guard, ally, q.user, q.amount, rate.value, strong, now).value;
      MonthBumpFits(guard, ally, q.user, q.amount, rate.value, strong, now);
      assert r == Payout(st, ally, ledger, admission, profile', q.amount, now);
    }
  }

  /** With fee C 1% and tax D 5%, a first claim of 1 FORCA (10^6 base
      units) pays 10 000 in fee and 49 500 in tax, and the user receives
      940 500. */
  lemma ClaimWorkedExample(st: VaultState, ledger: UserLedger)
    requires st.feeCBps == 100 && st.taxDBps == 500
    requires ledger.hwmClaimed == 0 && ledger.taxHwm == 0
    ensures ClaimFees(st, ledger, 1_000_000) == Ok(Fees(10_000, 49_500, 940_500, 990_000))
  {
    assert FeeOf(st, 1_000_000) == 10_000 by {
      DivModUnique(1_000_000 * 100, BPS_DENOMINATOR, 10_000, 0);
    }
    assert TaxOf(st, ledger, 1_000_000) == 49_500 by {
      DivModUnique(990_000 * 500, BPS_DENOMINATOR, 49_500, 0);
    }
  }

  /** After a claim the two watermarks agree, so the next claim is taxed on
      exactly its own basis: tax D is never charged twice on the same FORCA
      and never skipped. */
  lemma NextClaimTaxesOwnBasis(st: VaultState, ally: AllyAccount, ledger: UserLedger, guard: ClaimGuard,
                               profile: PopProfile, acc: OracleAccounts, q: ClaimRequest, now: I64,
                               amount2: U64)
    requires ClaimRp(st, ally, ledger, guard, profile, acc, q, now).Ok?
    ensures var after := ClaimRp(st, ally, ledger, guard, profile, acc, q, now).value.ledger;
            TaxOf(st, after, amount2) == BpsOf(PosPart(amount2 - FeeOf(st, amount2)), st.taxDBps)
  {
    var after := ClaimRp(st, ally, ledger, guard, profile, acc, q, now).value.ledger;
    assert BasisAfter(st, after, amount2) - after.taxHwm == amount2 - FeeOf(st, amount2);
  }

  /** A claim whose new basis stays at or below the tax watermark (as after a
      conversion lowered the claim watermark) pays no tax, and it moves the
      tax watermark down to the new basis. */
  lemma ClaimAbsorbsWatermarkGap(st: VaultState, ally: AllyAccount, ledger: UserLedger, guard: ClaimGuard,
                                 profile: PopProfile, acc: OracleAccounts, q: ClaimRequest, now: I64)
    requires VaultInv(st) && AllyInv(ally)
    requires ClaimRp(st, ally, ledger, guard, profile, acc, q, now).Ok?
    requires BasisAfter(st, ledger, q.amount) <= ledger.taxHwm
    ensures var r := ClaimRp(st, ally, ledger, guard, profile, acc, q, now).value;
            && r.fees.taxD == 0
            && r.fees.net == q.amount - FeeOf(st, q.amount)
            && r.ledger.taxHwm == BasisAfter(st, ledger, q.amount) <= ledger.taxHwm
  {
    ClaimOutcome(st, ally, ledger, guard, profile, acc, q, now);
  }

  /** A user below Strong whose lifetime claims would be worth more than the
      ally's KYC threshold at the resolved rate is refused. */
  lemma KycBlocksClaim(st: VaultState, ally: AllyAccount, ledger: UserLedger, guard: ClaimGuard,
                       profile: PopProfile, acc: OracleAccounts, q: ClaimRequest, now: I64)
    requires ClaimPreflight(st, ally, ledger, q).Ok?
    requires ProfileFor(profile, q.user).level != LEVEL_STRONG && ally.hardKycThresholdUsdE6 > 0
    requires ResolveForcaUsdE6(st, acc, now).Ok?
    requires UsdValueE6(ledger.totalClaimedForca + q.amount, ResolveForcaUsdE6(st, acc, now).value)
             > ally.hardKycThresholdUsdE6
    ensures ClaimRp(st, ally, ledger, guard, profile, acc, q, now).Err?
  {
    var rate := ClaimRate(st, ally, acc, false, now);
    if rate.Ok? {
      assert rate == ResolveForcaUsdE6(st, acc, now);
      assert KycCheck(ally, false, ledger.totalClaimedForca + q.amount, rate.value).Err?;
    }
  }

  /** A Strong user's claim neither consults the oracle accounts nor touches
      the guard. */
  lemma StrongClaimBypassesGuard(st: VaultState, ally: AllyAccount, ledger: UserLedger, guard: ClaimGuard,
                                 profile: PopProfile, acc1: OracleAccounts, acc2: OracleAccounts,
                                 q: ClaimRequest, now: I64)
    requires ProfileFor(profile, q.user).level == LEVEL_STRONG
    ensures ClaimRp(st, ally, ledger, guard, profile, acc1, q, now)
            == ClaimRp(st, ally, ledger, guard, profile, acc2, q, now)
    ensures var r := ClaimRp(st, ally, ledger, guard, profile, acc1, q, now);
            r.Ok? ==> r.value.guard == guard
  {
  }
}
