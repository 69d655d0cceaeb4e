/** `convert_to_scoped_pp`: a user pays FORCA to an ally and receives points
    (PP, micro-USD) on their ledger under that ally. The ally keeps margin B
    and, in Discount mode, hands part of the rest back by not taking it; in
    BonusPP mode the user gets extra points instead. The user's claim
    watermark drops by what actually left their wallet. */
module Convert {
  import opened Ints
  import opened Errors
  import opened FixedPoint
  import opened State
  import opened Oracle
  import opened Ledger

  /** The caller's side of a conversion: who converts, from which token
      account into which vault token account, how much, and the quotes. */
  datatype ConvertRequest = ConvertRequest(
    user: Key,
    userAta: TokenAccount,
    vaultAta: TokenAccount,
    amount: U64,
    solPriceUsdE6: U64,
    forcaPerSolE6: U64)

  /** How a conversion splits `amount`: the margin, the discount left with the
      user, the FORCA credited to the ally, the drop of the user's claim
      watermark and the benefit mode in force. */
  datatype Split = Split(margin: U64, discount: U64, toAlly: U64, hwmReduce: U64, mode: BenefitMode)

  // ---------------------------------------------------------------------
  // What a conversion promises, in exact arithmetic.
  // ---------------------------------------------------------------------

  /** The ally's benefit is a discount of a positive rate. */
  predicate DiscountActive(ally: AllyAccount)
  {
    ally.benefitBps > 0 && ally.benefitMode == BenefitModeCode(Discount)
  }

  /** The ally's benefit is bonus points at a positive rate. */
  predicate BonusActive(ally: AllyAccount)
  {
    ally.benefitBps > 0 && ally.benefitMode == BenefitModeCode(BonusPP)
  }

  /** Margin B of `amount`, rounded down. */
  function MarginOf(st: VaultState, amount: nat): nat
  {
    BpsOf(amount, st.marginBBps)
  }

  /** The discount: the benefit rate of what is left after the margin, in
      Discount mode only. */
  function DiscountOf(st: VaultState, ally: AllyAccount, amount: nat): nat
    requires st.marginBBps <= MAX_BPS
  {
    if DiscountActive(ally) then BpsOf(amount - MarginOf(st, amount), ally.benefitBps) else 0
  }

  /** Points bought: `amount * sol_usd / forca_per_sol`, rounded down. */
  function PointsOf(amount: nat, solPriceUsdE6: nat, forcaPerSolE6: nat): nat
    requires forcaPerSolE6 > 0
  {
    amount * solPriceUsdE6 / forcaPerSolE6
  }

  /** Extra points: the benefit rate of the points bought, in BonusPP mode only. */
  function BonusOf(ally: AllyAccount, points: nat): nat
  {
    if BonusActive(ally) then BpsOf(points, ally.benefitBps) else 0
  }

  // ---------------------------------------------------------------------
  // The program's arithmetic.
  // ---------------------------------------------------------------------

  /** The margin and benefit steps: margin and discount are computed in
      `u128` and cast back with `as u64`, the subtractions are checked. */
  function SplitConversion(st: VaultState, ally: AllyAccount, amount: U64): (r: Result<Split>)
    ensures VaultInv(st) && AllyInv(ally) ==> r.Ok?
    ensures VaultInv(st) && AllyInv(ally) ==>
              && r.value.margin == MarginOf(st, amount)
              && r.value.discount == DiscountOf(st, ally, amount)
              && r.value.toAlly == amount - DiscountOf(st, ally, amount)
              && r.value.hwmReduce == amount - DiscountOf(st, ally, amount)
              && (r.value.mode == BonusPP <==> BonusActive(ally))
    ensures r.Err? ==> r.error == Overflow || r.error == InvalidBenefitMode
  {
    var margin := AsU64(BpsOf(amount, st.marginBBps));
    if margin > amount then Err(Overflow)
    else
      assert VaultInv(st) ==> margin == MarginOf(st, amount) by {
        if VaultInv(st) { BpsShareCastExact(amount, st.marginBBps); }
      }
      if ally.benefitBps > 0 then
        var mode :- BenefitModeFromU8(ally.benefitMode);
        assert mode == Discount <==> DiscountActive(ally);
        assert mode == BonusPP <==> BonusActive(ally);
        ApplyBenefit(ally, mode, margin, amount)
      else
        WithMargin(margin, 0, amount - margin, amount, NoBenefit)
  }

  /** The benefit step on what is left after the margin: in Discount mode
      the user keeps the discount, which neither the ally nor the watermark
      counts; in the other modes nothing changes here. */
  function ApplyBenefit(ally: AllyAccount, mode: BenefitMode, margin: U64, amount: U64): (r: Result<Split>)
    requires margin <= amount
    ensures AllyInv(ally) ==>
              var discount := if mode == Discount then BpsOf(amount - margin, ally.benefitBps) else 0;
              r == Ok(Split(margin, discount, amount - discount, amount - discount, mode))
    ensures r.Err? ==> r.error == Overflow
  {
    var base := amount - margin;
    if mode == Discount then
      var discount := AsU64(BpsOf(base, ally.benefitBps));
      assert AllyInv(ally) ==> discount == BpsOf(base, ally.benefitBps) <= base by {
        if AllyInv(ally) { BpsShareCastExact(base, ally.benefitBps); }
      }
      if discount > amount || discount > base then Err(Overflow)
      else WithMargin(margin, discount, base - discount, amount - discount, mode)
    else
      WithMargin(margin, 0, base, amount, mode)
  }

  /** `total_to_ally = ally_receive + margin`, checked. */
  function WithMargin(margin: U64, discount: U64, receive: U64, reduce: U64, mode: BenefitMode)
    : (r: Result<Split>)
    ensures r.Ok? <==> receive + margin <= U64_MAX
    ensures r.Ok? ==> r.value == Split(margin, discount, receive + margin, reduce, mode)
    ensures r.Err? ==> r.error == Overflow
  {
    if receive + margin > U64_MAX then Err(Overflow)
    else Ok(Split(margin, discount, receive + margin, reduce, mode))
  }

  /** The points bought, which must fit `u64`; a zero FORCA-per-SOL quote is
      refused. */
  function Points(amount: U64, solPriceUsdE6: U64, forcaPerSolE6: U64): (r: Result<U64>)
    ensures r.Ok? <==> forcaPerSolE6 > 0 && PointsOf(amount, solPriceUsdE6, forcaPerSolE6) <= U64_MAX
    ensures r.Ok? ==> r.value == PointsOf(amount, solPriceUsdE6, forcaPerSolE6)
    ensures r.Ok? ==> r.value * forcaPerSolE6 <= amount * solPriceUsdE6 < (r.value + 1) * forcaPerSolE6
    ensures forcaPerSolE6 == 0 ==> r == Err(InvalidQuote)
  {
    if forcaPerSolE6 == 0 then Err(InvalidQuote)
    else
      var pp := amount * solPriceUsdE6 / forcaPerSolE6;
      FloorDivBracket(amount * solPriceUsdE6, forcaPerSolE6);
      if pp > U64_MAX then Err(Overflow) else Ok(pp)
  }

  /** The points credited: the points bought plus, in BonusPP mode, the
      bonus (cast back with `as u64`), checked. */
  function CreditedPoints(ally: AllyAccount, mode: BenefitMode, points: U64): (r: Result<U64>)
    requires mode == BonusPP <==> BonusActive(ally)
    ensures AllyInv(ally) ==> (r.Ok? <==> points + BonusOf(ally, points) <= U64_MAX)
    ensures AllyInv(ally) && r.Ok? ==> r.value == points + BonusOf(ally, points)
    ensures r.Err? ==> r.error == Overflow
  {
    if mode == BonusPP then
      var bonus := AsU64(BpsOf(points, ally.benefitBps));
      assert AllyInv(ally) ==> bonus == BpsOf(points, ally.benefitBps) by {
        if AllyInv(ally) { BpsShareCastExact(points, ally.benefitBps); }
      }
      if points + bonus > U64_MAX then Err(Overflow) else Ok(points + bonus)
    else
      Ok(points)
  }

  // ---------------------------------------------------------------------
  // The instruction.
  // ---------------------------------------------------------------------

  /** The token accounts of a conversion: both hold FORCA, the vault account
      is the ally's, the paying account is the user's own. */
  predicate ConvertAccountsOk(st: VaultState, ally: AllyAccount, q: ConvertRequest)
  {
    && q.userAta.mint == st.forcaMint && q.vaultAta.mint == st.forcaMint
    && q.vaultAta.key == ally.vaultAta && q.userAta.owner == q.user
  }

  /** The checks before any arithmetic, in the program's order. */
  function ConvertPreflight(st: VaultState, ally: AllyAccount, acc: OracleAccounts, mock: MockQuotes,
                            q: ConvertRequest, now: I64): (r: Result<()>)
    ensures r.Ok? <==> && !st.paused && q.amount > 0 && st.verifyPrices
                       && ConvertAccountsOk(st, ally, q)
                       && CheckConvertQuote(st, acc, mock, q.solPriceUsdE6, q.forcaPerSolE6, now).Ok?
    ensures st.paused ==> r == Err(Paused)
    ensures !st.paused && q.amount == 0 ==> r == Err(ZeroAmount)
    ensures !st.paused && q.amount > 0 && !st.verifyPrices ==> r == Err(OracleMissing)
  {
    if st.paused then Err(Paused)
    else if q.amount == 0 then Err(ZeroAmount)
    else if !st.verifyPrices then Err(OracleMissing)
    else if q.userAta.mint != st.forcaMint || q.vaultAta.mint != st.forcaMint then Err(InvalidMint)
    else if q.vaultAta.key != ally.vaultAta then Err(InvalidVaultAta)
    else if q.userAta.owner != q.user then Err(InvalidAuthority)
    else CheckConvertQuote(st, acc, mock, q.solPriceUsdE6, q.forcaPerSolE6, now)
  }

  /** `convert_to_scoped_pp` at time `now`: the ally and the user's ledger
      after the conversion. The token transfer of `toAlly` FORCA is not
      modelled. */
  function ConvertToScopedPP(st: VaultState, ally: AllyAccount, ledger: UserLedger, acc: OracleAccounts,
                             mock: MockQuotes, q: ConvertRequest, now: I64): (r: Result<AllyLedger>)
    ensures st.paused ==> r == Err(Paused)
    ensures !st.paused && q.amount == 0 ==> r == Err(ZeroAmount)
    ensures !st.paused && q.amount > 0 && !st.verifyPrices ==> r == Err(OracleMissing)
    ensures r.Ok? ==> ConvertPreflight(st, ally, acc, mock, q, now).Ok?
  {
    var _ :- ConvertPreflight(st, ally, acc, mock, q, now);
    var split :- SplitConversion(st, ally, q.amount);
    var pp :- Points(q.amount, q.solPriceUsdE6, q.forcaPerSolE6);
    Settle(ally, ledger, q.user, split, pp, now)
  }

  /** The writes of a conversion once the split and the points are known. */
  function Settle(ally: AllyAccount, ledger: UserLedger, user: Key, split: Split, pp: U64, now: I64)
    : (r: Result<AllyLedger>)
    requires split.mode == BonusPP <==> BonusActive(ally)
    ensures AllyInv(ally) ==>
              var base := OpenLedger(ledger, user, ally.nftMint, now);
              (r.Ok? <==> && ally.balanceForca + split.toAlly <= U64_MAX
                          && base.ppBalance + pp + BonusOf(ally, pp) <= U64_MAX)
    ensures AllyInv(ally) && r.Ok? ==>
              var base := OpenLedger(ledger, user, ally.nftMint, now);
              && r.value.ally == ally.(balanceForca := ally.balanceForca + split.toAlly)
              && r.value.ledger == base.(ppBalance := base.ppBalance + pp + BonusOf(ally, pp),
                                         hwmClaimed := PosPart(base.hwmClaimed - split.hwmReduce),
                                         updatedTs := now)
    ensures r.Ok? ==> r.value.ally.rpReserved <= r.value.ally.balanceForca
  {
    var balance := ally.balanceForca + split.toAlly;
    if balance > U64_MAX then Err(Overflow)
    else if balance < ally.rpReserved then Err(InsufficientUnreservedBalance)
    else
      var base := OpenLedger(ledger, user, ally.nftMint, now);
      var total :- CreditedPoints(ally, split.mode, pp);
      var ppBalance := base.ppBalance + total;
      if ppBalance > U64_MAX then Err(Overflow)
      else
        var hwm := if base.hwmClaimed >= split.hwmReduce then base.hwmClaimed - split.hwmReduce else 0;
        Ok(AllyLedger(ally.(balanceForca := balance),
                      base.(ppBalance := ppBalance, hwmClaimed := hwm, updatedTs := now)))
  }

  /** What a conversion does for a vault and an ally that keep their
      invariants: it succeeds exactly when the checks pass and the new
      balances fit `u64`; then the ally's custody grows by the amount less the
      discount, the user's points grow by the points bought plus any bonus,
      the claim watermark drops by what left the user's wallet (not below 0),
      and nothing else changes. In particular the reserve check after the
      credit never fails. */
  lemma ConvertOutcome(st: VaultState, ally: AllyAccount, ledger: UserLedger, acc: OracleAccounts,
                       mock: MockQuotes, q: ConvertRequest, now: I64)
    requires VaultInv(st) && AllyInv(ally)
    ensures var r := ConvertToScopedPP(st, ally, ledger, acc, mock, q, now);
            var base := OpenLedger(ledger, q.user, ally.nftMint, now);
            var discount := DiscountOf(st, ally, q.amount);
            (r.Ok? <==>
               && ConvertPreflight(st, ally, acc, mock, q, now).Ok?
               && q.forcaPerSolE6 > 0
               && var pp := PointsOf(q.amount, q.solPriceUsdE6, q.forcaPerSolE6);
               && pp <= U64_MAX
               && ally.balanceForca + q.amount - discount <= U64_MAX
               && base.ppBalance + pp + BonusOf(ally, pp) <= U64_MAX)
    ensures var r := ConvertToScopedPP(st, ally, ledger, acc, mock, q, now);
            var base := OpenLedger(ledger, q.user, ally.nftMint, now);
            var discount := DiscountOf(st, ally, q.amount);
            r.Ok? ==>
              var pp := PointsOf(q.amount, q.solPriceUsdE6, q.forcaPerSolE6);
              && r.value.ally == ally.(balanceForca := ally.balanceForca + q.amount - discount)
              && r.value.ledger == base.(ppBalance := base.ppBalance + pp + BonusOf(ally, pp),
                                         hwmClaimed := PosPart(base.hwmClaimed - (q.amount - discount)),
                                         updatedTs := now)
              && AllyInv(r.value.ally)
  {
    var split := SplitConversion(st, ally, q.amount).value;
    if ConvertPreflight(st, ally, acc, mock, q, now).Ok? && Points(q.amount, q.solPriceUsdE6, q.forcaPerSolE6).Ok? {
      var pp := Points(q.amount, q.solPriceUsdE6, q.forcaPerSolE6).value;
      assert ConvertToScopedPP(st, ally, ledger, acc, mock, q, now) == Settle(ally, ledger, q.user, split, pp, now);
    }
  }

  /** A conversion leaves the tax watermark where it was, so it can open a
      gap below it: a user whose watermarks agreed and who pays more than the
      discount ends with `hwm_claimed < tax_hwm`. */
  lemma ConvertOpensWatermarkGap(st: VaultState, ally: AllyAccount, ledger: UserLedger,
                                 acc: OracleAccounts, mock: MockQuotes, q: ConvertRequest, now: I64)
    requires VaultInv(st) && AllyInv(ally)
    requires ConvertToScopedPP(st, ally, ledger, acc, mock, q, now).Ok?
    requires ledger.user != NO_KEY && 0 < ledger.hwmClaimed == ledger.taxHwm
    requires DiscountOf(st, ally, q.amount) < q.amount
    ensures var after := ConvertToScopedPP(st, ally, ledger, acc, mock, q, now).value.ledger;
            after.taxHwm == ledger.taxHwm && after.hwmClaimed < after.taxHwm
  {
    ConvertOutcome(st, ally, ledger, acc, mock, q, now);
  }
}
