/** The administrative instructions: creating the vault and an ally, and the
    setters for the vault's rates, pause flag, manual price and oracle
    configuration and for an ally's benefit and risk parameters. Together
    with the one-way locks of the oracle configuration they keep `VaultInv`
    and `AllyInv`. */
module Config {
  import opened Ints
  import opened Errors
  import opened State

  /** The bounds `set_pop_params` puts on an ally's risk parameters. */
  const MIN_POP_SOFT_DAILY_CAP_USD_E6: int := 1_000_000
  const MAX_POP_SOFT_COOLDOWN_SECS: int := 86_400
  const MIN_POP_MONTHLY_CLAIM_LIMIT: int := 1
  const MAX_POP_MONTHLY_CLAIM_LIMIT: int := 31
  const MIN_POP_HARD_KYC_THRESHOLD_USD_E6: int := 1_000_000

  /** The defaults `initialize_vault` writes. */
  const DEFAULT_SOFT_DAILY_CAP_USD_E6: U64 := 1_000_000_000
  const DEFAULT_FORCA_USD_E6: U64 := 1_000_000
  const DEFAULT_ORACLE_TOLERANCE_BPS: U16 := 100
  const DEFAULT_PYTH_MAX_STALE_SECS: U64 := 120
  const DEFAULT_PYTH_MAX_CONFIDENCE_BPS: U16 := 100

  /** The mint decimals the vault accepts for FORCA. */
  const FORCA_DECIMALS: U8 := 6

  /** The three vault rates are each at most 100%. */
  predicate RatesOk(feeCBps: U16, taxDBps: U16, marginBBps: U16)
  {
    feeCBps <= MAX_BPS && taxDBps <= MAX_BPS && marginBBps <= MAX_BPS
  }

  /** `initialize_vault`: the three rates are checked in order, then the
      mint's decimals; the vault starts unpaused, with the manual price and
      no oracle configured, and the mock oracle off but not locked. */
  function InitializeVault(popAdmin: Key, econAdmin: Key, forcaMint: Key, mintDecimals: U8,
                           feeCBps: U16, taxDBps: U16, marginBBps: U16): (r: Result<VaultState>)
    ensures r.Ok? <==> RatesOk(feeCBps, taxDBps, marginBBps) && mintDecimals == FORCA_DECIMALS
    ensures !RatesOk(feeCBps, taxDBps, marginBBps) ==> r == Err(InvalidBps)
    ensures r.Ok? ==> && VaultInv(r.value) && LiveOracleConfigured(r.value)
                      && r.value.forcaMint == forcaMint
                      && r.value.popAdmin == popAdmin && r.value.econAdmin == econAdmin
                      && r.value.feeCBps == feeCBps && r.value.taxDBps == taxDBps
                      && r.value.marginBBps == marginBBps
                      && !r.value.paused && !r.value.verifyPrices
                      && !r.value.useMockOracle && !r.value.mockOracleLocked
    ensures r.Ok? ==> && r.value.softDailyCapUsdE6 == DEFAULT_SOFT_DAILY_CAP_USD_E6
                      && r.value.softCooldownSecs == 0
                      && r.value.forcaUsdE6 == DEFAULT_FORCA_USD_E6
                      && r.value.oracleToleranceBps == DEFAULT_ORACLE_TOLERANCE_BPS
                      && r.value.pythMaxStaleSecs == DEFAULT_PYTH_MAX_STALE_SECS
                      && r.value.pythMaxConfidenceBps == DEFAULT_PYTH_MAX_CONFIDENCE_BPS
                      && r.value.pythSolUsdPriceFeed == NO_KEY && r.value.canonicalPoolForcaSol == NO_KEY
                      && r.value.canonicalPoolForcaReserve == NO_KEY
                      && r.value.canonicalPoolSolReserve == NO_KEY
  {
    if feeCBps > MAX_BPS || taxDBps > MAX_BPS || marginBBps > MAX_BPS then Err(InvalidBps)
    else if mintDecimals != FORCA_DECIMALS then Err(InvalidForcaDecimals)
    else
      Ok(VaultState(
        popAdmin := popAdmin,
        econAdmin := econAdmin,
        forcaMint := forcaMint,
        feeCBps := feeCBps,
        taxDBps := taxDBps,
        marginBBps := marginBBps,
        paused := false,
        softDailyCapUsdE6 := DEFAULT_SOFT_DAILY_CAP_USD_E6,
        softCooldownSecs := 0,
        forcaUsdE6 := DEFAULT_FORCA_USD_E6,
        verifyPrices := false,
        oracleToleranceBps := DEFAULT_ORACLE_TOLERANCE_BPS,
        pythSolUsdPriceFeed := NO_KEY,
        canonicalPoolForcaSol := NO_KEY,
        canonicalPoolForcaReserve := NO_KEY,
        canonicalPoolSolReserve := NO_KEY,
        useMockOracle := false,
        mockOracleLocked := false,
        pythMaxStaleSecs := DEFAULT_PYTH_MAX_STALE_SECS,
        pythMaxConfidenceBps := DEFAULT_PYTH_MAX_CONFIDENCE_BPS))
  }

  /** `register_ally`: an empty ally with no benefit, enforcement on, the
      vault's current soft-cap and cooldown, and no monthly limit or KYC
      threshold; both of its token accounts must hold FORCA. */
  function RegisterAlly(st: VaultState, nftMint: Key, opsAuthority: Key, withdrawAuthority: Key,
                        treasuryAta: TokenAccount, vaultAta: TokenAccount): (r: Result<AllyAccount>)
    ensures r.Ok? <==> treasuryAta.mint == st.forcaMint && vaultAta.mint == st.forcaMint
    ensures r.Err? ==> r.error == InvalidMint
    ensures r.Ok? ==> && AllyInv(r.value)
                      && r.value.balanceForca == 0 && r.value.rpReserved == 0
                      && r.value.treasuryAta == treasuryAta.key && r.value.vaultAta == vaultAta.key
                      && r.value.popEnforced
                      && r.value.softDailyCapUsdE6 == st.softDailyCapUsdE6
                      && r.value.softCooldownSecs == st.softCooldownSecs
    ensures r.Ok? ==> && r.value.nftMint == nftMint
                      && r.value.opsAuthority == opsAuthority
                      && r.value.withdrawAuthority == withdrawAuthority
                      && BenefitModeFromU8(r.value.benefitMode) == Ok(NoBenefit)
                      && r.value.benefitBps == 0
                      && r.value.monthlyClaimLimit == 0 && r.value.hardKycThresholdUsdE6 == 0
  {
    if treasuryAta.mint != st.forcaMint || vaultAta.mint != st.forcaMint then Err(InvalidMint)
    else
      Ok(AllyAccount(
        nftMint := nftMint,
        opsAuthority := opsAuthority,
        withdrawAuthority := withdrawAuthority,
        treasuryAta := treasuryAta.key,
        vaultAta := vaultAta.key,
        balanceForca := 0,
        rpReserved := 0,
        benefitMode := BenefitModeCode(NoBenefit),
        benefitBps := 0,
        popEnforced := true,
        softDailyCapUsdE6 := st.softDailyCapUsdE6,
        softCooldownSecs := st.softCooldownSecs,
        monthlyClaimLimit := 0,
        hardKycThresholdUsdE6 := 0))
  }

  /** `set_pause`: the reason code must decode; it is not stored. */
  function SetPause(st: VaultState, pause: bool, reasonCode: U16): (r: Result<VaultState>)
    ensures r.Ok? <==> PauseReasonFromU16(reasonCode).Ok?
    ensures r.Err? ==> r.error == InvalidPauseReason
    ensures r.Ok? ==> r.value.paused == pause && r.value.(paused := st.paused) == st
  {
    var _ :- PauseReasonFromU16(reasonCode);
    Ok(st.(paused := pause))
  }

  /** `set_params`: the same rate checks as `initialize_vault`. */
  function SetParams(st: VaultState, feeCBps: U16, taxDBps: U16, marginBBps: U16): (r: Result<VaultState>)
    ensures r.Ok? <==> RatesOk(feeCBps, taxDBps, marginBBps)
    ensures r.Err? ==> r.error == InvalidBps
    ensures r.Ok? ==> && r.value.feeCBps == feeCBps && r.value.taxDBps == taxDBps
                      && r.value.marginBBps == marginBBps
                      && r.value.(feeCBps := st.feeCBps, taxDBps := st.taxDBps,
                                  marginBBps := st.marginBBps) == st
    ensures VaultInv(st) && r.Ok? ==> VaultInv(r.value)
  {
    if feeCBps > MAX_BPS || taxDBps > MAX_BPS || marginBBps > MAX_BPS then Err(InvalidBps)
    else Ok(st.(feeCBps := feeCBps, taxDBps := taxDBps, marginBBps := marginBBps))
  }

  /** `set_forca_usd`: the manual price can only be set while the mock
      oracle is in use. */
  function SetForcaUsd(st: VaultState, forcaUsdE6: U64): (r: Result<VaultState>)
    ensures r.Ok? <==> st.useMockOracle
    ensures r.Err? ==> r.error == ManualForcaUsdDisabled
    ensures r.Ok? ==> r.value.forcaUsdE6 == forcaUsdE6 && r.value.(forcaUsdE6 := st.forcaUsdE6) == st
  {
    if !st.useMockOracle then Err(ManualForcaUsdDisabled) else Ok(st.(forcaUsdE6 := forcaUsdE6))
  }

  /** The arguments of `set_oracle_config`. */
  datatype OracleConfig = OracleConfig(
    verifyPrices: bool,
    oracleToleranceBps: U16,
    pythSolUsdPriceFeed: Key,
    canonicalPoolForcaSol: Key,
    canonicalPoolForcaReserve: Key,
    canonicalPoolSolReserve: Key,
    useMockOracle: bool,
    pythMaxStaleSecs: U64,
    pythMaxConfidenceBps: U16)

  /** All four oracle accounts are named. */
  predicate OracleKeysSet(c: OracleConfig)
  {
    && c.pythSolUsdPriceFeed != NO_KEY && c.canonicalPoolForcaSol != NO_KEY
    && c.canonicalPoolForcaReserve != NO_KEY && c.canonicalPoolSolReserve != NO_KEY
  }

  /** Whenever live prices are verified, every oracle account is named. */
  predicate LiveOracleConfigured(st: VaultState)
  {
    st.verifyPrices && !st.useMockOracle ==>
      && st.pythSolUsdPriceFeed != NO_KEY && st.canonicalPoolForcaSol != NO_KEY
      && st.canonicalPoolForcaReserve != NO_KEY && st.canonicalPoolSolReserve != NO_KEY
  }

  /** When `set_oracle_config` accepts `c` on `st`: both rates in range
      (the confidence bound also non-zero), verification not switched off,
      the mock not re-enabled once locked, and a live configuration naming
      every oracle account. */
  predicate OracleConfigAccepted(st: VaultState, c: OracleConfig)
  {
    && c.oracleToleranceBps <= MAX_BPS
    && 0 < c.pythMaxConfidenceBps <= MAX_BPS
    && (st.verifyPrices ==> c.verifyPrices)
    && !(st.mockOracleLocked && c.useMockOracle)
    && (c.verifyPrices && !c.useMockOracle ==> OracleKeysSet(c))
  }

  /** `set_oracle_config`. Any call that leaves the mock off locks it off. */
  function SetOracleConfig(st: VaultState, c: OracleConfig): (r: Result<VaultState>)
    ensures r.Ok? <==> OracleConfigAccepted(st, c)
    ensures (c.oracleToleranceBps > MAX_BPS || c.pythMaxConfidenceBps == 0
             || c.pythMaxConfidenceBps > MAX_BPS) ==> r == Err(InvalidBps)
    ensures (&& c.oracleToleranceBps <= MAX_BPS && 0 < c.pythMaxConfidenceBps <= MAX_BPS
             && st.verifyPrices && !c.verifyPrices) ==> r == Err(VerifyPricesLocked)
    ensures r.Ok? ==> && r.value.verifyPrices == c.verifyPrices
                      && r.value.useMockOracle == c.useMockOracle
                      && r.value.mockOracleLocked == (st.mockOracleLocked || !c.useMockOracle)
                      && r.value.oracleToleranceBps == c.oracleToleranceBps
                      && r.value.pythMaxConfidenceBps == c.pythMaxConfidenceBps
                      && r.value.pythMaxStaleSecs == c.pythMaxStaleSecs
                      && r.value.pythSolUsdPriceFeed == c.pythSolUsdPriceFeed
                      && r.value.canonicalPoolForcaSol == c.canonicalPoolForcaSol
                      && r.value.canonicalPoolForcaReserve == c.canonicalPoolForcaReserve
                      && r.value.canonicalPoolSolReserve == c.canonicalPoolSolReserve
                      && LiveOracleConfigured(r.value)
    ensures r.Ok? ==> r.value.(verifyPrices := st.verifyPrices, oracleToleranceBps := st.oracleToleranceBps,
                               pythSolUsdPriceFeed := st.pythSolUsdPriceFeed,
                               canonicalPoolForcaSol := st.canonicalPoolForcaSol,
                               canonicalPoolForcaReserve := st.canonicalPoolForcaReserve,
                               canonicalPoolSolReserve := st.canonicalPoolSolReserve,
                               useMockOracle := st.useMockOracle, mockOracleLocked := st.mockOracleLocked,
                               pythMaxStaleSecs := st.pythMaxStaleSecs,
                               pythMaxConfidenceBps := st.pythMaxConfidenceBps) == st
    ensures VaultInv(st) && r.Ok? ==> VaultInv(r.value)
  {
    if c.oracleToleranceBps > MAX_BPS then Err(InvalidBps)
    else if !(0 < c.pythMaxConfidenceBps <= MAX_BPS) then Err(InvalidBps)
    else if st.verifyPrices && !c.verifyPrices then Err(VerifyPricesLocked)
    else if st.mockOracleLocked && c.useMockOracle then Err(MockOracleLocked)
    else if c.verifyPrices && !c.useMockOracle && c.pythSolUsdPriceFeed == NO_KEY then Err(OracleMissing)
    else if c.verifyPrices && !c.useMockOracle && c.canonicalPoolForcaSol == NO_KEY then Err(OracleMissing)
    else if c.verifyPrices && !c.useMockOracle && c.canonicalPoolForcaReserve == NO_KEY then Err(OracleMissing)
    else if c.verifyPrices && !c.useMockOracle && c.canonicalPoolSolReserve == NO_KEY then Err(OracleMissing)
    else
      Ok(st.(verifyPrices := c.verifyPrices,
             oracleToleranceBps := c.oracleToleranceBps,
             pythSolUsdPriceFeed := c.pythSolUsdPriceFeed,
             canonicalPoolForcaSol := c.canonicalPoolForcaSol,
             canonicalPoolForcaReserve := c.canonicalPoolForcaReserve,
             canonicalPoolSolReserve := c.canonicalPoolSolReserve,
             useMockOracle := c.useMockOracle,
             mockOracleLocked := st.mockOracleLocked || !c.useMockOracle,
             pythMaxStaleSecs := c.pythMaxStaleSecs,
             pythMaxConfidenceBps := c.pythMaxConfidenceBps))
  }

  /** `set_ally_benefit`: the benefit rate is at most 100%; the mode is
      stored as its code. */
  function SetAllyBenefit(ally: AllyAccount, mode: BenefitMode, bps: U16): (r: Result<AllyAccount>)
    ensures r.Ok? <==> bps <= MAX_BPS
    ensures r.Err? ==> r.error == InvalidBps
    ensures r.Ok? ==> && BenefitModeFromU8(r.value.benefitMode) == Ok(mode)
                      && r.value.benefitBps == bps
                      && r.value.(benefitMode := ally.benefitMode, benefitBps := ally.benefitBps) == ally
    ensures r.Ok? && ally.rpReserved <= ally.balanceForca ==> AllyInv(r.value)
  {
    if bps > MAX_BPS then Err(InvalidBps)
    else
      BenefitModeRoundTrip(mode);
      Ok(ally.(benefitMode := BenefitModeCode(mode), benefitBps := bps))
  }

  /** When `set_pop_params` accepts an ally's risk parameters: a daily cap
      of at least $1, a cooldown of at most a day, a monthly limit that is
      either off or between 1 and 31 claims, and a KYC threshold that is
      either off or at least $1. */
  predicate PopParamsAccepted(cap: U64, cooldown: U64, monthlyLimit: U16, kycThreshold: U64)
  {
    && cap >= MIN_POP_SOFT_DAILY_CAP_USD_E6
    && cooldown <= MAX_POP_SOFT_COOLDOWN_SECS
    && (monthlyLimit == 0 || MIN_POP_MONTHLY_CLAIM_LIMIT <= monthlyLimit <= MAX_POP_MONTHLY_CLAIM_LIMIT)
    && (kycThreshold == 0 || kycThreshold >= MIN_POP_HARD_KYC_THRESHOLD_USD_E6)
  }

  /** `set_pop_params`: the four checks in order, then the four fields. */
  function SetPopParams(ally: AllyAccount, cap: U64, cooldown: U64, monthlyLimit: U16,
                        kycThreshold: U64): (r: Result<AllyAccount>)
    ensures r.Ok? <==> PopParamsAccepted(cap, cooldown, monthlyLimit, kycThreshold)
    ensures cap < MIN_POP_SOFT_DAILY_CAP_USD_E6 ==> r == Err(PopCapTooLow)
    ensures cap >= MIN_POP_SOFT_DAILY_CAP_USD_E6 && cooldown > MAX_POP_SOFT_COOLDOWN_SECS
            ==> r == Err(PopCooldownTooHigh)
    ensures r.Ok? ==> && r.value.softDailyCapUsdE6 == cap && r.value.softCooldownSecs == cooldown
                      && r.value.monthlyClaimLimit == monthlyLimit
                      && r.value.hardKycThresholdUsdE6 == kycThreshold
                      && r.value.(softDailyCapUsdE6 := ally.softDailyCapUsdE6,
                                  softCooldownSecs := ally.softCooldownSecs,
                                  monthlyClaimLimit := ally.monthlyClaimLimit,
                                  hardKycThresholdUsdE6 := ally.hardKycThresholdUsdE6) == ally
    ensures AllyInv(ally) && r.Ok? ==> AllyInv(r.value)
  {
    if cap < MIN_POP_SOFT_DAILY_CAP_USD_E6 then Err(PopCapTooLow)
    else if cooldown > MAX_POP_SOFT_COOLDOWN_SECS then Err(PopCooldownTooHigh)
    else if monthlyLimit != 0 && monthlyLimit < MIN_POP_MONTHLY_CLAIM_LIMIT then Err(PopMonthlyLimitTooLow)
    else if monthlyLimit != 0 && monthlyLimit > MAX_POP_MONTHLY_CLAIM_LIMIT then Err(PopMonthlyLimitTooHigh)
    else if kycThreshold != 0 && kycThreshold < MIN_POP_HARD_KYC_THRESHOLD_USD_E6 then Err(PopHardCutTooLow)
    else
      Ok(ally.(softDailyCapUsdE6 := cap, softCooldownSecs := cooldown,
               monthlyClaimLimit := monthlyLimit, hardKycThresholdUsdE6 := kycThreshold))
  }

  // ---------------------------------------------------------------------
  // Histories of vault configuration changes.
  // ---------------------------------------------------------------------

  /** An instruction that writes the vault state. */
  datatype VaultOp =
    | Pause(pause: bool, reasonCode: U16)
    | Params(feeCBps: U16, taxDBps: U16, marginBBps: U16)
    | ForcaUsd(forcaUsdE6: U64)
    | Oracle(config: OracleConfig)

  function Apply(st: VaultState, op: VaultOp): Result<VaultState>
  {
    match op
    case Pause(p, code) => SetPause(st, p, code)
    case Params(c, d, b) => SetParams(st, c, d, b)
    case ForcaUsd(v) => SetForcaUsd(st, v)
    case Oracle(c) => SetOracleConfig(st, c)
  }

  /** One transaction: a failed instruction reverts and leaves the vault
      as it was. */
  function Step(st: VaultState, op: VaultOp): VaultState
  {
    var r := Apply(st, op);
    if r.Ok? then r.value else st
  }

  /** The vault after a sequence of transactions. */
  function Run(st: VaultState, ops: seq<VaultOp>): VaultState
    decreases |ops|
  {
    if |ops| == 0 then st else Run(Step(st, ops[0]), ops[1..])
  }

  /** Every transaction keeps the vault invariant and the live oracle
      configuration. */
  lemma StepKeepsInvariants(st: VaultState, op: VaultOp)
    requires VaultInv(st) && LiveOracleConfigured(st)
    ensures VaultInv(Step(st, op)) && LiveOracleConfigured(Step(st, op))
  {
  }

  /** No history of configuration changes breaks the vault invariant or
      leaves live verification without its oracle accounts. */
  lemma {:induction false} RunKeepsInvariants(st: VaultState, ops: seq<VaultOp>)
    requires VaultInv(st) && LiveOracleConfigured(st)
    ensures VaultInv(Run(st, ops)) && LiveOracleConfigured(Run(st, ops))
    decreases |ops|
  {
    if |ops| > 0 {
      StepKeepsInvariants(st, ops[0]);
      RunKeepsInvariants(Step(st, ops[0]), ops[1..]);
    }
  }

  /** Once price verification is on, no history turns it off. */
  lemma {:induction false} VerifyPricesStaysOn(st: VaultState, ops: seq<VaultOp>)
    requires st.verifyPrices
    ensures Run(st, ops).verifyPrices
    decreases |ops|
  {
    if |ops| > 0 {
      VerifyPricesStaysOn(Step(st, ops[0]), ops[1..]);
    }
  }

  /** Once the mock oracle is locked, it stays locked and off, and the
      manual FORCA price can no longer change. */
  lemma {:induction false} MockLockIsPermanent(st: VaultState, ops: seq<VaultOp>)
    requires st.mockOracleLocked && !st.useMockOracle
    ensures Run(st, ops).mockOracleLocked && !Run(st, ops).useMockOracle
    ensures Run(st, ops).forcaUsdE6 == st.forcaUsdE6
    decreases |ops|
  {
    if |ops| > 0 {
      var next := Step(st, ops[0]);
      assert next.mockOracleLocked && !next.useMockOracle && next.forcaUsdE6 == st.forcaUsdE6;
      MockLockIsPermanent(next, ops[1..]);
    }
  }

  /** Any configuration call that leaves the mock oracle off locks it, even
      when it enables nothing else. */
  lemma LiveConfigLocksMock(st: VaultState, c: OracleConfig)
    requires SetOracleConfig(st, c).Ok? && !c.useMockOracle
    ensures SetOracleConfig(st, c).value.mockOracleLocked
    ensures SetForcaUsd(SetOracleConfig(st, c).value, st.forcaUsdE6) == Err(ManualForcaUsdDisabled)
  {
  }
}
