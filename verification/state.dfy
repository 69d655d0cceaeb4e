/** The program's accounts as immutable records, its `u8`/`u16` coded
    enums, and the invariants the instructions keep. PDA bumps and the ally
    role byte are not modelled: no instruction in this model reads them. */
module State {
  import opened Ints
  import opened Errors

  /** A public key. Key 0 stands for `Pubkey::default()`, the all-zero key the
      program uses to recognise an account it has not yet initialised. */
  type Key = nat

  const NO_KEY: Key := 0

  const MAX_BPS: int := 10_000

  // ---------------------------------------------------------------------
  // Coded enums.
  // ---------------------------------------------------------------------

  /** `BenefitMode`; `NoBenefit` is the source's `BenefitMode::None`. */
  datatype BenefitMode = NoBenefit | Discount | BonusPP

  /** `mode as u8`. */
  function BenefitModeCode(m: BenefitMode): U8
  {
    match m
    case NoBenefit => 0
    case Discount => 1
    case BonusPP => 2
  }

  /** `benefit_mode_from_u8`: the codes 0, 1, 2 and nothing else. */
  function BenefitModeFromU8(v: U8): (r: Result<BenefitMode>)
    ensures r.Ok? <==> v <= 2
    ensures r.Ok? ==> BenefitModeCode(r.value) == v
    ensures r.Err? ==> r.error == InvalidBenefitMode
  {
    match v
    case 0 => Ok(NoBenefit)
    case 1 => Ok(Discount)
    case 2 => Ok(BonusPP)
    case _ => Err(InvalidBenefitMode)
  }

  /** Encoding a mode and decoding it gives the mode back. */
  lemma BenefitModeRoundTrip(m: BenefitMode)
    ensures BenefitModeFromU8(BenefitModeCode(m)) == Ok(m)
  {
  }

  /** `PauseReason`; `NoReason` is the source's `PauseReason::None`. */
  datatype PauseReason = NoReason | NonPayment | SecurityIncident | ComplianceHold | MarketAnomaly | OpsMaintenance

  /** `reason as u16`. */
  function PauseReasonCode(p: PauseReason): U16
  {
    match p
    case NoReason => 0
    case NonPayment => 1
    case SecurityIncident => 2
    case ComplianceHold => 3
    case MarketAnomaly => 4
    case OpsMaintenance => 5
  }

  /** `pause_reason_from_u16`: the codes 0 to 5 and nothing else. */
  function PauseReasonFromU16(v: U16): (r: Result<PauseReason>)
    ensures r.Ok? <==> v <= 5
    ensures r.Ok? ==> PauseReasonCode(r.value) == v
    ensures r.Err? ==> r.error == InvalidPauseReason
  {
    match v
    case 0 => Ok(NoReason)
    case 1 => Ok(NonPayment)
    case 2 => Ok(SecurityIncident)
    case 3 => Ok(ComplianceHold)
    case 4 => Ok(MarketAnomaly)
    case 5 => Ok(OpsMaintenance)
    case _ => Err(InvalidPauseReason)
  }

  /** Encoding a reason and decoding it gives the reason back. */
  lemma PauseReasonRoundTrip(p: PauseReason)
    ensures PauseReasonFromU16(PauseReasonCode(p)) == Ok(p)
  {
  }

  /** `PopLevel` codes as stored in a profile's `level` byte. */
  const LEVEL_SUSPICIOUS: U8 := 0
  const LEVEL_SOFT: U8 := 1
  const LEVEL_STRONG: U8 := 2

  // ---------------------------------------------------------------------
  // Accounts.
  // ---------------------------------------------------------------------

  datatype VaultState = VaultState(
    popAdmin: Key,
    econAdmin: Key,
    forcaMint: Key,
    feeCBps: U16,
    taxDBps: U16,
    marginBBps: U16,
    paused: bool,
    softDailyCapUsdE6: U64,
    softCooldownSecs: U64,
    forcaUsdE6: U64,
    verifyPrices: bool,
    oracleToleranceBps: U16,
    pythSolUsdPriceFeed: Key,
    canonicalPoolForcaSol: Key,
    canonicalPoolForcaReserve: Key,
    canonicalPoolSolReserve: Key,
    useMockOracle: bool,
    mockOracleLocked: bool,
    pythMaxStaleSecs: U64,
    pythMaxConfidenceBps: U16)

  datatype AllyAccount = AllyAccount(
    nftMint: Key,
    opsAuthority: Key,
    withdrawAuthority: Key,
    treasuryAta: Key,
    vaultAta: Key,
    balanceForca: U64,
    rpReserved: U64,
    benefitMode: U8,
    benefitBps: U16,
    popEnforced: bool,
    softDailyCapUsdE6: U64,
    softCooldownSecs: U64,
    monthlyClaimLimit: U16,
    hardKycThresholdUsdE6: U64)

  /** A user's sub-ledger scoped to one ally. `hwmClaimed` is the running
      claim basis, `taxHwm` the basis up to which tax D was last charged. */
  datatype UserLedger = UserLedger(
    user: Key,
    allyNftMint: Key,
    rpClaimableForca: U64,
    ppBalance: U64,
    hwmClaimed: U64,
    taxHwm: U64,
    totalClaimedForca: U64,
    createdTs: I64,
    updatedTs: I64)

  /** Per (user, ally) abuse guard: the current UTC day bucket and the USD
      claimed in it, the last claim time, and the claims of the current
      calendar month. */
  datatype ClaimGuard = ClaimGuard(
    user: Key,
    allyNftMint: Key,
    day: I64,
    usedUsdE6: U64,
    lastClaimTs: I64,
    monthIndex: I64,
    monthClaims: U16)

  datatype PopProfile = PopProfile(user: Key, level: U8, lastSetTs: I64)

  /** An SPL token account as the handlers see it. */
  datatype TokenAccount = TokenAccount(key: Key, mint: Key, owner: Key, amount: U64)

  /** An account created by `init_if_needed` and not yet written: every
      field zero. */
  const EMPTY_LEDGER: UserLedger := UserLedger(NO_KEY, NO_KEY, 0, 0, 0, 0, 0, 0, 0)
  const EMPTY_GUARD: ClaimGuard := ClaimGuard(NO_KEY, NO_KEY, 0, 0, 0, 0, 0)
  const EMPTY_PROFILE: PopProfile := PopProfile(NO_KEY, 0, 0)

  // ---------------------------------------------------------------------
  // Invariants.
  // ---------------------------------------------------------------------

  /** Every rate of the vault is at most 100%, and a locked mock oracle is
      off. The first part is what makes the program's `as u64` casts of
      basis-point products lossless. */
  predicate VaultInv(st: VaultState)
  {
    && st.feeCBps <= MAX_BPS && st.taxDBps <= MAX_BPS && st.marginBBps <= MAX_BPS
    && st.oracleToleranceBps <= MAX_BPS && st.pythMaxConfidenceBps <= MAX_BPS
    && (st.mockOracleLocked ==> !st.useMockOracle)
  }

  /** An ally never reserves more than it holds, its benefit rate is at most
      100%, and its benefit-mode byte is the code of a mode (the program only
      ever stores `mode as u8`). */
  predicate AllyInv(a: AllyAccount)
  {
    a.rpReserved <= a.balanceForca && a.benefitBps <= MAX_BPS && a.benefitMode <= 2
  }
}
