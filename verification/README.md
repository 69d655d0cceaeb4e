# reward_vault in Dafny

A model of the `reward_vault` Solana program (`programs/reward_vault/src/lib.rs`). The program keeps a FORCA token ledger for "allies", which are partner organisations identified by an NFT mint. It also keeps a scoped points ledger for each (user, ally) pair.

Users do three things with it:
- convert FORCA into ally-scoped points (PP), paying a margin B and receiving an optional ally benefit;
- receive claimable reward FORCA (RP) allocated by the ally;
- claim that RP back out, paying a base fee C and a tax D on the part of the claim above their tax watermark.

Several safeguards protect these flows:
- Claims by users below the Strong proof-of-personhood level pass through a per-(user, ally) abuse guard: a monthly claim count, a daily USD cap and a cooldown.
- Claims past a lifetime USD threshold need KYC.
- Prices come either from a manual/mock configuration or from a Pyth `PriceUpdateV2` account cross-checked against a canonical FORCA/SOL pool.

Every instruction is a pure function from the accounts it reads (plus `now`) to `Result<accounts>`. A failed instruction returns only its error: a failed Solana transaction reverts every write. Machine integers are mathematical integers with explicit bounds. Checked arithmetic maps to `Overflow`; `as u64` and `as i32` casts wrap explicitly; Rust's truncating `/` is written `Quot`.

Modules, in dependency order:
- `Ints`: machine-integer bounds, truncating division, wrap casts, and small division lemmas.
- `Errors`: the `RvError` enum in source order, plus `Option` and `Result`.
- `FixedPoint`: powers of ten, `scale_price_to_e6`, `within_bps`, `conf_bps_from_price`, and floor shares.
- `Calendar`: `month_index_from_ts`, with a proleptic-Gregorian reference calendar it is proved against.
- `PriceFeed`: the `PriceUpdateV2` byte layout and `parse_anchor_price_message`, with an encoder it inverts.
- `State`: the accounts, the coded enums, and the invariants `VaultInv` and `AllyInv`.
- `Oracle`: `resolve_forca_usd_e6` and the convert-time quote cross-check.
- `AbuseGuard`: the claim guard's state machine.
- `Ledger`: deposit, withdraw, allocate, cancel, grant and consume.
- `Convert`: `convert_to_scoped_pp`.
- `Claim`: `claim_rp`.
- `Config`: vault and ally creation, the parameter setters, and histories of configuration changes.

Two invariants carry the arithmetic:
- `VaultInv`: every rate of the vault is at most 10000 bps, and a locked mock oracle is off.
- `AllyInv`: an ally never reserves more than it holds, its benefit rate is at most 10000 bps, and its mode byte is a mode code.

The rate bounds of `VaultInv` make the program's unchecked `as u64` casts of the margin and fee products (lib.rs:701, 1079) lossless; the `benefitBps` bound of `AllyInv` does the same for the discount and bonus products (lib.rs:722, 802).

## Behaviour worth knowing

- The guard's day bucket is `now / 86_400` with Rust's truncating division, so bucket 0 spans the two days either side of the epoch (`AbuseGuard.DayBucketZeroSpan`), while the month index rounds down (`AbuseGuard.DayBucketTruncates`).
- `claim_rp` rejects a zero amount before it looks at the pause flag; `convert_to_scoped_pp` checks the pause flag first.
- A Pyth price published after `now` is rejected with `OracleParseFailed` (lib.rs:95); only an old price gives `OracleStale`.
- Convert lowers `hwm_claimed` without touching `tax_hwm` (`Convert.ConvertOpensWatermarkGap`), and the next claim sets `tax_hwm` to its new basis, which can be lower than before (`Claim.ClaimAbsorbsWatermarkGap`). The watermark fact that always holds is `hwm_claimed == tax_hwm` right after a claim.
- The month index only stops being monotone once the `year as i32` cast wraps, which happens when the year leaves i32, near |ts| ≈ 6.78·10^16 s. `Calendar.MonthIndexMonotone` proves monotonicity for |ts| ≤ 8.64·10^15 s (about ±2.7·10^8 years).

## Model

| member | source | states |
|---|---|---|
| FixedPoint.Pow10U128 | programs/reward_vault/src/lib.rs:47-51 | defined exactly when 10^p fits in u128, and then equal to 10^p |
| FixedPoint.Pow10U128Defined | programs/reward_vault/src/lib.rs:47-51 | `pow10_u128(p)` succeeds iff p ≤ 38 |
| FixedPoint.Pow10Split | programs/reward_vault/src/lib.rs:47-51 | 10^(m+n) = 10^m · 10^n, used to relate the scaled price to the raw one |
| FixedPoint.ScalePriceToE6 | programs/reward_vault/src/lib.rs:53-68 | succeeds iff the exponent shift is at most 38 either way, the up-scaled price fits in u64 and is non-negative, and a down-scaled price does not truncate below zero; up-scaling multiplies exactly; down-scaling floors a non-negative price and maps small negatives to 0 |
| FixedPoint.WithinBps | programs/reward_vault/src/lib.rs:127-134 | true iff the reference is non-zero and \|v − r\|·10000 ≤ r·tol |
| FixedPoint.WithinZeroTolerance | programs/reward_vault/src/lib.rs:127-134 | with tolerance 0 only equality with a non-zero reference passes |
| FixedPoint.WithinBpsAsymmetric | programs/reward_vault/src/lib.rs:127-134 | the tolerance is relative to the reference: 100 is within 10% of 111 but 111 is not within 10% of 100 |
| FixedPoint.WithinBpsFavoursLarger | programs/reward_vault/src/lib.rs:127-134 | for all amounts, if the larger is within tolerance of the smaller as reference, the smaller is within tolerance of the larger |
| FixedPoint.WithinBpsMonotone | programs/reward_vault/src/lib.rs:127-134 | a value within a tolerance stays within any larger one |
| FixedPoint.ConfBpsFromPrice | programs/reward_vault/src/lib.rs:136-144 | None iff the price is 0; otherwise the floor of conf·10000/\|price\| |
| FixedPoint.ConfWithinLimit | programs/reward_vault/src/lib.rs:98-101 | the confidence ratio is at most max iff conf·10000 < (max+1)·\|price\| |
| FixedPoint.UsdValueE6 | programs/reward_vault/src/lib.rs:1042-1046 | the micro-USD value is the floor of amount·rate/10^6 |
| FixedPoint.BpsOf | programs/reward_vault/src/lib.rs:697-701 | the floor of x·bps/10000, and at most x when bps ≤ 10000 |
| FixedPoint.BpsShareCastExact | programs/reward_vault/src/lib.rs:697-701 | with bps ≤ 10000 the `as u64` cast of a u64's bps share loses nothing |
| State.BenefitModeFromU8 | programs/reward_vault/src/lib.rs:146-153 | accepts exactly the codes 0, 1, 2, decoding to the mode with that code, and rejects the rest with InvalidBenefitMode |
| State.BenefitModeRoundTrip | programs/reward_vault/src/lib.rs:146-153 | decoding a mode's code gives the mode back |
| State.PauseReasonFromU16 | programs/reward_vault/src/lib.rs:155-165 | accepts exactly the codes 0 to 5, decoding to the reason with that code, and rejects the rest with InvalidPauseReason |
| State.PauseReasonRoundTrip | programs/reward_vault/src/lib.rs:155-165 | decoding a reason's code gives the reason back |
| Calendar.YearMonthFromDays | programs/reward_vault/src/lib.rs:33-45 | the month is always in 1..12 |
| Calendar.EraIsFloor | programs/reward_vault/src/lib.rs:35-37 | the era expression is floor division by 146097 and leaves a day of era in range |
| Calendar.TruncatingYearOfEra | programs/reward_vault/src/lib.rs:38 | on a day of era the truncating quotients of the source equal the floor ones used in the proofs |
| Calendar.YearOfEraInverse | programs/reward_vault/src/lib.rs:38-40 | the year-of-era formula inverts the day count of a year of the 400-year era, and yields the day within that year |
| Calendar.YearOfEraBounds | programs/reward_vault/src/lib.rs:37-40 | every day of era maps to a year of era in 0..399 and a day of year inside that year |
| Calendar.MarchMonthInverse | programs/reward_vault/src/lib.rs:41-42 | the `(5·doy+2)/153` month formula gives the March-based month whose day range holds `doy` |
| Calendar.YearMonthOfEpochDay | programs/reward_vault/src/lib.rs:33-45 | for every date with \|year\| ≤ 10^9, the days-from-civil of that date maps back to its (year, month) |
| Calendar.MonthIndexOfDate | programs/reward_vault/src/lib.rs:27-31 | any second of a date with \|year\| ≤ 10^9 has month index year·12 + month − 1 |
| Calendar.MonthIndexAtEpoch | programs/reward_vault/src/lib.rs:27-31 | `month_index_from_ts(0)` is 23640 |
| Calendar.MonthIndexOneYearLater | programs/reward_vault/src/lib.rs:27-31 | `month_index_from_ts(31_536_000)` is 23652 |
| Calendar.YearOfEraMonotone | programs/reward_vault/src/lib.rs:38 | the year of era never decreases as the day of era grows |
| Calendar.MonthOfEraMonotone | programs/reward_vault/src/lib.rs:38-42 | the month counted from the era's start never decreases as the day of era grows |
| Calendar.MonthIndexInEra | programs/reward_vault/src/lib.rs:39-44 | the month index is 4800·era + the month of era + 2 |
| Calendar.MonthIndexOfDays | programs/reward_vault/src/lib.rs:33-45 | splits a day count into era and day of era, and expresses the month index through them |
| Calendar.MonthIndexMonotone | programs/reward_vault/src/lib.rs:27-45 | the month index is non-decreasing in the timestamp for \|ts\| ≤ 8.64·10^15 s |
| PriceFeed.LeUintOfEncode | programs/reward_vault/src/lib.rs:185-188 | decoding a little-endian encoding of x gives x back |
| PriceFeed.EncodeOfLeUint | programs/reward_vault/src/lib.rs:185-188 | encoding the little-endian value of a byte string gives the string back |
| PriceFeed.ParseAnchorPriceMessage | programs/reward_vault/src/lib.rs:171-191 | Some iff the buffer has at least 101 bytes, the verification tag at offset 40 is 1 (Full) or 0 (Partial, which needs 102 bytes), and the price is non-zero; the fields are read little-endian from offsets 73/81/89/93 (Full) or 74/82/90/94 (Partial) |
| PriceFeed.DecodeMessage | programs/reward_vault/src/lib.rs:183-188 | the message encoder places price, conf, expo and publish time where the parser reads them |
| PriceFeed.ParseOfEncoded | programs/reward_vault/src/lib.rs:168-191 | parsing an encoded price update gives its message back, or None when the price is 0 |
| Oracle.CheckOracleKeys | programs/reward_vault/src/lib.rs:80-87 | succeeds iff the feed, the pool and both reserves are the configured accounts, the reserves hold FORCA and WSOL and are owned by the pool; a wrong feed is OracleKeyMismatch |
| Oracle.CheckAttestation | programs/reward_vault/src/lib.rs:94-101 | accepts a message iff it is not from the future, its age fits in i64 and is within the staleness limit, and its confidence is within bounds; each failure has its error in the source's order |
| Oracle.FreshPythPrice | programs/reward_vault/src/lib.rs:89-101 | a feed not owned by Pyth or one that does not parse is OracleParseFailed; otherwise the attestation checks decide |
| Oracle.PoolForcaPerSol | programs/reward_vault/src/lib.rs:105-113 | the pool's FORCA per SOL is the floor of rf·10^9/rs |
| Oracle.SolUsdE6 | programs/reward_vault/src/lib.rs:102-103 | the SOL price in micro-USD is the scaled Pyth price, and a missing or zero scaled price is OracleParseFailed |
| Oracle.ForcaUsdFromPool | programs/reward_vault/src/lib.rs:105-124 | succeeds iff the SOL reserve is non-empty, the pool ratio is positive, and the floor of sol·10^6 over it is positive and fits u64, and then returns that floor; an empty reserve, a zero ratio or a zero price is OracleParseFailed, a price beyond u64 is Overflow |
| Oracle.ResolveForcaUsdE6 | programs/reward_vault/src/lib.rs:70-125 | outside live mode the stored price unchanged; in live mode a key mismatch gives the key check's error, then a failed attestation its error, then an unusable SOL price OracleParseFailed, and otherwise the result is the pool-derived price; every error is a price error |
| Oracle.ResolveRejectsFuturePrice | programs/reward_vault/src/lib.rs:95 | a live price published after `now` is OracleParseFailed |
| Oracle.ResolveRejectsStalePrice | programs/reward_vault/src/lib.rs:96-97 | a live price older than the staleness limit is OracleStale |
| Oracle.ResolveRejectsWideConfidence | programs/reward_vault/src/lib.rs:98-101 | a fresh live price whose confidence ratio exceeds a non-zero limit is OracleConfidenceTooWide |
| Oracle.CheckConvertQuote | programs/reward_vault/src/lib.rs:637-690 | without verification any quote passes; in mock mode both quotes must be within tolerance of the mock values (else OracleOutOfTolerance); in live mode success means matching keys, a fresh attested price, and both quotes within tolerance of the Pyth and pool-derived values, and each failure carries the program's error in its order: the key check's error, the attestation's error, OracleParseFailed for an unscalable price, OracleOutOfTolerance for the SOL quote, OracleParseFailed for an empty SOL reserve, Overflow for a pool ratio beyond u64, OracleOutOfTolerance for the FORCA quote |
| AbuseGuard.GuardAdmit | programs/reward_vault/src/lib.rs:1018-1068 | after first-use creation and the month and day roll-overs, admits iff the monthly count is below a non-zero limit, the day's USD stays within the cap, and the cooldown has elapsed; on success adds the USD, stamps `now`, and bumps the count only under a limit; errors come in the order MonthlyClaimLimitExceeded, Overflow of the USD total, SoftDailyCapExceeded, Overflow of the elapsed time, CooldownNotElapsed |
| AbuseGuard.AdmitToday | programs/reward_vault/src/lib.rs:1041-1067 | after the day roll-over, admits iff the day's USD stays within the cap and the cooldown has elapsed, storing the new total and `now`; a USD total beyond u64 is Overflow, then an exceeded cap SoftDailyCapExceeded, then an elapsed time beyond i64 Overflow, then CooldownNotElapsed |
| AbuseGuard.DayBucketTruncates | programs/reward_vault/src/lib.rs:1025-1028 | the day bucket of -1 s is 0, as is that of 0 s, while their month indexes differ |
| AbuseGuard.DayBucketZeroSpan | programs/reward_vault/src/lib.rs:1025 | every instant strictly between −86400 and 86400 lands in bucket 0 |
| AbuseGuard.CooldownPassesWhenClockGoesBack | programs/reward_vault/src/lib.rs:1063-1064 | a last claim later than `now` reads as a huge `u64` gap and passes any cooldown up to 2^63 s |
| AbuseGuard.DailyCapAcrossClaims | programs/reward_vault/src/lib.rs:1049-1060 | two claims admitted in one day bucket together stay within the daily cap |
| AbuseGuard.CooldownBlocksQuickRepeat | programs/reward_vault/src/lib.rs:1062-1067 | a second claim before the cooldown has run out since an admitted one is refused |
| Ledger.Deposit | programs/reward_vault/src/lib.rs:535-561 | succeeds iff the amount is non-zero, both accounts hold FORCA, the vault account is the ally's, and the new balance fits in u64; only the balance changes, growing by the amount; the reserve invariant is kept |
| Ledger.Withdraw | programs/reward_vault/src/lib.rs:571-599 | succeeds iff the amount is non-zero, the vault account is the ally's, and the unreserved balance covers it; only the balance changes, shrinking by the amount |
| Ledger.WithdrawUndoesDeposit | programs/reward_vault/src/lib.rs:535-599 | withdrawing what was just deposited restores the ally exactly |
| Ledger.DepositUndoesWithdraw | programs/reward_vault/src/lib.rs:535-599 | depositing what was just withdrawn restores the ally exactly |
| Ledger.ProfileFor | programs/reward_vault/src/lib.rs:854-857 | an unset profile is claimed for the user; a set one is left as it is |
| Ledger.Allocate | programs/reward_vault/src/lib.rs:847-875 | succeeds iff the vault is not paused, the amount is non-zero, the ledger belongs to a user of this ally, the tier gate passes, the unreserved balance covers the amount, and the claimable RP fits in u64; reserve and claimable both grow by the amount; paused is reported first |
| Ledger.FreshProfileDenied | programs/reward_vault/src/lib.rs:859-862 | a never-set profile has level Suspicious, so an enforcing ally denies the allocation |
| Ledger.Cancel | programs/reward_vault/src/lib.rs:886-906 | succeeds iff the amount is non-zero, the ledger is this ally's, and both claimable and reserve cover it; both shrink by the amount |
| Ledger.CancelUndoesAllocate | programs/reward_vault/src/lib.rs:847-906 | cancelling an allocation restores ally and ledger except for the ledger's update time |
| Ledger.NewLedger | programs/reward_vault/src/lib.rs:925-934 | a newly opened ledger belongs to the user and ally, and every amount and watermark is 0 |
| Ledger.GrantBonusPP | programs/reward_vault/src/lib.rs:918-945 | opens the ledger if needed; succeeds iff the amount is non-zero, an existing ledger is this user's and ally's, and PP stays within u64; PP grows by the amount |
| Ledger.ConsumePP | programs/reward_vault/src/lib.rs:1172-1180 | succeeds iff the amount is non-zero, the ledger is this ally's, and the PP balance covers it; PP shrinks by the amount |
| Ledger.ConsumeUndoesGrant | programs/reward_vault/src/lib.rs:918-1180 | consuming a granted bonus restores the opened ledger except for its update time |
| Convert.SplitConversion | programs/reward_vault/src/lib.rs:693-747 | under the invariants never fails; the margin is floor(amount·B/10000), a discount applies only in Discount mode with a non-zero rate, and both the ally's inflow and the watermark reduction are amount − discount |
| Convert.ApplyBenefit | programs/reward_vault/src/lib.rs:709-737 | the Discount branch takes floor((amount − margin)·bps/10000); the others leave the base whole |
| Convert.WithMargin | programs/reward_vault/src/lib.rs:745-747 | the ally's inflow is the base plus the margin, with an Overflow if that exceeds u64 |
| Convert.Points | programs/reward_vault/src/lib.rs:760-767 | a zero pool quote is InvalidQuote; otherwise the points are floor(amount·price/ratio), Overflow above u64 |
| Convert.CreditedPoints | programs/reward_vault/src/lib.rs:790-809 | adds floor(points·bps/10000) only in BonusPP mode, Overflow above u64 |
| Convert.ConvertPreflight | programs/reward_vault/src/lib.rs:617-690 | checks, in order: Paused, ZeroAmount, OracleMissing when verification is off, the mints, the vault account and the owner, and then the quote cross-check |
| Convert.Settle | programs/reward_vault/src/lib.rs:769-818 | credits the ally, opens the ledger, adds the points and bonus, and lowers the claim watermark by the outflow floored at 0; the reserve invariant holds afterwards |
| Convert.ConvertToScopedPP | programs/reward_vault/src/lib.rs:611-818 | Paused precedes ZeroAmount, which precedes OracleMissing; success implies every preflight check passed |
| Convert.ConvertOutcome | programs/reward_vault/src/lib.rs:611-818 | under the invariants, a convert succeeds iff the preflight passes, the quote is positive, and the balance, the points and the PP balance fit in u64; then the ally gains amount − discount, PP grows by the points plus any bonus, `hwm_claimed` drops by amount − discount floored at 0, and `tax_hwm` is untouched |
| Convert.ConvertOpensWatermarkGap | programs/reward_vault/src/lib.rs:810-817 | after a convert from a settled ledger, `hwm_claimed` falls below the untouched `tax_hwm` |
| Claim.ClaimFees | programs/reward_vault/src/lib.rs:1070-1137 | under the vault invariant, succeeds iff fee + tax < amount and the new basis fits in u64; fee = floor(amount·C/10000), tax = floor(max(0, hwm + amount − fee − tax_hwm)·D/10000), and 1 ≤ net ≤ amount; fee + tax within u64 but not below the amount is AmountTooSmallAfterFee, and a new basis beyond u64 is Overflow |
| Claim.ClaimPreflight | programs/reward_vault/src/lib.rs:958-987 | checks, in order: ZeroAmount, Paused, claimable RP, the mints, the owner, the vault account, the balance, the reserve, and the lifetime total |
| Claim.ClaimRate | programs/reward_vault/src/lib.rs:989-1007 | the rate is resolved only below Strong when the ally enforces the guard or has a KYC threshold, and a zero rate is OracleParseFailed |
| Claim.KycCheck | programs/reward_vault/src/lib.rs:1008-1016 | below Strong with a threshold, the lifetime claimed USD after the claim must not exceed it |
| Claim.ClaimAdmission | programs/reward_vault/src/lib.rs:1018-1068 | the guard runs exactly when the ally enforces it and the user is below Strong |
| Claim.Settle | programs/reward_vault/src/lib.rs:1131-1155 | claimable and reserve drop by the amount and the balance by the net, both watermarks become the new basis, the lifetime total grows, and the month count is bumped when due |
| Claim.ClaimRp | programs/reward_vault/src/lib.rs:957-1155 | ZeroAmount precedes Paused; success implies the preflight passed, 1 ≤ net ≤ amount, `hwm_claimed == tax_hwm`, and reserve ≤ balance; under the reserve invariant the final balance check never fails |
| Claim.Payout | programs/reward_vault/src/lib.rs:1069-1155 | the fee stage's error or the settlement; on success 1 ≤ net ≤ amount, equal watermarks and reserve ≤ balance; an ally within its invariant never fails the final balance check |
| Claim.MonthBumpFits | programs/reward_vault/src/lib.rs:1143-1145 | a month count that is bumped is below a u16 limit, so its checked increment cannot overflow |
| Claim.ClaimOutcome | programs/reward_vault/src/lib.rs:957-1155 | under the invariants, a claim succeeds iff every stage passes; then every ledger, ally, fee and watermark value is as computed, an unguarded claim leaves the guard alone, and a guarded one adds the claim's USD value to the rolled guard, stamps `now`, and bumps the month count only under a non-zero limit |
| Claim.ClaimWorkedExample | programs/reward_vault/src/lib.rs:1073-1112 | C = 100, D = 500 and 1 000 000 FORCA from zero watermarks give fee 10 000, tax 49 500, net 940 500 and basis 990 000 |
| Claim.NextClaimTaxesOwnBasis | programs/reward_vault/src/lib.rs:1136-1139 | after a claim, the next claim is taxed only on its own basis |
| Claim.ClaimAbsorbsWatermarkGap | programs/reward_vault/src/lib.rs:1086-1139 | a claim whose basis stays under `tax_hwm` pays no tax and moves `tax_hwm` down to that basis |
| Claim.KycBlocksClaim | programs/reward_vault/src/lib.rs:1008-1016 | a user below Strong whose lifetime USD would pass the ally's threshold cannot claim |
| Claim.StrongClaimBypassesGuard | programs/reward_vault/src/lib.rs:989-1021 | a Strong user's claim reads no oracle and leaves the guard untouched |
| Config.InitializeVault | programs/reward_vault/src/lib.rs:204-249 | succeeds iff all three rates are at most 10000 bps (else InvalidBps, checked first) and the mint has 6 decimals; the new vault satisfies the invariants, holds the given admins, mint and rates, starts unpaused, unverified, with the mock off and unlocked, a $1000 daily cap, no cooldown, a $1 price, 1% tolerance, 120 s staleness, a 100 bps confidence bound and no oracle accounts |
| Config.RegisterAlly | programs/reward_vault/src/lib.rs:435-468 | succeeds iff both token accounts hold FORCA, else InvalidMint; the new ally holds the given mint, authorities and token accounts, is empty, has no benefit at 0 bps, enforces the guard, copies the vault's cap and cooldown, has no monthly limit or KYC threshold, and satisfies the invariant |
| Config.SetPause | programs/reward_vault/src/lib.rs:252-266 | succeeds iff the reason code decodes; only the pause flag changes |
| Config.SetParams | programs/reward_vault/src/lib.rs:270-282 | succeeds iff all three rates are at most 10000 bps; only the rates change, and the vault invariant is kept |
| Config.SetForcaUsd | programs/reward_vault/src/lib.rs:328-333 | succeeds iff the mock oracle is in use, else ManualForcaUsdDisabled; only the manual price changes |
| Config.SetOracleConfig | programs/reward_vault/src/lib.rs:335-375 | succeeds iff tolerance ≤ 10000, 0 < confidence ≤ 10000, verification is not switched off, the mock is not re-enabled once locked, and a live configuration names all four accounts; stores every argument including the four oracle keys; any call leaving the mock off locks it; nothing else changes; the invariants are kept |
| Config.SetAllyBenefit | programs/reward_vault/src/lib.rs:471-478 | succeeds iff the rate is at most 10000 bps; the stored mode byte decodes to the given mode; only the benefit changes |
| Config.SetPopParams | programs/reward_vault/src/lib.rs:286-326 | succeeds iff cap ≥ $1, cooldown ≤ 1 day, a non-zero monthly limit is in 1..31, and a non-zero KYC threshold is ≥ $1, with PopCapTooLow and PopCooldownTooHigh reported first; the four risk fields take the arguments and nothing else in the ally changes |
| Config.StepKeepsInvariants | programs/reward_vault/src/lib.rs:252-375 | each vault-writing transaction, failed or not, keeps the vault invariant and the live-oracle configuration |
| Config.RunKeepsInvariants | programs/reward_vault/src/lib.rs:252-375 | no history of vault-writing transactions breaks the vault invariant or leaves live verification without its oracle accounts |
| Config.VerifyPricesStaysOn | programs/reward_vault/src/lib.rs:347-349 | once price verification is on, no history turns it off |
| Config.MockLockIsPermanent | programs/reward_vault/src/lib.rs:350-352 | once the mock oracle is locked off, it stays locked and off in every history, and the manual FORCA price never changes again |
| Config.LiveConfigLocksMock | programs/reward_vault/src/lib.rs:369-371 | an accepted configuration with the mock off locks it, after which the manual price cannot be set |

## Left out

- Token movements. The SPL token transfers (lib.rs:552, 596, 757, 1129) are assumed to succeed, and token-account balances are not modelled; only the program's own ledger fields change.
- Anchor account validation (lib.rs:1192-1690). PDA seeds, bumps, `has_one` and signer checks run before a handler body and are runtime authorisation, so callers are assumed to pass them. As a result, `claim_rp` and `convert_to_scoped_pp` do not re-check that an existing ledger belongs to the caller; the seeds guarantee it.
- Events (`emit!`): logging only.
- Program-owner and WSOL-mint identity checks. These become boolean fields of the oracle accounts (`feedOwnedByPyth`, and the reserves' mint and owner keys).
- Clock: `now` is a parameter.
- Authority, profile and flag setters. `set_econ_admin`, `set_pop_admin`, `set_ally_ops_authority` and `set_ally_withdraw_authority` (lib.rs:377-401, 487-531) reject the default key with InvalidAuthority (the last also a treasury account the new authority does not own) and then store keys; `set_pop_level` (lib.rs:422-432) claims an unset profile for the caller, rejects another user's profile with InvalidAuthority and stores the level, which claims take as an input; `set_ally_pop_enforcement` and `set_mock_oracles` store their arguments unchecked. None of them writes a field `VaultInv` or `AllyInv` reads.
- The ally role byte and PDA bump bytes: no modelled instruction reads them.
- u128 overflow checks that cannot fire, because both operands are below 2^64 (for example `checked_mul` of two u64 values): not modelled as error paths.
- FixedPoint.ScalePriceToE6: the source's `expo + 6` is i32 addition, which overflows only for exponents within 6 of `i32::MAX`; the model returns None there (the program would abort), which `resolve_forca_usd_e6` reports as OracleParseFailed.
- Calendar.MonthIndexMonotone: proved for |ts| ≤ 8.64·10^15 s (about ±2.7·10^8 years), the range the calendar lemmas cover; the source's index stays monotone up to |ts| ≈ 6.78·10^16 s, where the year leaves i32 and the `as i32` cast wraps, and that remaining range is not proved.
- Calendar.YearMonthOfEpochDay and Calendar.MonthIndexOfDate: stated for years within ±10^9, where the `as i32` cast of the year does not wrap.
- Config.SetPause: the `max_duration_secs` argument is only emitted, never stored, so it is not an input.
