/** The program's error codes (`RvError`) and the failure-compatible result
    types every transition returns. A failed instruction returns only the
    error: like a reverted Solana transaction it commits no state. */
module Errors {

  datatype RvError =
    | Paused
    | Overflow
    | InvalidBps
    | InvalidForcaDecimals
    | InvalidMint
    | InsufficientAllyBalance
    | InsufficientVaultBalance
    | InsufficientUnreservedBalance
    | InsufficientReservedBalance
    | ZeroAmount
    | InvalidQuote
    | InsufficientRP
    | InsufficientPP
    | AmountTooSmallAfterFee
    | InvalidTreasury
    | InvalidVaultAta
    | PopDenied
    | SoftDailyCapExceeded
    | CooldownNotElapsed
    | PopCapTooLow
    | PopCooldownTooHigh
    | InvalidAuthority
    | OracleMissing
    | OracleOutOfTolerance
    | OracleKeyMismatch
    | OracleParseFailed
    | OracleStale
    | InvalidBenefitMode
    | VerifyPricesLocked
    | InvalidPauseReason
    | ManualForcaUsdDisabled
    | MockOracleLocked
    | MonthlyClaimLimitExceeded
    | KycRequired
    | PopMonthlyLimitTooLow
    | PopMonthlyLimitTooHigh
    | PopHardCutTooLow
    | OracleConfidenceTooWide

  /** Rust's `Option`. */
  datatype Option<+T> = None | Some(value: T) {
    predicate IsFailure() { None? }

    function PropagateFailure<U>(): Option<U>
      requires None?
    {
      None
    }

    function Extract(): T
      requires Some?
    {
      value
    }
  }

  /** Anchor's `Result<T>` specialised to the program's error enum. */
  datatype Result<+T> = Ok(value: T) | Err(error: RvError) {
    predicate IsFailure() { Err? }

    function PropagateFailure<U>(): Result<U>
      requires Err?
    {
      Err(error)
    }

    function Extract(): T
      requires Ok?
    {
      value
    }
  }
}
