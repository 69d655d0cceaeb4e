/** Price resolution: the FORCA/USD rate a claim is valued at
    (`resolve_forca_usd_e6`) and the cross-check of a caller's quote at
    conversion time. In live mode both read a Pyth SOL/USD price account and
    the reserves of a canonical FORCA/SOL pool; in mock mode they compare
    against administrator-set values. */
module Oracle {
  import opened Ints
  import opened Errors
  import opened FixedPoint
  import opened PriceFeed
  import opened State

  /** WSOL has 9 decimals. */
  const WSOL_SCALE: int := 1_000_000_000

  /** The proof accounts an instruction passes for live pricing. Which
      program owns the price account, and whether the SOL reserve holds
      wrapped SOL, are identity checks against fixed program keys and are
      given as flags. */
  datatype OracleAccounts = OracleAccounts(
    feedKey: Key,
    feedOwnedByPyth: bool,
    feedData: seq<Byte>,
    poolKey: Key,
    forcaReserve: TokenAccount,
    solReserve: TokenAccount,
    solReserveMintIsWsol: bool)

  /** The mock oracle and mock pool accounts. */
  datatype MockQuotes = MockQuotes(solUsdE6: U64, forcaPerSolE6: U64)

  /** Live pricing is on: prices are verified and the mock is off. */
  predicate LiveMode(st: VaultState)
  {
    st.verifyPrices && !st.useMockOracle
  }

  predicate OracleKeysMatch(st: VaultState, acc: OracleAccounts)
  {
    && acc.feedKey == st.pythSolUsdPriceFeed
    && acc.poolKey == st.canonicalPoolForcaSol
    && acc.forcaReserve.key == st.canonicalPoolForcaReserve
    && acc.solReserve.key == st.canonicalPoolSolReserve
    && acc.forcaReserve.mint == st.forcaMint
    && acc.solReserveMintIsWsol
    && acc.forcaReserve.owner == st.canonicalPoolForcaSol
    && acc.solReserve.owner == st.canonicalPoolForcaSol
  }

  /** The eight key checks, in the program's order: the four account keys,
      the two reserve mints, the two reserve owners. */
  function CheckOracleKeys(st: VaultState, acc: OracleAccounts): (r: Result<()>)
    ensures r.Ok? <==> OracleKeysMatch(st, acc)
    ensures r.Err? ==> r.error == OracleKeyMismatch || r.error == InvalidMint
    ensures r.Err? && acc.feedKey != st.pythSolUsdPriceFeed ==> r.error == OracleKeyMismatch
  {
    if acc.feedKey != st.pythSolUsdPriceFeed then Err(OracleKeyMismatch)
    else if acc.poolKey != st.canonicalPoolForcaSol then Err(OracleKeyMismatch)
    else if acc.forcaReserve.key != st.canonicalPoolForcaReserve then Err(OracleKeyMismatch)
    else if acc.solReserve.key != st.canonicalPoolSolReserve then Err(OracleKeyMismatch)
    else if acc.forcaReserve.mint != st.forcaMint then Err(InvalidMint)
    else if !acc.solReserveMintIsWsol then Err(InvalidMint)
    else if acc.forcaReserve.owner != st.canonicalPoolForcaSol then Err(OracleKeyMismatch)
    else if acc.solReserve.owner != st.canonicalPoolForcaSol then Err(OracleKeyMismatch)
    else Ok(())
  }

  /** A message is fresh at `now`: published no later than `now` and at most
      `pyth_max_stale_secs` earlier. */
  predicate Fresh(st: VaultState, m: PriceMessage, now: I64)
  {
    m.publishTime <= now && now - m.publishTime <= st.pythMaxStaleSecs
  }

  /** The confidence interval is at most `pyth_max_confidence_bps` of a
      non-zero price, or the limit is off; stated without division. */
  predicate ConfidenceOk(st: VaultState, m: PriceMessage)
  {
    st.pythMaxConfidenceBps > 0
    ==> m.price != 0 && m.conf * BPS_DENOMINATOR < (st.pythMaxConfidenceBps + 1) * Abs(m.price)
  }

  /** The time and confidence checks on a parsed message, in the program's
      order: a price published in the future is reported as a parse
      failure, an age beyond `i64` as an overflow, then staleness, then a
      confidence interval that is undefined (zero price) or too wide. */
  function CheckAttestation(st: VaultState, m: PriceMessage, now: I64): (r: Result<PriceMessage>)
    ensures r.Ok? <==> Fresh(st, m, now) && IsI64(now - m.publishTime) && ConfidenceOk(st, m)
    ensures r.Ok? ==> r.value == m
    ensures r.Err? ==>
              r.error == (if m.publishTime > now then OracleParseFailed
                          else if !IsI64(now - m.publishTime) then Overflow
                          else if now - m.publishTime > st.pythMaxStaleSecs then OracleStale
                          else if m.price == 0 then OracleParseFailed
                          else OracleConfidenceTooWide)
  {
    if m.publishTime > now then Err(OracleParseFailed)
    else if !IsI64(now - m.publishTime) then Err(Overflow)
    else
      var age := AsU64(now - m.publishTime);
      if age > st.pythMaxStaleSecs then Err(OracleStale)
      else if st.pythMaxConfidenceBps > 0 then
        match ConfBpsFromPrice(m.price, m.conf)
        case None => Err(OracleParseFailed)
        case Some(confBps) =>
          ConfWithinLimit(m.price, m.conf, st.pythMaxConfidenceBps);
          if confBps > st.pythMaxConfidenceBps then Err(OracleConfidenceTooWide) else Ok(m)
      else Ok(m)
  }

  /** The attested-price steps shared by price resolution and the quote
      check: the price account must belong to a Pyth program and parse, and
      its message must pass the time and confidence checks. */
  function FreshPythPrice(st: VaultState, acc: OracleAccounts, now: I64): (r: Result<PriceMessage>)
    ensures r.Ok? ==> && acc.feedOwnedByPyth
                      && ParseAnchorPriceMessage(acc.feedData) == Some(r.value)
                      && Fresh(st, r.value, now) && ConfidenceOk(st, r.value)
    ensures !acc.feedOwnedByPyth || ParseAnchorPriceMessage(acc.feedData).None?
            ==> r == Err(OracleParseFailed)
    ensures acc.feedOwnedByPyth && ParseAnchorPriceMessage(acc.feedData).Some?
            ==> r == CheckAttestation(st, ParseAnchorPriceMessage(acc.feedData).value, now)
  {
    if !acc.feedOwnedByPyth then Err(OracleParseFailed)
    else
      match ParseAnchorPriceMessage(acc.feedData)
      case None => Err(OracleParseFailed)
      case Some(m) => CheckAttestation(st, m, now)
  }

  /** FORCA per SOL in micro-units implied by the pool reserves (FORCA has 6
      decimals, WSOL 9), rounded down. */
  function PoolForcaPerSol(acc: OracleAccounts): (r: nat)
    requires acc.solReserve.amount > 0
    ensures r * acc.solReserve.amount <= acc.forcaReserve.amount * WSOL_SCALE
            < r * acc.solReserve.amount + acc.solReserve.amount
  {
    FloorDivBracket(acc.forcaReserve.amount * WSOL_SCALE, acc.solReserve.amount);
    (acc.forcaReserve.amount * WSOL_SCALE) / acc.solReserve.amount
  }

  /** The SOL/USD price of an attested message in micro-units; zero, negative
      and unrepresentable prices fail as parse errors. */
  function SolUsdE6(m: PriceMessage): (r: Result<U64>)
    ensures r.Ok? <==> ScalePriceToE6(m.price, m.expo).Some? && ScalePriceToE6(m.price, m.expo).value > 0
    ensures r.Ok? ==> r.value == ScalePriceToE6(m.price, m.expo).value
    ensures r.Err? ==> r.error == OracleParseFailed
  {
    match ScalePriceToE6(m.price, m.expo)
    case None => Err(OracleParseFailed)
    case Some(sol) => if sol == 0 then Err(OracleParseFailed) else Ok(sol)
  }

  /** FORCA/USD from SOL/USD and the pool: `sol * 10^6 / forca_per_sol`
      rounded down. An empty SOL reserve, a pool quoting zero FORCA per SOL,
      or a zero result fail as parse errors; a result beyond `u64` as an
      overflow. */
  function ForcaUsdFromPool(sol: U64, acc: OracleAccounts): (r: Result<U64>)
    ensures r.Ok? ==> && acc.solReserve.amount > 0
                      && var derived := PoolForcaPerSol(acc);
                      && derived > 0 && r.value > 0
                      && r.value * derived <= sol * E6 < r.value * derived + derived
    ensures acc.solReserve.amount == 0 ==> r == Err(OracleParseFailed)
    ensures r.Ok? <==> && acc.solReserve.amount > 0 && PoolForcaPerSol(acc) > 0
                       && 0 < (sol * E6) / PoolForcaPerSol(acc) <= U64_MAX
    ensures r.Err? ==>
              r.error == (if acc.solReserve.amount == 0 || PoolForcaPerSol(acc) == 0
                             || (sol * E6) / PoolForcaPerSol(acc) == 0
                          then OracleParseFailed else Overflow)
  {
    if acc.solReserve.amount == 0 then Err(OracleParseFailed)
    else
      var derived := PoolForcaPerSol(acc);
      if derived == 0 then Err(OracleParseFailed)
      else
        var forcaUsd := (sol * E6) / derived;
        FloorDivBracket(sol * E6, derived);
        if forcaUsd == 0 then Err(OracleParseFailed)
        else if forcaUsd > U64_MAX then Err(Overflow)
        else Ok(forcaUsd)
  }

  /** The errors live price resolution can report: a wrong account, a
      malformed, future-dated or zero price, a stale or imprecise one, or an
      arithmetic overflow. */
  predicate PriceError(e: RvError)
  {
    || e == OracleKeyMismatch || e == InvalidMint || e == OracleParseFailed
    || e == Overflow || e == OracleStale || e == OracleConfidenceTooWide
  }

  /** `resolve_forca_usd_e6`: outside live mode, the stored rate. In live
      mode, a fresh, confident Pyth SOL/USD price divided by the pool's FORCA
      per SOL, rounded down, which must be positive and fit `u64`. */
  function ResolveForcaUsdE6(st: VaultState, acc: OracleAccounts, now: I64): (r: Result<U64>)
    ensures !LiveMode(st) ==> r == Ok(st.forcaUsdE6)
    ensures LiveMode(st) && r.Ok? ==>
              && OracleKeysMatch(st, acc)
              && FreshPythPrice(st, acc, now).Ok?
              && SolUsdE6(FreshPythPrice(st, acc, now).value).Ok?
              && ForcaUsdFromPool(SolUsdE6(FreshPythPrice(st, acc, now).value).value, acc) == r
    ensures LiveMode(st) && !OracleKeysMatch(st, acc) ==> r == Err(CheckOracleKeys(st, acc).error)
    ensures LiveMode(st) && OracleKeysMatch(st, acc) && FreshPythPrice(st, acc, now).Err?
            ==> r == Err(FreshPythPrice(st, acc, now).error)
    ensures LiveMode(st) && OracleKeysMatch(st, acc) && FreshPythPrice(st, acc, now).Ok?
            && SolUsdE6(FreshPythPrice(st, acc, now).value).Err?
            ==> r == Err(OracleParseFailed)
    ensures LiveMode(st) && OracleKeysMatch(st, acc) && FreshPythPrice(st, acc, now).Ok?
            && SolUsdE6(FreshPythPrice(st, acc, now).value).Ok?
            ==> r == ForcaUsdFromPool(SolUsdE6(FreshPythPrice(st, acc, now).value).value, acc)
    ensures r.Err? ==> PriceError(r.error)
  {
    if LiveMode(st) then
      var _ :- CheckOracleKeys(st, acc);
      var m :- FreshPythPrice(st, acc, now);
      var sol :- SolUsdE6(m);
      ForcaUsdFromPool(sol, acc)
    else Ok(st.forcaUsdE6)
  }

  /** The conversion-time check of the caller's quotes (SOL/USD and FORCA
      per SOL, both in micro-units) against the mock values or against
      the live Pyth price and pool reserves, within `oracle_tolerance_bps`.
      Nothing is checked while prices are not verified. */
  function CheckConvertQuote(st: VaultState, acc: OracleAccounts, mock: MockQuotes,
                             solPriceUsdE6: U64, forcaPerSolE6: U64, now: I64): (r: Result<()>)
    ensures !st.verifyPrices ==> r.Ok?
    ensures st.verifyPrices && st.useMockOracle ==>
              (r.Ok? <==> WithinBps(solPriceUsdE6, mock.solUsdE6, st.oracleToleranceBps)
                          && WithinBps(forcaPerSolE6, mock.forcaPerSolE6, st.oracleToleranceBps))
    ensures st.verifyPrices && st.useMockOracle && r.Err? ==> r.error == OracleOutOfTolerance
    ensures LiveMode(st) ==>
              (r.Ok? <==>
                 && OracleKeysMatch(st, acc)
                 && FreshPythPrice(st, acc, now).Ok?
                 && var m := FreshPythPrice(st, acc, now).value;
                 && ScalePriceToE6(m.price, m.expo).Some?
                 && WithinBps(solPriceUsdE6, ScalePriceToE6(m.price, m.expo).value, st.oracleToleranceBps)
                 && acc.solReserve.amount > 0
                 && PoolForcaPerSol(acc) <= U64_MAX
                 && WithinBps(forcaPerSolE6, PoolForcaPerSol(acc), st.oracleToleranceBps))
    ensures LiveMode(st) && !OracleKeysMatch(st, acc) ==> r == Err(CheckOracleKeys(st, acc).error)
    ensures LiveMode(st) && OracleKeysMatch(st, acc) && FreshPythPrice(st, acc, now).Err?
            ==> r == Err(FreshPythPrice(st, acc, now).error)
    ensures LiveMode(st) && OracleKeysMatch(st, acc) && FreshPythPrice(st, acc, now).Ok? ==>
              var m := FreshPythPrice(st, acc, now).value;
              var derivedSol := ScalePriceToE6(m.price, m.expo);
              && (derivedSol.None? ==> r == Err(OracleParseFailed))
              && (derivedSol.Some? && !WithinBps(solPriceUsdE6, derivedSol.value, st.oracleToleranceBps)
                  ==> r == Err(OracleOutOfTolerance))
              && (derivedSol.Some? && WithinBps(solPriceUsdE6, derivedSol.value, st.oracleToleranceBps) ==>
                    && (acc.solReserve.amount == 0 ==> r == Err(OracleParseFailed))
                    && (acc.solReserve.amount > 0 && PoolForcaPerSol(acc) > U64_MAX ==> r == Err(Overflow))
                    && (acc.solReserve.amount > 0 && PoolForcaPerSol(acc) <= U64_MAX
                        && !WithinBps(forcaPerSolE6, PoolForcaPerSol(acc), st.oracleToleranceBps)
                        ==> r == Err(OracleOutOfTolerance)))
  {
    if !st.verifyPrices then Ok(())
    else if st.useMockOracle then
      if !WithinBps(solPriceUsdE6, mock.solUsdE6, st.oracleToleranceBps) then Err(OracleOutOfTolerance)
      else if !WithinBps(forcaPerSolE6, mock.forcaPerSolE6, st.oracleToleranceBps) then Err(OracleOutOfTolerance)
      else Ok(())
    else
      var _ :- CheckOracleKeys(st, acc);
      var m :- FreshPythPrice(st, acc, now);
      match ScalePriceToE6(m.price, m.expo)
      case None => Err(OracleParseFailed)
      case Some(derivedSol) =>
        if !WithinBps(solPriceUsdE6, derivedSol, st.oracleToleranceBps) then Err(OracleOutOfTolerance)
        else if acc.solReserve.amount == 0 then Err(OracleParseFailed)
        else
          var derived := PoolForcaPerSol(acc);
          if derived > U64_MAX then Err(Overflow)
          else if !WithinBps(forcaPerSolE6, derived, st.oracleToleranceBps) then Err(OracleOutOfTolerance)
          else Ok(())
  }

  /** The three time and confidence outcomes of live resolution, in order:
      a future publish time fails as a parse error, then an old one as
      stale, then a wide confidence interval. */
  lemma ResolveRejectsFuturePrice(st: VaultState, acc: OracleAccounts, now: I64, m: PriceMessage)
    requires LiveMode(st) && OracleKeysMatch(st, acc) && acc.feedOwnedByPyth
    requires ParseAnchorPriceMessage(acc.feedData) == Some(m) && m.publishTime > now
    ensures ResolveForcaUsdE6(st, acc, now) == Err(OracleParseFailed)
  {
  }

  lemma ResolveRejectsStalePrice(st: VaultState, acc: OracleAccounts, now: I64, m: PriceMessage)
    requires LiveMode(st) && OracleKeysMatch(st, acc) && acc.feedOwnedByPyth
    requires ParseAnchorPriceMessage(acc.feedData) == Some(m)
    requires m.publishTime <= now && st.pythMaxStaleSecs < now - m.publishTime <= I64_MAX
    ensures ResolveForcaUsdE6(st, acc, now) == Err(OracleStale)
  {
  }

  lemma ResolveRejectsWideConfidence(st: VaultState, acc: OracleAccounts, now: I64, m: PriceMessage)
    requires LiveMode(st) && OracleKeysMatch(st, acc) && acc.feedOwnedByPyth
    requires ParseAnchorPriceMessage(acc.feedData) == Some(m)
    requires Fresh(st, m, now) && IsI64(now - m.publishTime)
    requires st.pythMaxConfidenceBps > 0
    requires m.conf * BPS_DENOMINATOR >= (st.pythMaxConfidenceBps + 1) * Abs(m.price)
    ensures ResolveForcaUsdE6(st, acc, now) == Err(OracleConfidenceTooWide)
  {
    assert ParseAnchorPriceMessage(acc.feedData).value.price != 0;
  }
}
