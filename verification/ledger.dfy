/** The ledger moves of an ally: custody deposits and withdrawals, reserving
    and releasing claimable RP for a user, and granting and consuming a
    user's scoped points (PP). Each keeps `rp_reserved <= balance_forca`. */
module Ledger {
  import opened Ints
  import opened Errors
  import opened State

  /** An ally together with one user's sub-ledger, as a move leaves them. */
  datatype AllyLedger = AllyLedger(ally: AllyAccount, ledger: UserLedger)

  /** What `allocate_claimable_rp` writes: the ally, the user's ledger and the
      user's proof-of-personhood profile (created on first use). */
  datatype Allocation = Allocation(ally: AllyAccount, ledger: UserLedger, profile: PopProfile)

  // ---------------------------------------------------------------------
  // Custody.
  // ---------------------------------------------------------------------

  /** `deposit_forca`: `amount` FORCA move from the ally's treasury token
      account into its vault token account and its custody balance grows.
      The token transfer itself is not modelled. */
  function Deposit(st: VaultState, ally: AllyAccount, treasuryAta: TokenAccount,
                   vaultAta: TokenAccount, amount: U64): (r: Result<AllyAccount>)
    ensures r.Ok? <==> && amount > 0
                       && treasuryAta.mint == st.forcaMint && vaultAta.mint == st.forcaMint
                       && vaultAta.key == ally.vaultAta
                       && ally.balanceForca + amount <= U64_MAX
                       && ally.rpReserved <= ally.balanceForca + amount
    ensures r.Ok? ==> && r.value.balanceForca == ally.balanceForca + amount
                      && r.value.(balanceForca := ally.balanceForca) == ally
    ensures r.Ok? ==> r.value.rpReserved <= r.value.balanceForca
    ensures AllyInv(ally) && r.Ok? ==> AllyInv(r.value)
    ensures amount == 0 ==> r == Err(ZeroAmount)
    ensures AllyInv(ally) && r.Err? ==> r.error != InsufficientUnreservedBalance
  {
    if amount == 0 then Err(ZeroAmount)
    else if st.forcaMint != treasuryAta.mint || st.forcaMint != vaultAta.mint then Err(InvalidMint)
    else if vaultAta.key != ally.vaultAta then Err(InvalidVaultAta)
    else
      var balance := ally.balanceForca + amount;
      if balance > U64_MAX then Err(Overflow)
      else if balance < ally.rpReserved then Err(InsufficientUnreservedBalance)
      else Ok(ally.(balanceForca := balance))
  }

  /** `withdraw_forca`: the ally takes back FORCA it has not reserved. */
  function Withdraw(ally: AllyAccount, vaultAta: TokenAccount, amount: U64): (r: Result<AllyAccount>)
    ensures r.Ok? <==> && amount > 0 && vaultAta.key == ally.vaultAta
                       && ally.rpReserved + amount <= ally.balanceForca
    ensures r.Ok? ==> && r.value.balanceForca == ally.balanceForca - amount
                      && r.value.(balanceForca := ally.balanceForca) == ally
    ensures r.Ok? ==> r.value.rpReserved <= r.value.balanceForca
    ensures AllyInv(ally) && r.Ok? ==> AllyInv(r.value)
    ensures amount > 0 && vaultAta.key == ally.vaultAta && ally.balanceForca < amount
            ==> r == Err(InsufficientAllyBalance)
  {
    if amount == 0 then Err(ZeroAmount)
    else if vaultAta.key != ally.vaultAta then Err(InvalidVaultAta)
    else if ally.balanceForca < amount then Err(InsufficientAllyBalance)
    else
      var remaining := ally.balanceForca - amount;
      if remaining < ally.rpReserved then Err(InsufficientUnreservedBalance)
      else Ok(ally.(balanceForca := remaining))
  }

  /** Withdrawing what was just deposited restores the ally. */
  lemma WithdrawUndoesDeposit(st: VaultState, ally: AllyAccount, treasuryAta: TokenAccount,
                              vaultAta: TokenAccount, amount: U64)
    requires AllyInv(ally)
    requires Deposit(st, ally, treasuryAta, vaultAta, amount).Ok?
    ensures Withdraw(Deposit(st, ally, treasuryAta, vaultAta, amount).value, vaultAta, amount) == Ok(ally)
  {
  }

  /** Depositing what was just withdrawn restores the ally. */
  lemma DepositUndoesWithdraw(st: VaultState, ally: AllyAccount, treasuryAta: TokenAccount,
                              vaultAta: TokenAccount, amount: U64)
    requires Withdraw(ally, vaultAta, amount).Ok?
    requires treasuryAta.mint == st.forcaMint && vaultAta.mint == st.forcaMint
    ensures Deposit(st, Withdraw(ally, vaultAta, amount).value, treasuryAta, vaultAta, amount) == Ok(ally)
  {
  }

  // ---------------------------------------------------------------------
  // Reserved RP.
  // ---------------------------------------------------------------------

  /** A profile created on first use belongs to the ledger's user. */
  function ProfileFor(profile: PopProfile, user: Key): (p: PopProfile)
    ensures p.user != NO_KEY || user == NO_KEY
    ensures profile.user != NO_KEY ==> p == profile
  {
    if profile.user == NO_KEY then profile.(user := user) else profile
  }

  /** The proof-of-personhood tier gate of allocation: an enforcing ally
      allocates only to Soft or Strong users. */
  predicate TierAllowsAllocation(ally: AllyAccount, profile: PopProfile)
  {
    ally.popEnforced ==> profile.level == LEVEL_SOFT || profile.level == LEVEL_STRONG
  }

  /** `allocate_claimable_rp`: the ally reserves `amount` FORCA of its custody
      balance as RP the user may claim. */
  function Allocate(st: VaultState, ally: AllyAccount, ledger: UserLedger, profile: PopProfile,
                    amount: U64, now: I64): (r: Result<Allocation>)
    ensures r.Ok? <==> && !st.paused && amount > 0
                       && ledger.user != NO_KEY && ledger.allyNftMint == ally.nftMint
                       && TierAllowsAllocation(ally, ProfileFor(profile, ledger.user))
                       && ally.rpReserved + amount <= ally.balanceForca
                       && ledger.rpClaimableForca + amount <= U64_MAX
    ensures r.Ok? ==> && r.value.ally == ally.(rpReserved := ally.rpReserved + amount)
                      && r.value.ledger == ledger.(rpClaimableForca := ledger.rpClaimableForca + amount,
                                                   updatedTs := now)
                      && r.value.profile == ProfileFor(profile, ledger.user)
    ensures AllyInv(ally) && r.Ok? ==> AllyInv(r.value.ally)
    ensures st.paused ==> r == Err(Paused)
    ensures (&& !st.paused && amount > 0 && ledger.user != NO_KEY && ledger.allyNftMint == ally.nftMint
             && !TierAllowsAllocation(ally, profile)) ==> r == Err(PopDenied)
  {
    if st.paused then Err(Paused)
    else if amount == 0 then Err(ZeroAmount)
    else if ledger.user == NO_KEY || ledger.allyNftMint != ally.nftMint then Err(InvalidAuthority)
    else
      var profile' := ProfileFor(profile, ledger.user);
      if !TierAllowsAllocation(ally, profile') then Err(PopDenied)
      else
        var reserved := ally.rpReserved + amount;
        if reserved > U64_MAX then Err(Overflow)
        else if ally.balanceForca < reserved then Err(InsufficientVaultBalance)
        else
          var claimable := ledger.rpClaimableForca + amount;
          if claimable > U64_MAX then Err(Overflow)
          else
            Ok(Allocation(ally.(rpReserved := reserved),
                          ledger.(rpClaimableForca := claimable, updatedTs := now),
                          profile'))
  }

  /** A user whose profile is created by the allocation itself has level 0
      (Suspicious), so an enforcing ally cannot allocate to them. */
  lemma FreshProfileDenied(st: VaultState, ally: AllyAccount, ledger: UserLedger,
                           amount: U64, now: I64)
    requires !st.paused && amount > 0 && ledger.user != NO_KEY && ledger.allyNftMint == ally.nftMint
    requires ally.popEnforced
    ensures Allocate(st, ally, ledger, EMPTY_PROFILE, amount, now) == Err(PopDenied)
  {
  }

  /** `cancel_allocated_rp`: the ally releases `amount` of a user's unclaimed
      RP together with the reserve backing it. */
  function Cancel(ally: AllyAccount, ledger: UserLedger, amount: U64, now: I64): (r: Result<AllyLedger>)
    ensures r.Ok? <==> && amount > 0
                       && ledger.user != NO_KEY && ledger.allyNftMint == ally.nftMint
                       && amount <= ledger.rpClaimableForca && amount <= ally.rpReserved
    ensures r.Ok? ==> && r.value.ally == ally.(rpReserved := ally.rpReserved - amount)
                      && r.value.ledger == ledger.(rpClaimableForca := ledger.rpClaimableForca - amount,
                                                   updatedTs := now)
    ensures AllyInv(ally) && r.Ok? ==> AllyInv(r.value.ally)
  {
    if amount == 0 then Err(ZeroAmount)
    else if ledger.user == NO_KEY || ledger.allyNftMint != ally.nftMint then Err(InvalidAuthority)
    else if ledger.rpClaimableForca < amount then Err(InsufficientRP)
    else if ally.rpReserved < amount then Err(InsufficientReservedBalance)
    else
      Ok(AllyLedger(ally.(rpReserved := ally.rpReserved - amount),
                    ledger.(rpClaimableForca := ledger.rpClaimableForca - amount, updatedTs := now)))
  }

  /** Cancelling an allocation in full restores the ally and the user's
      claimable RP; only the ledger's update time moves. */
  lemma CancelUndoesAllocate(st: VaultState, ally: AllyAccount, ledger: UserLedger, profile: PopProfile,
                             amount: U64, now: I64, later: I64)
    requires Allocate(st, ally, ledger, profile, amount, now).Ok?
    ensures var a := Allocate(st, ally, ledger, profile, amount, now).value;
            Cancel(a.ally, a.ledger, amount, later) == Ok(AllyLedger(ally, ledger.(updatedTs := later)))
  {
  }

  // ---------------------------------------------------------------------
  // Scoped points.
  // ---------------------------------------------------------------------

  /** The ledger `init_if_needed` creates for `user` under the ally at `now`. */
  function NewLedger(user: Key, allyMint: Key, now: I64): (l: UserLedger)
    ensures l.user == user && l.allyNftMint == allyMint && l.createdTs == now
    ensures l.rpClaimableForca == l.ppBalance == l.hwmClaimed == l.taxHwm == l.totalClaimedForca == 0
  {
    UserLedger(user, allyMint, 0, 0, 0, 0, 0, now, 0)
  }

  /** The user's ledger under the ally, created at `now` if it does not exist
      yet. */
  function OpenLedger(ledger: UserLedger, user: Key, allyMint: Key, now: I64): UserLedger
  {
    if ledger.user == NO_KEY then NewLedger(user, allyMint, now) else ledger
  }

  /** `grant_bonus_pp`: the ally credits `amount` PP to the user, creating the
      ledger on first use and otherwise insisting it is this user's ledger
      under this ally. */
  function GrantBonusPP(ally: AllyAccount, ledger: UserLedger, user: Key, amount: U64, now: I64)
    : (r: Result<UserLedger>)
    ensures var base := OpenLedger(ledger, user, ally.nftMint, now);
            r.Ok? <==> && amount > 0
                       && (ledger.user != NO_KEY ==> ledger.user == user && ledger.allyNftMint == ally.nftMint)
                       && base.ppBalance + amount <= U64_MAX
    ensures var base := OpenLedger(ledger, user, ally.nftMint, now);
            r.Ok? ==> r.value == base.(ppBalance := base.ppBalance + amount, updatedTs := now)
  {
    if amount == 0 then Err(ZeroAmount)
    else
      var base :-
        if ledger.user == NO_KEY then Ok(NewLedger(user, ally.nftMint, now))
        else if ledger.user != user || ledger.allyNftMint != ally.nftMint then Err(InvalidAuthority)
        else Ok(ledger);
      var pp := base.ppBalance + amount;
      if pp > U64_MAX then Err(Overflow) else Ok(base.(ppBalance := pp, updatedTs := now))
  }

  /** `consume_pp`: the ally spends `amount` of the user's PP. */
  function ConsumePP(ally: AllyAccount, ledger: UserLedger, amount: U64, now: I64): (r: Result<UserLedger>)
    ensures r.Ok? <==> && amount > 0
                       && ledger.user != NO_KEY && ledger.allyNftMint == ally.nftMint
                       && amount <= ledger.ppBalance
    ensures r.Ok? ==> r.value == ledger.(ppBalance := ledger.ppBalance - amount, updatedTs := now)
    ensures (&& amount > 0 && ledger.user != NO_KEY && ledger.allyNftMint == ally.nftMint
             && ledger.ppBalance < amount) ==> r == Err(InsufficientPP)
  {
    if amount == 0 then Err(ZeroAmount)
    else if ledger.user == NO_KEY || ledger.allyNftMint != ally.nftMint then Err(InvalidAuthority)
    else if ledger.ppBalance < amount then Err(InsufficientPP)
    else Ok(ledger.(ppBalance := ledger.ppBalance - amount, updatedTs := now))
  }

  /** Consuming granted points takes the ledger back to its balance before
      the grant; a ledger the grant created ends with no points. */
  lemma ConsumeUndoesGrant(ally: AllyAccount, ledger: UserLedger, user: Key, amount: U64,
                           now: I64, later: I64)
    requires user != NO_KEY
    requires GrantBonusPP(ally, ledger, user, amount, now).Ok?
    ensures var granted := GrantBonusPP(ally, ledger, user, amount, now).value;
            var base := OpenLedger(ledger, user, ally.nftMint, now);
            ConsumePP(ally, granted, amount, later) == Ok(base.(updatedTs := later))
  {
  }
}
