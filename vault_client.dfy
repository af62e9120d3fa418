/**
 * The address scheme and instruction account lists of the vault client:
 * four program-derived addresses per token mint and user, and the accounts
 * handed to the custody program's initialize, deposit, withdraw and
 * take_tokens instructions.
 */
module VaultClient {
  import opened Wrappers
  import opened Bytes
  import opened Solana

  const VAULT_STATE_SEED: seq<byte> := AsciiBytes("vault_state")
  const VAULT_AUTHORITY_SEED: seq<byte> := AsciiBytes("vault_authority")
  const USER_STATE_SEED: seq<byte> := AsciiBytes("user_state")
  const VAULT_TOKEN_ACCOUNT_SEED: seq<byte> := AsciiBytes("vault_token_account")

  /** The client's fields that the model reads; both are set once, by the constructor. */
  datatype LiquidityVaultClient = LiquidityVaultClient(programId: Pubkey, walletPk: Pubkey)

  function VaultStateSeeds(mint: Pubkey): seq<seq<byte>> {
    [VAULT_STATE_SEED, mint]
  }

  function VaultAuthoritySeeds(vaultState: Pubkey): seq<seq<byte>> {
    [VAULT_AUTHORITY_SEED, vaultState]
  }

  /** The vault-state seed comes before the user seed. */
  function UserStateSeeds(user: Pubkey, vaultState: Pubkey): seq<seq<byte>> {
    [USER_STATE_SEED, vaultState, user]
  }

  function VaultTokenAccountSeeds(vaultState: Pubkey): seq<seq<byte>> {
    [VAULT_TOKEN_ACCOUNT_SEED, vaultState]
  }

  /** `getVaultStatePDA`, address part. */
  function VaultStatePda(c: LiquidityVaultClient, derive: FindProgramAddress, mint: Pubkey): Pubkey {
    derive(VaultStateSeeds(mint), c.programId)
  }

  /** `getVaultAuthorityPDA`, address part. */
  function VaultAuthorityPda(c: LiquidityVaultClient, derive: FindProgramAddress, vaultState: Pubkey): Pubkey {
    derive(VaultAuthoritySeeds(vaultState), c.programId)
  }

  /** `getUserStatePDA`, address part. */
  function UserStatePda(c: LiquidityVaultClient, derive: FindProgramAddress, user: Pubkey, vaultState: Pubkey): Pubkey {
    derive(UserStateSeeds(user, vaultState), c.programId)
  }

  /** `getVaultTokenAccount`, address part. */
  function VaultTokenAccountPda(c: LiquidityVaultClient, derive: FindProgramAddress, vaultState: Pubkey): Pubkey {
    derive(VaultTokenAccountSeeds(vaultState), c.programId)
  }

  /**
   * The four seed lists are pairwise distinct whatever keys they carry, since
   * their leading literals differ; so the four kinds of address never share a
   * seed list.
   */
  lemma SeedListsDistinct(a: Pubkey, b: Pubkey, c: Pubkey, d: Pubkey, e: Pubkey)
    ensures VaultStateSeeds(a) != VaultAuthoritySeeds(b)
    ensures VaultStateSeeds(a) != VaultTokenAccountSeeds(c)
    ensures VaultAuthoritySeeds(b) != VaultTokenAccountSeeds(c)
    ensures UserStateSeeds(d, e) != VaultStateSeeds(a)
    ensures UserStateSeeds(d, e) != VaultAuthoritySeeds(b)
    ensures UserStateSeeds(d, e) != VaultTokenAccountSeeds(c)
  {
    assert VaultStateSeeds(a)[0] != VaultAuthoritySeeds(b)[0];
    assert VaultStateSeeds(a)[0] != VaultTokenAccountSeeds(c)[0];
    assert VaultAuthoritySeeds(b)[0] != VaultTokenAccountSeeds(c)[0];
  }

  // ---- Instructions ----

  /** Accounts of `initialize`. */
  datatype InitializeAccounts = InitializeAccounts(
    vaultState: Pubkey,
    tokenMint: Pubkey,
    vaultAuthority: Pubkey,
    vaultTokenAccount: Pubkey,
    payer: Pubkey,
    systemProgram: Pubkey,
    tokenProgram: Pubkey,
    rent: Pubkey)

  /** Accounts of `deposit`. */
  datatype DepositAccounts = DepositAccounts(
    vaultState: Pubkey,
    userState: Pubkey,
    user: Pubkey,
    userTokenAccount: Pubkey,
    vaultTokenAccount: Pubkey,
    systemProgram: Pubkey,
    tokenProgram: Pubkey,
    rent: Pubkey)

  /** Accounts of `withdraw` and of `take_tokens`, which use the same map. */
  datatype PayoutAccounts = PayoutAccounts(
    vaultState: Pubkey,
    userState: Pubkey,
    vaultAuthority: Pubkey,
    vaultTokenAccount: Pubkey,
    recipientTokenAccount: Pubkey,
    caller: Pubkey,
    tokenProgram: Pubkey)

  /** A custody-program instruction: its name, its arguments and its account map. */
  datatype VaultInstruction =
    | Initialize(whitelistedProgram: Pubkey, initializeAccounts: InitializeAccounts)
    | Deposit(user: Pubkey, amount: nat, depositAccounts: DepositAccounts)
    | Withdraw(user: Pubkey, amount: nat, payoutAccounts: PayoutAccounts)
    | TakeTokens(user: Pubkey, amount: nat, payoutAccounts: PayoutAccounts)

  datatype InitVaultResult = InitVaultResult(
    instruction: VaultInstruction,
    vaultState: Pubkey,
    vaultAuthority: Pubkey,
    vaultTokenAccount: Pubkey)

  /** `initVault`, without sending: the instruction and the three addresses it returns. */
  function InitVault(c: LiquidityVaultClient, derive: FindProgramAddress, tokenMint: Pubkey,
                     whitelistedProgram: Pubkey): InitVaultResult
  {
    var vaultState := VaultStatePda(c, derive, tokenMint);
    var vaultAuthority := VaultAuthorityPda(c, derive, vaultState);
    var vaultTokenAccount := VaultTokenAccountPda(c, derive, vaultState);
    var accounts := InitializeAccounts(vaultState, tokenMint, vaultAuthority, vaultTokenAccount,
      c.walletPk, SYSTEM_PROGRAM_ID, TOKEN_PROGRAM_ID, SYSVAR_RENT_PUBKEY);
    InitVaultResult(Initialize(whitelistedProgram, accounts), vaultState, vaultAuthority, vaultTokenAccount)
  }

  /** `deposit`, without sending; `user` absent means the wallet's key. */
  function DepositInstruction(c: LiquidityVaultClient, derive: FindProgramAddress, amount: nat,
                              tokenMint: Pubkey, userTokenAccount: Pubkey, user: Option<Pubkey>): VaultInstruction
  {
    var u := if user.Some? then user.value else c.walletPk;
    var vaultState := VaultStatePda(c, derive, tokenMint);
    var userState := UserStatePda(c, derive, u, vaultState);
    var vaultTokenAccount := VaultTokenAccountPda(c, derive, vaultState);
    Deposit(u, amount, DepositAccounts(vaultState, userState, u, userTokenAccount, vaultTokenAccount,
      SYSTEM_PROGRAM_ID, TOKEN_PROGRAM_ID, SYSVAR_RENT_PUBKEY))
  }

  /**
   * The account map of `withdraw` and `takeTokens`: the vault state is
   * derived from `vault` as a mint, and the user state from `userStateVault`.
   */
  function PayoutAccountsFor(c: LiquidityVaultClient, derive: FindProgramAddress, vault: Pubkey,
                             recipientTokenAccount: Pubkey, user: Pubkey, userStateVault: Pubkey): PayoutAccounts
  {
    var vaultState := VaultStatePda(c, derive, vault);
    var vaultAuthority := VaultAuthorityPda(c, derive, vaultState);
    var userState := UserStatePda(c, derive, user, userStateVault);
    var vaultTokenAccount := VaultTokenAccountPda(c, derive, vaultState);
    PayoutAccounts(vaultState, userState, vaultAuthority, vaultTokenAccount, recipientTokenAccount,
      c.programId, TOKEN_PROGRAM_ID)
  }

  /** `withdraw` as written: the user state is derived from the raw `vault` argument. */
  function WithdrawAsWritten(c: LiquidityVaultClient, derive: FindProgramAddress, amount: nat, vault: Pubkey,
                             recipientTokenAccount: Pubkey, user: Pubkey): VaultInstruction
  {
    Withdraw(user, amount, PayoutAccountsFor(c, derive, vault, recipientTokenAccount, user, vault))
  }

  /** `takeTokens` as written: the user state is derived from the raw `vault` argument. */
  function TakeTokensAsWritten(c: LiquidityVaultClient, derive: FindProgramAddress, amount: nat, vault: Pubkey,
                               recipientTokenAccount: Pubkey, user: Pubkey): VaultInstruction
  {
    TakeTokens(user, amount, PayoutAccountsFor(c, derive, vault, recipientTokenAccount, user, vault))
  }

  /** `getUserState` as written, address part: the user state of (user, raw `vault`). */
  function UserStateAddressAsWritten(c: LiquidityVaultClient, derive: FindProgramAddress, user: Pubkey,
                                     vault: Pubkey): Pubkey
  {
    UserStatePda(c, derive, user, vault)
  }

  /** `withdraw` with the user state derived from the derived vault state, as `deposit` does. */
  function WithdrawInstruction(c: LiquidityVaultClient, derive: FindProgramAddress, amount: nat, vault: Pubkey,
                               recipientTokenAccount: Pubkey, user: Pubkey): VaultInstruction
  {
    Withdraw(user, amount, PayoutAccountsFor(c, derive, vault, recipientTokenAccount, user,
      VaultStatePda(c, derive, vault)))
  }

  /** `takeTokens` with the user state derived from the derived vault state, as `deposit` does. */
  function TakeTokensInstruction(c: LiquidityVaultClient, derive: FindProgramAddress, amount: nat, vault: Pubkey,
                                 recipientTokenAccount: Pubkey, user: Pubkey): VaultInstruction
  {
    TakeTokens(user, amount, PayoutAccountsFor(c, derive, vault, recipientTokenAccount, user,
      VaultStatePda(c, derive, vault)))
  }

  /** `getUserState` with the user state derived from the derived vault state, as `deposit` does. */
  function UserStateAddress(c: LiquidityVaultClient, derive: FindProgramAddress, user: Pubkey,
                            vault: Pubkey): Pubkey
  {
    UserStatePda(c, derive, user, VaultStatePda(c, derive, vault))
  }

  // ---- Properties ----

  /**
   * `initVault` derives the vault state from the mint, then the authority and
   * the token account from that vault state (not from the mint), and returns
   * the same three addresses it puts in the instruction, with the wallet as
   * payer and the system program, token program and rent sysvar after it.
   */
  lemma InitVaultChain(c: LiquidityVaultClient, derive: FindProgramAddress, mint: Pubkey, wl: Pubkey)
    ensures var r := InitVault(c, derive, mint, wl);
      && r.vaultState == derive([VAULT_STATE_SEED, mint], c.programId)
      && r.vaultAuthority == derive([VAULT_AUTHORITY_SEED, r.vaultState], c.programId)
      && r.vaultTokenAccount == derive([VAULT_TOKEN_ACCOUNT_SEED, r.vaultState], c.programId)
      && r.instruction == Initialize(wl, r.instruction.initializeAccounts)
      && r.instruction.initializeAccounts.vaultState == r.vaultState
      && r.instruction.initializeAccounts.vaultAuthority == r.vaultAuthority
      && r.instruction.initializeAccounts.vaultTokenAccount == r.vaultTokenAccount
      && r.instruction.initializeAccounts.tokenMint == mint
      && r.instruction.initializeAccounts.payer == c.walletPk
      && r.instruction.initializeAccounts.systemProgram == SYSTEM_PROGRAM_ID
      && r.instruction.initializeAccounts.tokenProgram == TOKEN_PROGRAM_ID
      && r.instruction.initializeAccounts.rent == SYSVAR_RENT_PUBKEY
  {
  }

  /**
   * Every address depends only on the seeds and the program id: two clients
   * with the same program id and different wallets derive the same vault
   * addresses and the same user states.
   */
  lemma DerivationIgnoresWallet(c1: LiquidityVaultClient, c2: LiquidityVaultClient, derive: FindProgramAddress,
                                mint: Pubkey, wl: Pubkey, user: Pubkey, vault: Pubkey)
    requires c1.programId == c2.programId
    ensures InitVault(c1, derive, mint, wl).vaultState == InitVault(c2, derive, mint, wl).vaultState
    ensures InitVault(c1, derive, mint, wl).vaultAuthority == InitVault(c2, derive, mint, wl).vaultAuthority
    ensures InitVault(c1, derive, mint, wl).vaultTokenAccount == InitVault(c2, derive, mint, wl).vaultTokenAccount
    ensures UserStateAddress(c1, derive, user, vault) == UserStateAddress(c2, derive, user, vault)
  {
  }

  /**
   * `deposit` uses the vault state and token account that `initVault` created
   * for the same mint, and the user state of (user, that vault state), the
   * user defaulting to the wallet key; the amount, the user's token account
   * and the three program accounts are passed through as given.
   */
  lemma DepositAgreesWithInitVault(c: LiquidityVaultClient, derive: FindProgramAddress, amount: nat,
                                   mint: Pubkey, wl: Pubkey, userTokenAccount: Pubkey, user: Option<Pubkey>)
    ensures var ix := DepositInstruction(c, derive, amount, mint, userTokenAccount, user);
      var init := InitVault(c, derive, mint, wl);
      var u := if user.Some? then user.value else c.walletPk;
      && ix.Deposit?
      && ix.user == u && ix.depositAccounts.user == u
      && ix.amount == amount
      && ix.depositAccounts.userTokenAccount == userTokenAccount
      && ix.depositAccounts.systemProgram == SYSTEM_PROGRAM_ID
      && ix.depositAccounts.tokenProgram == TOKEN_PROGRAM_ID
      && ix.depositAccounts.rent == SYSVAR_RENT_PUBKEY
      && ix.depositAccounts.vaultState == init.vaultState
      && ix.depositAccounts.vaultTokenAccount == init.vaultTokenAccount
      && ix.depositAccounts.userState == derive([USER_STATE_SEED, init.vaultState, u], c.programId)
      && ix.depositAccounts.userState == UserStateAddress(c, derive, u, mint)
  {
  }

  /**
   * `withdraw` and `takeTokens` build the same account map, with the program
   * id as caller, the recipient's token account and the token program, and
   * differ only in the instruction invoked; the vault state, authority and
   * token account are those `initVault` created when `vault` is the mint.
   * The corrected maps differ from the written one in the user state alone.
   */
  lemma PayoutAccountsAgree(c: LiquidityVaultClient, derive: FindProgramAddress, amount: nat, mint: Pubkey,
                            wl: Pubkey, recipient: Pubkey, user: Pubkey)
    ensures var w := WithdrawAsWritten(c, derive, amount, mint, recipient, user);
      var t := TakeTokensAsWritten(c, derive, amount, mint, recipient, user);
      var init := InitVault(c, derive, mint, wl);
      && w.Withdraw? && t.TakeTokens?
      && w.payoutAccounts == t.payoutAccounts
      && w.user == t.user == user && w.amount == t.amount == amount
      && w.payoutAccounts.caller == c.programId
      && w.payoutAccounts.recipientTokenAccount == recipient
      && w.payoutAccounts.tokenProgram == TOKEN_PROGRAM_ID
      && w.payoutAccounts.vaultState == init.vaultState
      && w.payoutAccounts.vaultAuthority == init.vaultAuthority
      && w.payoutAccounts.vaultTokenAccount == init.vaultTokenAccount
    ensures var written := WithdrawAsWritten(c, derive, amount, mint, recipient, user);
      var w := WithdrawInstruction(c, derive, amount, mint, recipient, user);
      var t := TakeTokensInstruction(c, derive, amount, mint, recipient, user);
      && w.Withdraw? && t.TakeTokens? && w.payoutAccounts == t.payoutAccounts
      && w.user == t.user == user && w.amount == t.amount == amount
      && w.payoutAccounts == written.payoutAccounts.(userState := UserStateAddress(c, derive, user, mint))
  {
  }

  /**
   * As written, `withdraw`, `takeTokens` and `getUserState` derive the user
   * state from the raw `vault` argument, so they name the user state that
   * `deposit` created for a mint and user exactly when `vault` is that mint's
   * vault-state address (given no collision between the two user-state seed
   * lists involved). With `vault` the mint, that means the mint's vault-state
   * address equals the mint itself.
   */
  lemma WithdrawAsWrittenMissesDepositUserState(c: LiquidityVaultClient, derive: FindProgramAddress, amount: nat,
                                                mint: Pubkey, vault: Pubkey, recipient: Pubkey,
                                                userTokenAccount: Pubkey, user: Pubkey)
    requires var vs := VaultStatePda(c, derive, mint);
      (derive(UserStateSeeds(user, vault), c.programId) == derive(UserStateSeeds(user, vs), c.programId)
       ==> vault == vs)
    ensures var deposited := DepositInstruction(c, derive, amount, mint, userTokenAccount, Some(user)).depositAccounts.userState;
      var vs := VaultStatePda(c, derive, mint);
      && (WithdrawAsWritten(c, derive, amount, vault, recipient, user).payoutAccounts.userState == deposited
          <==> vault == vs)
      && (TakeTokensAsWritten(c, derive, amount, vault, recipient, user).payoutAccounts.userState == deposited
          <==> vault == vs)
      && (UserStateAddressAsWritten(c, derive, user, vault) == deposited <==> vault == vs)
  {
  }

  /**
   * As written, no reading of `vault` makes `withdraw` or `takeTokens` agree
   * with both `initVault` and `deposit`: naming initVault's vault state and
   * deposit's user state at once forces the vault-state address of the
   * mint's vault-state address to be that address itself.
   */
  lemma PayoutAsWrittenInconsistent(c: LiquidityVaultClient, derive: FindProgramAddress, amount: nat,
                                    mint: Pubkey, vault: Pubkey, wl: Pubkey, recipient: Pubkey,
                                    userTokenAccount: Pubkey, user: Pubkey)
    requires var vs := VaultStatePda(c, derive, mint);
      (derive(UserStateSeeds(user, vault), c.programId) == derive(UserStateSeeds(user, vs), c.programId)
       ==> vault == vs)
    ensures var deposited := DepositInstruction(c, derive, amount, mint, userTokenAccount, Some(user)).depositAccounts.userState;
      var init := InitVault(c, derive, mint, wl);
      var w := WithdrawAsWritten(c, derive, amount, vault, recipient, user).payoutAccounts;
      var t := TakeTokensAsWritten(c, derive, amount, vault, recipient, user).payoutAccounts;
      var vs := VaultStatePda(c, derive, mint);
      && (w.vaultState == init.vaultState && w.userState == deposited ==> VaultStatePda(c, derive, vs) == vs)
      && (t.vaultState == init.vaultState && t.userState == deposited ==> VaultStatePda(c, derive, vs) == vs)
  {
  }

  /**
   * With the user state derived from the derived vault state, `withdraw`,
   * `takeTokens` and `getUserState` name exactly the user state `deposit`
   * created for the same mint and user.
   */
  lemma WithdrawMatchesDeposit(c: LiquidityVaultClient, derive: FindProgramAddress, amount: nat,
                               mint: Pubkey, recipient: Pubkey, userTokenAccount: Pubkey, user: Pubkey)
    ensures var deposited := DepositInstruction(c, derive, amount, mint, userTokenAccount, Some(user)).depositAccounts.userState;
      && WithdrawInstruction(c, derive, amount, mint, recipient, user).payoutAccounts.userState == deposited
      && TakeTokensInstruction(c, derive, amount, mint, recipient, user).payoutAccounts.userState == deposited
      && UserStateAddress(c, derive, user, mint) == deposited
  {
  }
}
