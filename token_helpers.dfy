/**
 * The associated-token-account helpers: the address of an owner's token
 * account for a mint, the idempotent create instruction, and reading the
 * mint out of a token account's data.
 */
module TokenHelpers {
  import opened Wrappers
  import opened Bytes
  import opened Solana

  datatype AccountMeta = AccountMeta(pubkey: Pubkey, isSigner: bool, isWritable: bool)

  datatype TransactionInstruction = TransactionInstruction(
    keys: seq<AccountMeta>,
    programId: Pubkey,
    data: seq<byte>)

  datatype HelperError =
    | TokenOwnerOffCurve  // "TokenOwnerOffCurve!"
    | AccountNotFound     // "Account not found"

  /** The seeds of an associated token account: owner first, mint last. */
  function AtaSeeds(mint: Pubkey, owner: Pubkey, programId: Pubkey): seq<seq<byte>> {
    [owner, programId, mint]
  }

  /**
   * `getAssociatedTokenAddress`. `isOnCurve` is `PublicKey.isOnCurve`,
   * library code passed in like the derivation.
   */
  function GetAssociatedTokenAddress(derive: FindProgramAddress, isOnCurve: Pubkey -> bool,
                                     mint: Pubkey, owner: Pubkey, allowOwnerOffCurve: bool,
                                     programId: Pubkey, associatedTokenProgramId: Pubkey): (r: Result<Pubkey, HelperError>)
  {
    if !allowOwnerOffCurve && !isOnCurve(owner) then Err(TokenOwnerOffCurve)
    else Ok(derive(AtaSeeds(mint, owner, programId), associatedTokenProgramId))
  }

  /**
   * The address fails with TokenOwnerOffCurve exactly when off-curve owners
   * are refused and the owner is off the curve; otherwise it is the address
   * derived under the associated-token program from (owner, token program,
   * mint), in that order.
   */
  lemma AssociatedTokenAddressSpec(derive: FindProgramAddress, isOnCurve: Pubkey -> bool,
                                   mint: Pubkey, owner: Pubkey, allowOwnerOffCurve: bool,
                                   programId: Pubkey, associatedTokenProgramId: Pubkey)
    ensures var r := GetAssociatedTokenAddress(derive, isOnCurve, mint, owner, allowOwnerOffCurve,
                                               programId, associatedTokenProgramId);
      && (r == Err(TokenOwnerOffCurve) <==> !allowOwnerOffCurve && !isOnCurve(owner))
      && (r.Ok? ==> r.value == derive([owner, programId, mint], associatedTokenProgramId))
  {
  }

  /**
   * Distinct (owner, mint) pairs under one token program get distinct seed
   * lists, so, when the derivation does not collide on those two lists,
   * distinct associated token addresses.
   */
  lemma AssociatedTokenAddressDistinct(derive: FindProgramAddress, isOnCurve: Pubkey -> bool,
                                       mint1: Pubkey, owner1: Pubkey, mint2: Pubkey, owner2: Pubkey,
                                       allowOwnerOffCurve: bool, programId: Pubkey, associatedTokenProgramId: Pubkey)
    requires derive(AtaSeeds(mint1, owner1, programId), associatedTokenProgramId)
               == derive(AtaSeeds(mint2, owner2, programId), associatedTokenProgramId)
             ==> AtaSeeds(mint1, owner1, programId) == AtaSeeds(mint2, owner2, programId)
    ensures var r1 := GetAssociatedTokenAddress(derive, isOnCurve, mint1, owner1, allowOwnerOffCurve,
                                                programId, associatedTokenProgramId);
      var r2 := GetAssociatedTokenAddress(derive, isOnCurve, mint2, owner2, allowOwnerOffCurve,
                                          programId, associatedTokenProgramId);
      r1.Ok? && r2.Ok? && r1.value == r2.value ==> mint1 == mint2 && owner1 == owner2
  {
    var s1, s2 := AtaSeeds(mint1, owner1, programId), AtaSeeds(mint2, owner2, programId);
    if s1 == s2 {
      assert s1[0] == s2[0] && s1[2] == s2[2];
    }
  }

  /** With the defaults (off-curve owners allowed, the standard programs) the address never fails. */
  function DefaultAssociatedTokenAddress(derive: FindProgramAddress, isOnCurve: Pubkey -> bool,
                                         mint: Pubkey, owner: Pubkey): (a: Pubkey)
    ensures GetAssociatedTokenAddress(derive, isOnCurve, mint, owner, true, TOKEN_PROGRAM_ID,
                                      ASSOCIATED_TOKEN_PROGRAM_ID) == Ok(a)
  {
    GetAssociatedTokenAddress(derive, isOnCurve, mint, owner, true, TOKEN_PROGRAM_ID,
                              ASSOCIATED_TOKEN_PROGRAM_ID).value
  }

  /** `createAssociatedTokenAccountIdempotentInstruction`. */
  function CreateAssociatedTokenAccountIdempotentInstruction(derive: FindProgramAddress, isOnCurve: Pubkey -> bool,
                                                              payer: Pubkey, owner: Pubkey, mint: Pubkey): TransactionInstruction
  {
    var account := DefaultAssociatedTokenAddress(derive, isOnCurve, mint, owner);
    TransactionInstruction(
      [ AccountMeta(payer, true, true),
        AccountMeta(account, false, true),
        AccountMeta(owner, false, false),
        AccountMeta(mint, false, false),
        AccountMeta(SYSTEM_PROGRAM_ID, false, false),
        AccountMeta(TOKEN_PROGRAM_ID, false, false) ],
      ASSOCIATED_TOKEN_PROGRAM_ID,
      [0x01])
  }

  function Keys(metas: seq<AccountMeta>): (r: seq<Pubkey>)
    ensures |r| == |metas|
    ensures forall i :: 0 <= i < |metas| ==> r[i] == metas[i].pubkey
  {
    if metas == [] then [] else [metas[0].pubkey] + Keys(metas[1..])
  }

  /** The keys that must sign, in order. */
  function SignerKeys(metas: seq<AccountMeta>): (r: seq<Pubkey>)
    ensures |r| <= |metas|
    ensures forall k :: k in r ==> exists m :: m in metas && m.isSigner && m.pubkey == k
  {
    if metas == [] then []
    else (if metas[0].isSigner then [metas[0].pubkey] else []) + SignerKeys(metas[1..])
  }

  /** The keys the instruction may write, in order. */
  function WritableKeys(metas: seq<AccountMeta>): (r: seq<Pubkey>)
    ensures |r| <= |metas|
    ensures forall k :: k in r ==> exists m :: m in metas && m.isWritable && m.pubkey == k
  {
    if metas == [] then []
    else (if metas[0].isWritable then [metas[0].pubkey] else []) + WritableKeys(metas[1..])
  }

  /**
   * The idempotent create instruction targets the associated-token program
   * with the single data byte 1, and lists exactly six keys in the order
   * payer, token account, owner, mint, system program, token program; only
   * the payer signs, and only the payer and the token account are writable.
   * The token account is the default associated token address of (mint, owner).
   */
  lemma IdempotentInstructionShape(derive: FindProgramAddress, isOnCurve: Pubkey -> bool,
                                   payer: Pubkey, owner: Pubkey, mint: Pubkey)
    ensures var ix := CreateAssociatedTokenAccountIdempotentInstruction(derive, isOnCurve, payer, owner, mint);
      var ata := derive([owner, TOKEN_PROGRAM_ID, mint], ASSOCIATED_TOKEN_PROGRAM_ID);
      && ix.programId == ASSOCIATED_TOKEN_PROGRAM_ID
      && ix.data == [0x01]
      && Keys(ix.keys) == [payer, ata, owner, mint, SYSTEM_PROGRAM_ID, TOKEN_PROGRAM_ID]
      && SignerKeys(ix.keys) == [payer]
      && WritableKeys(ix.keys) == [payer, ata]
  {
    var ix := CreateAssociatedTokenAccountIdempotentInstruction(derive, isOnCurve, payer, owner, mint);
    var ks := ix.keys;
    assert ks[6..] == [];
    assert SignerKeys(ks[5..]) == [] && WritableKeys(ks[5..]) == [] by { assert ks[5..][1..] == ks[6..]; }
    assert SignerKeys(ks[4..]) == [] && WritableKeys(ks[4..]) == [] by { assert ks[4..][1..] == ks[5..]; }
    assert SignerKeys(ks[3..]) == [] && WritableKeys(ks[3..]) == [] by { assert ks[3..][1..] == ks[4..]; }
    assert SignerKeys(ks[2..]) == [] && WritableKeys(ks[2..]) == [] by { assert ks[2..][1..] == ks[3..]; }
    assert ks[1..][1..] == ks[2..];
  }

  /**
   * The key built from at most 32 bytes: `new PublicKey(bytes)` reads them as
   * a big-endian number, so fewer than 32 bytes come back left-padded with zeros.
   */
  function KeyFromBytes(b: seq<byte>): (k: Pubkey)
    requires |b| <= 32
    ensures k[32 - |b|..] == b
    ensures forall i :: 0 <= i < 32 - |b| ==> k[i] == 0
  {
    seq(32 - |b|, _ => 0) + b
  }

  /**
   * `checkMintOfATA`, with `getAccountInfo`'s answer passed in as the account
   * data (None when the account does not exist): the base-58 text of the key
   * in the first 32 bytes of the data.
   */
  function CheckMintOfAta(accountData: Option<seq<byte>>, base58: Pubkey -> string): (r: Result<string, HelperError>)
  {
    match accountData
    case None => Err(AccountNotFound)
    case Some(data) => Ok(base58(KeyFromBytes(data[..if |data| < 32 then |data| else 32])))
  }

  /**
   * `checkMintOfATA` fails with "Account not found" exactly when the account
   * is absent; for a token account whose data starts with the mint key, it
   * returns that key's base-58 text whatever follows.
   */
  lemma CheckMintOfAtaSpec(mint: Pubkey, rest: seq<byte>, base58: Pubkey -> string, accountData: Option<seq<byte>>)
    ensures CheckMintOfAta(accountData, base58) == Err(AccountNotFound) <==> accountData.None?
    ensures CheckMintOfAta(Some(mint + rest), base58) == Ok(base58(mint))
  {
    var d := mint + rest;
    assert d[..32] == mint;
    assert KeyFromBytes(d[..32]) == mint;
  }
}
