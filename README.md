# Fermi order-intent protocol: a Dafny model

This project models the byte-exact core of the Fermi hybrid SDK. An off-chain matching service and an on-chain custody program must reproduce this core bit for bit. It has three parts:

- **The Order Intent codec** (`src/sequencer/OrderIntent.ts`). An order intent is eight fields in a fixed Borsh layout of 129 bytes: `order_id` (u64), `owner` (32-byte key), `side` (u8), `price`, `quantity` and `expiry` (u64), `base_mint` and `quote_mint` (32-byte keys). It has no length prefixes, and the integers are little-endian. `deserialize` reads the layout back: a side byte of 0 is Buy and any other value is Sell. `toJSON` renders the intent as JSON.
- **The signing payload** (`placeOrderIntent` in `src/sequencer/sequencer.client.ts`). The message is ASCII `FRM_DEX_ORDER` followed by the encoded intent. The client computes its SHA-256 digest and takes the digest's lowercase hex text (section 8 of RFC 4648). It then signs the ASCII bytes of that text with Ed25519 (section 5.1.6 of RFC 8032). The signing key is the first 32 bytes of the keypair's secret key. The request body is the intent's JSON plus the signature's hex text.
- **The custody address scheme** (`src/vault/vault.client.ts`, `src/utils/helpers.ts`). It covers the program-derived addresses of the vault state, vault authority, vault token account and user state. It also covers the associated token account, the account maps of the `initialize`, `deposit`, `withdraw` and `take_tokens` instructions, the idempotent create-token-account instruction, and reading a mint out of token-account data.

The core is pure, so the model is datatypes, functions and lemmas. Library code the source calls but does not contain becomes function-typed parameters:

- `sha256: seq<byte> -> Bytes32` and `ed25519Sign: (seq<byte>, Bytes32) -> Signature` (64 bytes);
- `base58: Pubkey -> string`;
- `PublicKey.findProgramAddress` as `FindProgramAddress = (seq<seq<byte>>, Pubkey) -> Pubkey`;
- `PublicKey.isOnCurve` as `Pubkey -> bool`.

The operations assume nothing about these beyond their types; determinism comes from the fact that they are functions. A lemma that needs more states it as a `requires`: `ToJsonInjective` assumes an injective base-58 text, and the as-written vault lemmas and `AssociatedTokenAddressDistinct` assume that the derivation does not collide on the two seed lists they compare.

Files:

- `wrappers.dfy`: Option and Result.
- `bytes.dfy`: bytes, little-endian integers and ASCII text.
- `hex.dfy`: lowercase base-16 text and its inverse.
- `solana.dfy`: keys and the well-known program ids.
- `order_intent.dfy`: the codec and the JSON rendering.
- `sequencer_client.dfy`: the signing pipeline and the request body.
- `vault_client.dfy`: vault addresses and instruction account maps.
- `token_helpers.dfy`: the associated-token-account helpers.

What the code does and does not check:

- **Decoding.** `deserialize` checks neither the buffer's length nor the side byte. Bytes after the first 129 are ignored, and every side byte other than 0 decodes as Sell.
- **Validation.** `placeOrderIntent` does not refuse a zero price or quantity before signing.
- **Local verification and cancel intents.** The sign-then-verify step of `placeOrderIntent` is commented out, and `cancelOrderIntent` is empty.
- **Prefix.** `placeOrderIntent` signs with the literal prefix `FRM_DEX_ORDER`. The exported constant `FERMI_DEX_ORDER_PREFIX` is `FRM_DEX_ORDER:`, with a colon. The model keeps both and proves how they diverge (`PrefixDivergence`, `ExportedPrefixReader`).

The side encoding: the code as written stores the side string in the `u8` slot, which becomes byte 0 for both sides (see Findings). `Serialize`, and with it the whole signing model (`SignedPayload`, `PlaceOrderRequest`, `BodyMatchesSignedIntent`), uses the evidently intended encoding Buy 0 / Sell 1, which `deserialize` reads back. `SellRequestSignsBuy` states what the code as written does to a Sell request: the body says "Sell" while the signed bytes decode to a Buy intent.

The request's numbers: the parameters of `placeOrderIntent` are JavaScript numbers, and `new BN(n)` refuses n of 2^53 or more while the intent is being built (`src/sequencer/sequencer.client.ts`, lines 104 and 107-109). `PlaceOrderRequest` models that as its one error, `UnsafeNumber`. Past that check the encoder's 2^64 bound and `toNumber()`'s 2^53 bound in the body cannot fail.

## Model

| member | source | states |
|---|---|---|
| Bytes.AsciiBytes | src/sequencer/sequencer.client.ts:117 | The bytes `Buffer.from` gives for an ASCII text, used for the prefix and the hex payload (lines 117 and 134-135): one byte per character, equal to its code point. |
| Bytes.LeBytes | src/sequencer/OrderIntent.ts:27 | The n little-endian bytes of a u64 field; exactly n of them, inverted by LeValue (LeValueOfLeBytes, LeBytesOfLeValue). |
| Bytes.LeValue | src/sequencer/OrderIntent.ts:50 | The value of a little-endian field; always below 256^n for n bytes. |
| Bytes.LeValueOfLeBytes | src/sequencer/OrderIntent.ts:27-32 | Reading back n little-endian bytes of a value below 256^n gives the value. |
| Bytes.LeBytesOfLeValue | src/sequencer/OrderIntent.ts:47-55 | Re-encoding the value read from a byte string reproduces the byte string. |
| Bytes.LeBytesAt | src/sequencer/OrderIntent.ts:27-32 | Byte i of a little-endian field holding v is (v / 256^i) % 256. |
| Hex.Encode | src/sequencer/sequencer.client.ts:127 | The hex text of n bytes has 2n characters, all from 0-9a-f. |
| Hex.EncodeAt | src/sequencer/sequencer.client.ts:127 | Characters 2i and 2i+1 are the high and low nibble of byte i, high nibble first. |
| Hex.DecodeEncode | src/sequencer/sequencer.client.ts:127 | Decoding the hex text of any byte string gives that byte string back. |
| Hex.EncodeInjective | src/sequencer/sequencer.client.ts:139 | Distinct byte strings have distinct hex texts. |
| OrderIntentCodec.Layout | src/sequencer/OrderIntent.ts:24-38 | The 129-byte struct layout with a given side byte; LayoutFields places each field. |
| OrderIntentCodec.SideByte | src/sequencer/OrderIntent.ts:29 | The intended side byte, Buy 0 and Sell 1: the decoder reads it back as the same side. |
| OrderIntentCodec.SideOfByte | src/sequencer/OrderIntent.ts:52 | The decoded side is Buy exactly when the byte is 0. |
| OrderIntentCodec.Serialize | src/sequencer/OrderIntent.ts:40-44 | A successful encoding is exactly 129 bytes. |
| OrderIntentCodec.SerializeLayout | src/sequencer/OrderIntent.ts:24-44 | Encoding succeeds exactly when all four u64 fields are below 2^64. Each field then sits at its fixed offset: order_id [0,8), owner [8,40), side at 40 (Buy 0, Sell 1), price [41,49), quantity [49,57), expiry [57,65), base_mint [65,97), quote_mint [97,129). |
| OrderIntentCodec.SerializeLittleEndian | src/sequencer/OrderIntent.ts:27-32 | Byte i of each encoded u64 field is (v / 256^i) % 256 of the field's value. |
| OrderIntentCodec.Deserialize | src/sequencer/OrderIntent.ts:47-59 | Every decoded u64 field is below 2^64. |
| OrderIntentCodec.RoundTrip | src/sequencer/OrderIntent.ts:40-59 | Decoding the encoding of any intent whose u64 fields fit gives the intent back. |
| OrderIntentCodec.DeserializeTotal | src/sequencer/OrderIntent.ts:47-59 | Decoding fails only on a buffer shorter than 129 bytes. It never rejects a side byte: 0 is Buy and every other value is Sell. Bytes after the first 129 do not affect it. |
| OrderIntentCodec.ReencodeIff | src/sequencer/OrderIntent.ts:40-59 | Re-encoding a decoded buffer reproduces its first 129 bytes if and only if the side byte is 0 or 1. |
| OrderIntentCodec.SerializeAsWritten | src/sequencer/OrderIntent.ts:40-44 | The encoder as written, with the side string coerced into the u8 slot, still gives 129 bytes. |
| OrderIntentCodec.WrittenSideByte | src/sequencer/OrderIntent.ts:29 | The byte the side string becomes as written; the decoder reads it as Buy whatever the side. |
| OrderIntentCodec.SellEncodedAsBuy | src/sequencer/OrderIntent.ts:29 | As written, a Sell intent encodes to the same bytes as the matching Buy intent and decodes as Buy, not as itself. |
| OrderIntentCodec.SideName | src/sequencer/OrderIntent.ts:7-10 | The side's text is "Buy" for Buy and "Sell" for Sell, and nothing else. |
| OrderIntentCodec.ToJson | src/sequencer/OrderIntent.ts:61-72 | The JSON of an intent; its partner is ToJsonInjective. |
| OrderIntentCodec.ToJsonInjective | src/sequencer/OrderIntent.ts:61-72 | The JSON carries all eight fields. For intents whose u64 fields are below 2^53, where `Number()` is exact, and with an injective base-58 text, distinct intents render to distinct JSON. |
| SequencerClient.IntentOf | src/sequencer/sequencer.client.ts:103-112 | The intent built positionally from the call parameters (pinned field by field in RequestBody). |
| SequencerClient.Message | src/sequencer/sequencer.client.ts:116-118 | The message is the prefix followed by the encoding: its length is their sum and its two parts are exactly the prefix and the encoding. |
| SequencerClient.SigningPayload | src/sequencer/sequencer.client.ts:123-127 | The signed payload is 64 bytes long; PayloadIsHexOfDigest gives each byte. |
| SequencerClient.SigningKey | src/sequencer/sequencer.client.ts:136 | The first 32 bytes of the secret key; OnlySeedSigns shows the rest is unused. |
| SequencerClient.SignedPayload | src/sequencer/sequencer.client.ts:116-134 | The payload for an intent, or the encoder's error; tied to the message by BodyMatchesSignedIntent. |
| SequencerClient.PlaceOrderRequest | src/sequencer/sequencer.client.ts:103-172 | The posted body, or UnsafeNumber when `new BN` refuses a parameter of 2^53 or more while the intent is built; RequestBody states both. |
| SequencerClient.MessageLayout | src/sequencer/sequencer.client.ts:116-118 | The pre-hash message is 142 bytes: the 13 prefix bytes, then exactly the 129-byte encoded intent, which decodes back to the intent. |
| SequencerClient.MessageInjective | src/sequencer/sequencer.client.ts:103-118 | Distinct intents give distinct pre-hash messages. |
| SequencerClient.PrefixDivergence | src/sequencer/sequencer.client.ts:117 | Messages built with "FRM_DEX_ORDER" and with the exported "FRM_DEX_ORDER:" never coincide for encodings of equal length. For intents they are 142 and 143 bytes long. |
| SequencerClient.ExportedPrefixReader | src/constants.ts:1 | This client's message starts with "FRM_DEX_ORDER:" exactly when order_id's low byte is 58. Even then, a reader that strips that prefix is left with 128 bytes, one short of the layout: this model's decoder, like any strict Borsh reader, rejects them. |
| SequencerClient.PayloadIsHexOfDigest | src/sequencer/sequencer.client.ts:123-135 | The signed bytes are 64 ASCII characters from 0-9a-f: byte 2i is the digit of digest byte i's high nibble and byte 2i+1 that of its low nibble. |
| SequencerClient.RequestBody | src/sequencer/sequencer.client.ts:103-172 | The request fails, with UnsafeNumber, exactly when one of order_id, price, quantity and expiry is 2^53 or more; an intent that passes always encodes. A successful request's signature is the 128-character hex text of the Ed25519 signature over the payload, keyed by secretKey[0..32). Its intent is the JSON of the intent built positionally from the parameters, with the side as "Buy"/"Sell" and the keys in base-58. |
| SequencerClient.BodyMatchesSignedIntent | src/sequencer/sequencer.client.ts:103-172 | Under the Buy 0 / Sell 1 encoding, the body's intent is the JSON of the intent decoded from the signed message's encoded part. |
| SequencerClient.OnlySeedSigns | src/sequencer/sequencer.client.ts:136 | Secret keys that agree on their first 32 bytes give the same request. The remaining 32 bytes are never used. |
| SequencerClient.SellRequestSignsBuy | src/sequencer/sequencer.client.ts:116-172 | As written, a Sell request posts a body whose side is "Sell" while its signed message decodes to a Buy intent whose JSON differs from the body's. |
| VaultClient.VaultStatePda | src/vault/vault.client.ts:88-93 | The vault-state address of a mint, derived from ["vault_state", mint]. |
| VaultClient.VaultAuthorityPda | src/vault/vault.client.ts:98-105 | The vault-authority address, derived from ["vault_authority", vaultState]. |
| VaultClient.UserStatePda | src/vault/vault.client.ts:110-118 | The user-state address, derived from ["user_state", vaultState, user]. |
| VaultClient.VaultTokenAccountPda | src/vault/vault.client.ts:120-125 | The vault token account, derived from ["vault_token_account", vaultState]. |
| VaultClient.InitVault | src/vault/vault.client.ts:130-161 | The initialize instruction and the three addresses it returns; InitVaultChain states them. |
| VaultClient.DepositInstruction | src/vault/vault.client.ts:167-198 | The deposit instruction; DepositAgreesWithInitVault ties it to initVault. |
| VaultClient.PayoutAccountsFor | src/vault/vault.client.ts:210-232 | The account map shared by withdraw and takeTokens, with the user state derived from a given vault key. |
| VaultClient.WithdrawAsWritten | src/vault/vault.client.ts:204-233 | withdraw as written; WithdrawAsWrittenMissesDepositUserState and PayoutAsWrittenInconsistent state its user state. |
| VaultClient.TakeTokensAsWritten | src/vault/vault.client.ts:243-265 | takeTokens as written, with the same account map as withdraw (PayoutAccountsAgree). |
| VaultClient.UserStateAddressAsWritten | src/vault/vault.client.ts:283-285 | The address getUserState fetches, derived from the raw `vault`. |
| VaultClient.WithdrawInstruction | src/vault/vault.client.ts:204-233 | withdraw with the user state derived as deposit does; WithdrawMatchesDeposit states it. |
| VaultClient.TakeTokensInstruction | src/vault/vault.client.ts:243-265 | takeTokens with the user state derived as deposit does. |
| VaultClient.UserStateAddress | src/vault/vault.client.ts:283-285 | getUserState's address with the user state derived as deposit does. |
| VaultClient.SeedListsDistinct | src/vault/vault.client.ts:88-125 | The vault-state, vault-authority, vault-token-account and user-state seed lists are pairwise distinct for any keys. |
| VaultClient.InitVaultChain | src/vault/vault.client.ts:136-161 | The vault state is derived from ["vault_state", mint]. The authority and the token account are derived from ["vault_authority", vaultState] and ["vault_token_account", vaultState]. The three returned addresses are the ones in the initialize accounts, with the mint as token mint, the wallet as payer, and the system program, token program and rent sysvar as the program accounts. |
| VaultClient.DerivationIgnoresWallet | src/vault/vault.client.ts:34-40 | Clients with the same program id derive the same vault and user-state addresses, whatever their wallets. |
| VaultClient.DepositAgreesWithInitVault | src/vault/vault.client.ts:167-198 | Deposit uses initVault's vault state and token account for the same mint. Its user state is derived from ["user_state", vaultState, user]. The user defaults to the wallet key. The amount and the user's token account are passed through, and the system program, token program and rent sysvar fill the program accounts. |
| VaultClient.PayoutAccountsAgree | src/vault/vault.client.ts:204-270 | Withdraw and takeTokens build identical account maps with caller = program id, the recipient's token account and the token program, and carry the same user and amount. Their vault state, authority and token account are initVault's when `vault` is the mint. The corrected maps equal the written one except for the user state, which is UserStateAddress. |
| VaultClient.WithdrawAsWrittenMissesDepositUserState | src/vault/vault.client.ts:212 | As written, with no collision between the two user-state seed lists, withdraw, takeTokens and getUserState name the user state deposit created for a mint exactly when `vault` is that mint's vault-state address. |
| VaultClient.WithdrawMatchesDeposit | src/vault/vault.client.ts:173-174 | Deriving the user state from the derived vault state, withdraw, takeTokens and getUserState name exactly deposit's user state. |
| VaultClient.PayoutAsWrittenInconsistent | src/vault/vault.client.ts:210-212 | As written, if withdraw or takeTokens named both initVault's vault state and deposit's user state, the vault-state address of the mint's vault-state address would be that address itself; so, unless the vault-state derivation has a fixed point there, no reading of `vault` makes them agree with both. |
| TokenHelpers.GetAssociatedTokenAddress | src/utils/helpers.ts:28-44 | The associated token address or TokenOwnerOffCurve; AssociatedTokenAddressSpec and AssociatedTokenAddressDistinct state it. |
| TokenHelpers.AssociatedTokenAddressDistinct | src/utils/helpers.ts:38-41 | With no collision in the derivation, equal successful addresses under one token program mean the same owner and the same mint. |
| TokenHelpers.AssociatedTokenAddressSpec | src/utils/helpers.ts:28-44 | The address fails with TokenOwnerOffCurve exactly when off-curve owners are refused and the owner is off-curve. Otherwise it is derived from [owner, tokenProgram, mint] under the associated-token program. |
| TokenHelpers.DefaultAssociatedTokenAddress | src/utils/helpers.ts:31-33 | With the default flags and programs the address never fails. |
| TokenHelpers.IdempotentInstructionShape | src/utils/helpers.ts:46-68 | The instruction targets the associated-token program with data [0x01]. Its six keys are, in order, payer, ata, owner, mint, system program and token program. Only the payer signs; only the payer and the ata are writable. The ata is the default associated token address. |
| TokenHelpers.CreateAssociatedTokenAccountIdempotentInstruction | src/utils/helpers.ts:46-68 | The idempotent create instruction; IdempotentInstructionShape states its shape. |
| TokenHelpers.KeyFromBytes | src/utils/helpers.ts:139 | A key built from at most 32 bytes ends with those bytes, left-padded with zeros. |
| TokenHelpers.CheckMintOfAtaSpec | src/utils/helpers.ts:128-145 | It fails with "Account not found" exactly when the account is absent. For data starting with a mint key, it returns that key's base-58 text whatever follows. |
| TokenHelpers.CheckMintOfAta | src/utils/helpers.ts:128-145 | The mint text of a token account or "Account not found"; CheckMintOfAtaSpec states both. |

## Left out

- HTTP transport: the POST in `placeOrderIntent`, `getOrderbook`, the empty `cancelOrderIntent` and the `baseUrl` field are network I/O. The model stops at the request body.
- Transaction sending and RPC: `sendAndConfirmTransaction`, the account fetches of `getVaultState`/`getUserState`, and the spl-token wrappers in `src/utils/helpers.ts` are excluded. So are `createMint`, `checkOrCreateAssociatedTokenAccount`, `createAssociatedTokenAccount`, `mintTo` and `fetchTokenBalance`. Instructions are modelled as values and never sent. `getUserState` is modelled only for the address it fetches.
- Anchor's encoding of instruction data and its ordering of named accounts: the program IDL (`fermi_vault.ts`) is not part of this model. Account maps are records with named fields, and amounts are unbounded naturals.
- The cryptography: SHA-256, SHA-512, Ed25519 arithmetic, the bump search and curve test inside `findProgramAddress`, and base-58 are function parameters. Only their output lengths are known.
- Signature verification and the global SHA-512 hook: the local verify step is commented out in the source, and the hook is process-wide library configuration.
- Number conversions: the call parameters of `placeOrderIntent` are JS numbers; the model takes them as exact naturals and models `new BN(n)`'s refusal of n of 2^53 or more as `UnsafeNumber`. The amounts of `deposit`, `withdraw` and `takeTokens` also reach `new BN(amount)`; the model keeps them as unbounded naturals and does not model that refusal, and a JS number above 2^53 may already be inexact before it gets there. `Number()` in `toJSON` rounds values of 2^53 and more to the nearest double; `ToJson` keeps them exact.
- OrderIntentCodec.ToJson: keeps order_id, price, quantity and expiry exact. `toJSON` passes them through `Number()`, which rounds values of 2^53 and more to the nearest double.
- OrderIntentCodec.ToJsonInjective: stated only for u64 fields below 2^53. In the source, two intents differing only in order_id 2^53 and 2^53+1 render the same JSON, because `Number()` rounds both to 2^53.
- `initVault`'s default whitelisted program is a base-58 literal whose bytes would need a base-58 decoder. Callers pass the program explicitly.
- Keypair loading, scripts, tests, `src/client.ts` and `src/types.d.ts` are filesystem reads, devnet scripts, a stub and type declarations.
- OrderIntentCodec.Deserialize: rejects every buffer shorter than 129 bytes with BufferTooShort. The layout library's own handling of short buffers is library code outside this model.
- SequencerClient.PayloadIsHexOfDigest: states nothing about the digest beyond its length, because SHA-256 is a parameter. The same goes for the signature in SequencerClient.RequestBody.
- VaultClient.WithdrawAsWrittenMissesDepositUserState: assumes no collision between the two user-state seed lists involved. Collision resistance belongs to the derivation, which is a parameter.
- VaultClient.PayoutAsWrittenInconsistent: assumes the same absence of collision.
- TokenHelpers.AssociatedTokenAddressDistinct: assumes no collision between the two associated-token seed lists compared.

## Findings

| source | as written | input that shows it | evidently intended | confidence | as-written member | corrected member |
|---|---|---|---|---|---|---|
| src/sequencer/OrderIntent.ts:29 | The u8 `side` slot receives the OrderSide string ("Buy"/"Sell"). The byte buffer converts it to a number, gets NaN and stores 0, so both sides encode as 0. | Any intent with side = Sell: it encodes like the Buy intent and decodes (line 52) as Buy | Sell encodes as 1, the mapping line 52 reads back | medium, not executed; rests on the runtime's numeric conversion of a string written into a byte buffer | OrderIntentCodec.SellEncodedAsBuy | OrderIntentCodec.RoundTrip |
| src/vault/vault.client.ts:212 | `withdraw` passes `vault` to `getVaultStatePDA` as a mint (line 210), then derives the user state from that raw `vault` instead of the derived vault state. `takeTokens` (line 251) does the same, so whichever of the mint or the vault state the caller passes, one of the two derivations disagrees with `initVault`/`deposit`. `getUserState` (line 284) also derives from `vault`; it names deposit's account only when callers pass the vault-state address. | Any mint whose vault-state address differs from the mint: withdraw called with the mint names a different user-state account from the one deposit (line 174) created; called with the vault-state address, it names a different vault state from initVault's | User state derived from (user, derived vault state), as in `deposit` | medium, not executed | VaultClient.WithdrawAsWrittenMissesDepositUserState | VaultClient.WithdrawMatchesDeposit |
