/**
 * Solana account keys and the well-known program identities the clients
 * name, plus the shape of program-address derivation.
 */
module Solana {
  import opened Bytes

  /** A Solana public key in its 32-byte form (`toBuffer()`). */
  type Pubkey = Bytes32

  /** `SystemProgram.programId`, base-58 "11111111111111111111111111111111". */
  const SYSTEM_PROGRAM_ID: Pubkey := [
    0x00, 0x00, 0x00, 0x00, 0x00, 0x00, 0x00, 0x00, 0x00, 0x00, 0x00, 0x00, 0x00, 0x00, 0x00, 0x00,
    0x00, 0x00, 0x00, 0x00, 0x00, 0x00, 0x00, 0x00, 0x00, 0x00, 0x00, 0x00, 0x00, 0x00, 0x00, 0x00]

  /** `TOKEN_PROGRAM_ID`, base-58 "TokenkegQfeZyiNwAJbNbGKPFXCWuBvf9Ss623VQ5DA". */
  const TOKEN_PROGRAM_ID: Pubkey := [
    0x06, 0xdd, 0xf6, 0xe1, 0xd7, 0x65, 0xa1, 0x93, 0xd9, 0xcb, 0xe1, 0x46, 0xce, 0xeb, 0x79, 0xac,
    0x1c, 0xb4, 0x85, 0xed, 0x5f, 0x5b, 0x37, 0x91, 0x3a, 0x8c, 0xf5, 0x85, 0x7e, 0xff, 0x00, 0xa9]

  /** `ASSOCIATED_TOKEN_PROGRAM_ID`, base-58 "ATokenGPvbdGVxr1b2hvZbsiqW5xWH25efTNsLJA8knL". */
  const ASSOCIATED_TOKEN_PROGRAM_ID: Pubkey := [
    0x8c, 0x97, 0x25, 0x8f, 0x4e, 0x24, 0x89, 0xf1, 0xbb, 0x3d, 0x10, 0x29, 0x14, 0x8e, 0x0d, 0x83,
    0x0b, 0x5a, 0x13, 0x99, 0xda, 0xff, 0x10, 0x84, 0x04, 0x8e, 0x7b, 0xd8, 0xdb, 0xe9, 0xf8, 0x59]

  /** `SYSVAR_RENT_PUBKEY`, base-58 "SysvarRent111111111111111111111111111111111". */
  const SYSVAR_RENT_PUBKEY: Pubkey := [
    0x06, 0xa7, 0xd5, 0x17, 0x19, 0x2c, 0x5c, 0x51, 0x21, 0x8c, 0xc9, 0x4c, 0x3d, 0x4a, 0xf1, 0x7f,
    0x58, 0xda, 0xee, 0x08, 0x9b, 0xa1, 0xfd, 0x44, 0xe3, 0xdb, 0xd9, 0x8a, 0x00, 0x00, 0x00, 0x00]

  /**
   * `PublicKey.findProgramAddress(seeds, programId)`, address part only: a
   * deterministic function of the seed list and the program id. Its hash,
   * bump search and off-curve test are library code, so the model receives
   * it as a parameter and assumes nothing about it beyond its type.
   */
  type FindProgramAddress = (seq<seq<byte>>, Pubkey) -> Pubkey
}
