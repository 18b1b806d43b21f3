/** The route's wire types, shared by the off-chain builder (src/swap_route/mod.rs)
    and the on-chain program (program-template state.rs), which keep them identical. */
module RouteTypes {
  import opened Base
  import opened Bytes
  import opened TradingVenue

  const MAX_SWAPS := 12
  const MAX_MINTS := 12
  const WEIGHT_ALL := 1_000_000_000

  datatype Venue = Quay(sellBase: bool)

  datatype SwapSpec = SwapSpec(venue: Venue, from: u8, to: u8, weightNanos: u32, nAccounts: u8)

  datatype AccountMeta = AccountMeta(pubkey: Pubkey, isSigner: bool, isWritable: bool)

  datatype Instruction = Instruction(programId: Pubkey, accounts: seq<AccountMeta>, data: bytes)
}
