/** The venue contract's data types: requests, quotes and errors. */
module TradingVenue {
  import opened Base

  /** A 32-byte account address, as the number its bytes spell. */
  type Pubkey = nat

  datatype SwapType = ExactIn | ExactOut

  datatype QuoteRequest = QuoteRequest(
    inputMint: Pubkey,
    outputMint: Pubkey,
    amount: u64,
    swapType: SwapType)

  /** Prices are exact reals here where the source rounds to `f64`. */
  datatype QuoteResult = QuoteResult(
    inputMint: Pubkey,
    outputMint: Pubkey,
    amount: u64,
    expectedOutput: u64,
    notEnoughLiquidity: bool,
    price: real)

  datatype VenueError =
    | NoAccountFound(key: Pubkey)
    | FailedToFetchMultipleAccountData
    | FailedToFetchAccount
    | DeserializationFailed
    | MissingState
    | NotInitialized(key: Pubkey)
    | InvalidMint(key: Pubkey)
    | ExactOutNotSupported
    | BoundarySearchFailed
    | NoQuotableValue
}
