/** Quoting and swap building off the venue's state (src/quay/quote.rs, src/quay/swap.rs).
    The curve simulator and the SDK's instruction builder are foreign: parameters here. */
module QuayQuote {
  import opened Base
  import opened Bytes
  import opened TradingVenue
  import opened Pricing
  import opened QuayAdapter
  import opened QuayVenue

  const MAX_EXT := 4

  datatype ExtAccount = ExtAccount(key: Pubkey, data: bytes)

  /** What one simulation is given. */
  datatype SimInputs = SimInputs(
    strategyData: bytes,
    mmData: bytes,
    quotesData: bytes,
    configData: bytes,
    currentSlot: u64,
    currentUnixSec: i64,
    side: u8,
    amountIn: u64,
    minAmountOut: u64,
    baseDecimals: u8,
    quoteDecimals: u8,
    ixDepth: nat,
    lastRestartSlot: u64,
    ext: seq<ExtAccount>)

  type Simulator = SimInputs -> Option<u64>

  /** What the quote code relies on: nothing in, nothing out; and never a zero fill. */
  ghost predicate FillsSomethingOrRefuses(simulate: Simulator) {
    forall inputs: SimInputs :: (inputs.amountIn == 0 ==> simulate(inputs).None?) && simulate(inputs) != Some(0)
  }

  function SimFor(simulate: Simulator, inputs: SimInputs): Sim {
    (x: u64) => simulate(inputs.(amountIn := x))
  }

  /** The side byte for a request: 0 sells the base mint, 1 buys it. */
  function SideOf(s: State, request: QuoteRequest): (r: Result<u8, VenueError>) {
    if request.swapType == ExactOut then Err(ExactOutNotSupported)
    else if request.inputMint == s.baseMint && request.outputMint == s.quoteMint then Ok(SIDE_SELL_BASE)
    else if request.inputMint == s.quoteMint && request.outputMint == s.baseMint then Ok(SIDE_BUY_BASE)
    else Err(InvalidMint(request.inputMint))
  }

  /** The first token with this mint. */
  function FindToken(tokens: seq<TokenInfo>, mint: Pubkey): (found: Option<TokenInfo>) {
    if tokens == [] then None
    else if tokens[0].pubkey == mint then Some(tokens[0])
    else FindToken(tokens[1..], mint)
  }

  function TokenFor(s: State, mint: Pubkey): (r: Result<TokenInfo, VenueError>) {
    var found := FindToken(s.tokens, mint);
    if found.Some? then Ok(found.value) else Err(MissingState)
  }

  /** External accounts handed to the simulator: the bound pairs, at most four. */
  function ExtAccounts(s: State): (ext: seq<ExtAccount>) {
    seq(Min(MAX_EXT, Min(|s.extKeys|, |s.extData|)),
        (i: nat) requires i < |s.extKeys| && i < |s.extData| => ExtAccount(s.extKeys[i], s.extData[i]))
  }

  function Inputs(s: State, side: u8, baseDecimals: u8, quoteDecimals: u8, ext: seq<ExtAccount>): SimInputs {
    SimInputs(s.strategyData, s.mmData, s.quotesData, s.configData, s.currentSlot, s.currentUnixSec,
              side, 0, 0, baseDecimals, quoteDecimals, 2, 0, ext)
  }

  function Probe(s: State, side: u8): u64 {
    if side == SIDE_SELL_BASE then s.priceProbeBase else s.priceProbeQuote
  }

  /** Amount, refusal and price of one request against one curve. */
  function QuoteOn(sim: Sim, probe: u64, request: QuoteRequest): QuoteResult
    requires FillsSomething(sim)
  {
    if request.amount == 0 then
      QuoteResult(request.inputMint, request.outputMint, 0, 0, false, SpotPrice(sim, probe))
    else
      match sim(request.amount)
      case None => QuoteResult(request.inputMint, request.outputMint, request.amount, 0, true, 0.0)
      case Some(out) =>
        QuoteResult(request.inputMint, request.outputMint, request.amount, out, false,
                    MarginalPrice(sim, Step(probe), request.amount, out))
  }

  lemma CurveFills(simulate: Simulator, inputs: SimInputs)
    requires FillsSomethingOrRefuses(simulate)
    ensures FillsSomething(SimFor(simulate, inputs))
  {
    assert simulate(inputs.(amountIn := 0)).None?;
    forall x: u64 ensures SimFor(simulate, inputs)(x) != Some(0) {
      assert simulate(inputs.(amountIn := x)) != Some(0);
    }
  }

  /** `compute_quote`. */
  function Quote(sdk: Sdk, s: State, simulate: Simulator, request: QuoteRequest): (r: Result<QuoteResult, VenueError>)
    requires FillsSomethingOrRefuses(simulate)
  {
    var side :- SideOf(s, request);
    if !Initialized(sdk, s) then Err(NotInitialized(s.strategyKey))
    else
      var base :- TokenFor(s, s.baseMint);
      var quote :- TokenFor(s, s.quoteMint);
      var inputs := Inputs(s, side, base.decimals, quote.decimals, ExtAccounts(s));
      CurveFills(simulate, inputs);
      Ok(QuoteOn(SimFor(simulate, inputs), Probe(s, side), request))
  }

  /** The buffer loop: four slots at most, filled while keys and data last. */
  method FillExtBuffer(venue: QuayVenue) returns (ext: seq<ExtAccount>)
    ensures ext == ExtAccounts(venue.Now())
  {
    var buffer := new ExtAccount[MAX_EXT](_ => ExtAccount(0, []));
    var extN := 0;
    while extN < MAX_EXT && extN < |venue.extKeys| && extN < |venue.extData|
      invariant 0 <= extN <= MAX_EXT && extN <= |venue.extKeys| && extN <= |venue.extData|
      invariant forall i :: 0 <= i < extN ==> buffer[i] == ExtAccount(venue.extKeys[i], venue.extData[i])
    {
      buffer[extN] := ExtAccount(venue.extKeys[extN], venue.extData[extN]);
      extN := extN + 1;
    }
    ext := buffer[..extN];
  }

  method ComputeQuote(venue: QuayVenue, simulate: Simulator, request: QuoteRequest) returns (r: Result<QuoteResult, VenueError>)
    requires FillsSomethingOrRefuses(simulate)
    ensures r == Quote(venue.sdk, venue.Now(), simulate, request)
  {
    var s := venue.Now();
    var side :- SideOf(s, request);
    var ready := venue.IsInitialized();
    if !ready {
      return Err(NotInitialized(s.strategyKey));
    }
    var base :- TokenFor(s, s.baseMint);
    var quote :- TokenFor(s, s.quoteMint);
    var ext := FillExtBuffer(venue);
    var inputs := Inputs(s, side, base.decimals, quote.decimals, ext);
    CurveFills(simulate, inputs);
    r := Ok(QuoteOn(SimFor(simulate, inputs), Probe(s, side), request));
  }

  // ---- Swap instructions ----------------------------------------------------------

  /** The arguments of the SDK's swap builder. */
  datatype SwapArgs = SwapArgs(
    programId: Pubkey,
    strategyKey: Pubkey,
    mmKey: Pubkey,
    quotesKey: Pubkey,
    baseMint: Pubkey,
    quoteMint: Pubkey,
    user: Pubkey,
    takerAtaBase: Pubkey,
    takerAtaQuote: Pubkey,
    baseProgram: Pubkey,
    quoteProgram: Pubkey,
    amount: u64,
    minAmountOut: u64,
    side: u8,
    extKeys: seq<Pubkey>)

  /** Token programs and address derivation, as the swap builder sees them. */
  datatype TokenEnv = TokenEnv(splToken: Pubkey, token2022: Pubkey, ataOf: (Pubkey, Pubkey, Pubkey) -> Pubkey)

  function TokenProgram(env: TokenEnv, token: TokenInfo): Pubkey {
    if token.isToken2022 then env.token2022 else env.splToken
  }

  /** `build_swap_ix`, up to the SDK call. */
  function BuildSwap(env: TokenEnv, s: State, request: QuoteRequest, user: Pubkey): (r: Result<SwapArgs, VenueError>) {
    var side :- SideOf(s, request);
    var base :- TokenFor(s, s.baseMint);
    var quote :- TokenFor(s, s.quoteMint);
    var baseProgram, quoteProgram := TokenProgram(env, base), TokenProgram(env, quote);
    Ok(SwapArgs(s.programId, s.strategyKey, s.mmKey, s.quotesKey, s.baseMint, s.quoteMint, user,
                env.ataOf(user, s.baseMint, baseProgram), env.ataOf(user, s.quoteMint, quoteProgram),
                baseProgram, quoteProgram, request.amount, 0, side, s.extKeys))
  }
}
