/** A venue of any deploy reaches the point where it quotes; its legs are dispatched to the
    adapter's own program all the same. */
module SampleVenue {
  import opened Base
  import opened TradingVenue
  import opened RouteTypes
  import opened QuayVenue
  import opened QuayQuote
  import opened LegBuilder
  import opened DispatchProofs
  import VenueProofs
  import TokenLedger
  import RouteModel
  import ReserveProofs

  const BASE_MINT: Pubkey := 30
  const QUOTE_MINT: Pubkey := 31
  const TITAN: Pubkey := 12

  /** An open strategy over one pair, with nothing bound. */
  function OpenSdk(): Sdk {
    Sdk(data => Some(StrategyHeader(5, BASE_MINT, QUOTE_MINT, 7, 1, 0, 0, 10, 10)),
        data => Some(MarketMakerHeader(0, 0, 0)),
        data => Some(GlobalConfig(0, 0)),
        (header, data) => Some([]),
        data => Some(6),
        (program, owner) => 6, program => 8, (program, maker, mint) => 10,
        2, 9, 1)
  }

  function Stored(program: Pubkey): ChainAccount { ChainAccount(program, [1]) }

  /** All nine accounts of the venue, with a clock long enough to decode. */
  function FullReply(program: Pubkey): Reply {
    var stored := Some(Stored(program));
    Ok([stored, stored, stored, stored, stored, stored, stored, stored, Some(ChainAccount(0, seq(40, i => 0)))])
  }

  /** One for one, as long as something goes in. */
  function Echoes(inputs: SimInputs): Option<u64> {
    if inputs.amountIn == 0 then None else Some(inputs.amountIn)
  }

  function SellBase(amount: u64): QuoteRequest { QuoteRequest(BASE_MINT, QUOTE_MINT, amount, ExactIn) }

  /** Whatever program owns the strategy account, one refresh makes the venue quote. */
  lemma AnyDeployQuotes(program: Pubkey, amount: u64) returns (s: State)
    ensures Reachable(OpenSdk(), s) && s.programId == program && FillsSomethingOrRefuses(Echoes)
    ensures Quote(OpenSdk(), s, Echoes, SellBase(amount)).Ok?
    ensures |s.tokens| > 0 && s.tokens[0].pubkey == BASE_MINT && s.baseMint == BASE_MINT && s.quoteMint == QUOTE_MINT
  {
    var sdk, account, replies := OpenSdk(), Stored(program), [FullReply(program)];
    var start := FromAccount(sdk, 1, account).value;
    assert DecodeBatch(sdk, start, replies[0].value).Ok?;
    s := Refresh(sdk, start, replies[0]).value;
    assert VenueProofs.Run(sdk, start, replies) == s by {
      assert replies[..0] == [];
      assert VenueProofs.Run(sdk, start, []) == start;
    }
    assert FromAccount(sdk, 1, account).Ok? && Reachable(sdk, s);
    InitializedTokens(sdk, s);
  }

  /** The SDK's swap, with the taker as its one account. */
  function TakerSwap(args: SwapArgs): Instruction {
    Instruction(args.programId, [AccountMeta(args.user, true, false)], [])
  }

  function TwoAccountLeg(program: Pubkey): seq<AccountMeta> {
    [AccountMeta(TITAN, false, false), AccountMeta(program, false, false)]
  }

  function OneLegCall(program: Pubkey): RouteModel.Call {
    var other := AccountMeta(0, false, false);
    RouteModel.Call(10, 11, TITAN, 20, 21, None, [other, other, other, other] + TwoAccountLeg(program), 1, 2,
                    [SwapSpec(Quay(true), 0, 1, 1_000_000_000, 2)])
  }

  /** Built for one deploy, dispatched to another: the failing side of the condition. */
  lemma OtherDeployMisses(env: TokenLedger.Env, tokens: TokenEnv, program: Pubkey, input: u64) returns (s: State)
    requires program != env.quayProgram
    ensures Reachable(OpenSdk(), s) && FillsSomethingOrRefuses(Echoes) && Quote(OpenSdk(), s, Echoes, SellBase(1)).Ok?
    ensures BuiltFrom(OneLegCall(program), [TwoAccountLeg(program)])
    ensures BuildSwapLeg(tokens, s, TakerSwap, SellBase(1), TITAN, 0, 1, 1_000_000_000)
            == Ok((OneLegCall(program).swaps[0], TwoAccountLeg(program)))
    ensures BuildSwap(tokens, s, SellBase(1), TITAN).Ok?
    ensures BuildSwap(tokens, s, SellBase(1), TITAN).value.programId == program
    ensures ReserveProofs.LegFits(OneLegCall(program), 0)
            && RouteModel.LegInstruction(env, OneLegCall(program), 0, input).programId != program
  {
    s := AnyDeployQuotes(program, 1);
    var call, leg := OneLegCall(program), TwoAccountLeg(program);
    InitializedTokens(OpenSdk(), s);
    assert Concat([leg]) == leg by { assert Concat([]) == []; }
    assert call.remaining[4..] == leg;
    assert AssembleLegAccounts([AccountMeta(TITAN, true, false)], TITAN, program) == leg;
    DispatchedLegIsQuotedSwap(OpenSdk(), s, Echoes, SellBase(1), tokens, TakerSwap, env, call, [leg], 0, 1_000_000_000, map[], input);
  }
}
