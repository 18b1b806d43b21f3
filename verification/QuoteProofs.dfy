/** What a venue's quotes and swaps are made of, back to the accounts it read. */
module QuoteProofs {
  import opened Base
  import opened Bytes
  import opened TradingVenue
  import opened QuayVenue
  import opened QuayQuote
  import opened VenueProofs
  import Pricing
  import TokenLedger
  import RouteModel

  /** The venue a strategy account and a run of refreshes leave. */
  function Venue(sdk: Sdk, key: Pubkey, account: ChainAccount, replies: seq<Reply>): State
    requires FromAccount(sdk, key, account).Ok?
  {
    Run(sdk, FromAccount(sdk, key, account).value, replies)
  }

  /** A reply a venue can quote from: everything decodes and every bound account is there. */
  ghost predicate Complete(sdk: Sdk, accounts: seq<Option<ChainAccount>>) {
    && |accounts| >= 9 && (forall i :: 0 <= i < 9 ==> accounts[i].Some?)
    && sdk.strategy(accounts[0].value.data).Some?
    && sdk.mintDecimals(accounts[4].value.data).Some? && sdk.mintDecimals(accounts[5].value.data).Some?
    && |accounts[8].value.data| >= 40
    && var bound := sdk.extKeys(sdk.strategy(accounts[0].value.data).value, accounts[0].value.data);
       bound.Some? && |bound.value| <= |ExtSlots(accounts)| && forall i :: 0 <= i < |bound.value| ==> ExtSlots(accounts)[i].Some?
  }

  /** The external accounts bound by the strategy in a reply. */
  ghost function Bound(sdk: Sdk, accounts: seq<Option<ChainAccount>>): seq<Pubkey>
    requires Complete(sdk, accounts)
  {
    sdk.extKeys(sdk.strategy(accounts[0].value.data).value, accounts[0].value.data).value
  }

  /** What the simulator is to be given off a reply: strategy, market maker, quotes and config
      in their own places, slot and time of the clock, 0 to sell base and 1 to buy it, no minimum,
      the decimals of base and quote (of a pair of one mint, the first slot's for both), and the
      first four bound accounts with their data. */
  ghost function ReplyInputs(sdk: Sdk, accounts: seq<Option<ChainAccount>>, sellsBase: bool, oneMint: bool, amount: u64): SimInputs
    requires Complete(sdk, accounts)
  {
    SimInputs(
      strategyData := accounts[0].value.data,
      mmData := accounts[1].value.data,
      quotesData := accounts[2].value.data,
      configData := accounts[3].value.data,
      currentSlot := U64At(accounts[8].value.data, 0),
      currentUnixSec := ToSigned(U64At(accounts[8].value.data, 32)),
      side := if sellsBase then 0 else 1,
      amountIn := amount,
      minAmountOut := 0,
      baseDecimals := sdk.mintDecimals(accounts[4].value.data).value,
      quoteDecimals := sdk.mintDecimals(accounts[if oneMint then 4 else 5].value.data).value,
      ixDepth := 2,
      lastRestartSlot := 0,
      ext := seq(Min(4, |Bound(sdk, accounts)|), (i: nat) requires i < |Bound(sdk, accounts)| =>
        ExtAccount(Bound(sdk, accounts)[i], ExtSlots(accounts)[i].value.data)))
  }

  /** The market maker's probe for a side, in the strategy of a reply. */
  ghost function ReplyProbe(sdk: Sdk, accounts: seq<Option<ChainAccount>>, sellsBase: bool): u64
    requires Complete(sdk, accounts)
  {
    var header := sdk.strategy(accounts[0].value.data).value;
    if sellsBase then header.priceProbeBase else header.priceProbeQuote
  }

  /** An initialized venue quotes from the last complete reply, fetched for its keys: every
      external account it pairs was asked for by name. */
  lemma CompleteReply(sdk: Sdk, key: Pubkey, account: ChainAccount, replies: seq<Reply>) returns (j: nat)
    requires FromAccount(sdk, key, account).Ok? && Initialized(sdk, Venue(sdk, key, account, replies))
    ensures j < |replies| && replies[j].Ok? && Complete(sdk, replies[j].value)
    ensures var s, fetched := Venue(sdk, key, account, replies), Venue(sdk, key, account, replies[..j]);
            && FromOneBatch(sdk, s, RequiredKeys(sdk, fetched), replies[j].value)
            && s.extKeys == Bound(sdk, replies[j].value) && |s.extData| == |s.extKeys|
            && (forall i :: 0 <= i < |s.extData| ==> s.extData[i] == ExtSlots(replies[j].value)[i].value.data)
            && (forall i :: 0 <= i < |s.extKeys| ==> i < |RequiredKeys(sdk, fetched)[9..]| && RequiredKeys(sdk, fetched)[9..][i] == s.extKeys[i])
  {
    hide Run;
    hide FromAccount;
    hide RoutedBy;
    j := InitializedMeansOneBatch(sdk, key, account, replies);
    var s, fetched := Venue(sdk, key, account, replies), Venue(sdk, key, account, replies[..j]);
    var keys, accounts := RequiredKeys(sdk, fetched), replies[j].value;
    assert ExtSlots(accounts) == accounts[9..] && ExtPaired(s, keys[9..], accounts[9..]);
  }

  lemma TokensByMint(sdk: Sdk, s: State, base: ChainAccount, quote: ChainAccount)
    requires TokensMatch(sdk, s, base, quote)
    ensures TokenFor(s, s.baseMint) == Ok(s.tokens[0])
    ensures TokenFor(s, s.quoteMint) == Ok(s.tokens[if s.baseMint == s.quoteMint then 0 else 1])
    ensures sdk.mintDecimals(base.data) == Some(s.tokens[0].decimals) && sdk.mintDecimals(quote.data) == Some(s.tokens[1].decimals)
    ensures s.tokens[0].isToken2022 == (base.owner == sdk.token2022) && s.tokens[1].isToken2022 == (quote.owner == sdk.token2022)
  {
    assert s.tokens[1..][0] == s.tokens[1];
    assert FindToken(s.tokens[1..], s.quoteMint) == Some(s.tokens[1]);
  }

  /** What an initialized venue gives the simulator is what the reply says. */
  lemma InputsFromReply(sdk: Sdk, key: Pubkey, account: ChainAccount, replies: seq<Reply>, request: QuoteRequest) returns (j: nat)
    requires FromAccount(sdk, key, account).Ok? && Initialized(sdk, Venue(sdk, key, account, replies))
    ensures j < |replies| && replies[j].Ok? && Complete(sdk, replies[j].value)
    ensures var s := Venue(sdk, key, account, replies);
            && TokenFor(s, s.baseMint).Ok? && TokenFor(s, s.quoteMint).Ok?
            && (SideOf(s, request).Ok? ==>
                 var sells := request.inputMint == s.baseMint;
                 && Probe(s, SideOf(s, request).value) == ReplyProbe(sdk, replies[j].value, sells)
                 && Inputs(s, SideOf(s, request).value, TokenFor(s, s.baseMint).value.decimals,
                           TokenFor(s, s.quoteMint).value.decimals, ExtAccounts(s))
                    == ReplyInputs(sdk, replies[j].value, sells, s.baseMint == s.quoteMint, 0))
  {
    hide Run;
    hide FromAccount;
    hide Initialized;
    hide FindToken;
    j := CompleteReply(sdk, key, account, replies);
    var s, accounts := Venue(sdk, key, account, replies), replies[j].value;
    TokensByMint(sdk, s, accounts[4].value, accounts[5].value);
    assert ExtAccounts(s) == ReplyInputs(sdk, accounts, true, true, 0).ext;
  }

  /** Every quote of a venue, in terms of the reply it stands on: the output is what the
      simulator answers on that reply's data for this side and amount, nothing if it refuses;
      the price is its marginal price over a step of the side's probe, at least an atom; and a
      zero amount gets the spot rate of the probe. */
  lemma QuoteAnswers(sdk: Sdk, key: Pubkey, account: ChainAccount, replies: seq<Reply>, simulate: Simulator, request: QuoteRequest)
    returns (j: nat)
    requires FillsSomethingOrRefuses(simulate) && FromAccount(sdk, key, account).Ok?
    requires Quote(sdk, Venue(sdk, key, account, replies), simulate, request).Ok?
    ensures j < |replies| && replies[j].Ok? && Complete(sdk, replies[j].value)
    ensures var s := Venue(sdk, key, account, replies);
            var quote := Quote(sdk, s, simulate, request).value;
            var sells := request.inputMint == s.baseMint;
            var inputs := ReplyInputs(sdk, replies[j].value, sells, s.baseMint == s.quoteMint, request.amount);
            var probe := ReplyProbe(sdk, replies[j].value, sells);
            var sim := SimFor(simulate, inputs);
            && quote.inputMint == request.inputMint && quote.outputMint == request.outputMint && quote.amount == request.amount
            && (request.amount == 0 ==>
                 (quote.expectedOutput == 0 && !quote.notEnoughLiquidity
                  && Pricing.FillsSomething(sim) && quote.price == Pricing.SpotPrice(sim, probe)))
            && (request.amount > 0 ==>
                 match simulate(inputs)
                 case None => quote.expectedOutput == 0 && quote.notEnoughLiquidity && quote.price == 0.0
                 case Some(out) => quote.expectedOutput == out && !quote.notEnoughLiquidity
                                   && quote.price == Pricing.MarginalPrice(sim, Max(probe, 1), request.amount, out))
  {
    hide Run;
    hide FromAccount;
    hide TokenFor;
    hide RoutedBy;
    hide Inputs;
    hide Probe;
    hide Pricing.MarginalPrice;
    hide Pricing.SpotPrice;
    j := InputsFromReply(sdk, key, account, replies, request);
    var s := Venue(sdk, key, account, replies);
    var sells := request.inputMint == s.baseMint;
    var none := ReplyInputs(sdk, replies[j].value, sells, s.baseMint == s.quoteMint, 0);
    var inputs := ReplyInputs(sdk, replies[j].value, sells, s.baseMint == s.quoteMint, request.amount);
    CurveFills(simulate, none);
    CurveFills(simulate, inputs);
    assert inputs == none.(amountIn := request.amount);
    SameCurve(simulate, none, request.amount);
  }

  /** The amount written in the inputs is the one asked for, whatever stood there. */
  lemma SameCurve(simulate: Simulator, inputs: SimInputs, amount: u64)
    ensures forall x: u64 :: SimFor(simulate, inputs.(amountIn := amount))(x) == SimFor(simulate, inputs)(x)
    ensures forall h: u64, a: u64, out: u64 :: h >= 1 && a >= 1 ==>
      Pricing.MarginalPrice(SimFor(simulate, inputs.(amountIn := amount)), h, a, out) == Pricing.MarginalPrice(SimFor(simulate, inputs), h, a, out)
    ensures forall probe: u64 :: Pricing.FillsSomething(SimFor(simulate, inputs.(amountIn := amount))) && Pricing.FillsSomething(SimFor(simulate, inputs)) ==>
      Pricing.SpotPrice(SimFor(simulate, inputs.(amountIn := amount)), probe) == Pricing.SpotPrice(SimFor(simulate, inputs), probe)
  {
    forall x: u64 ensures SimFor(simulate, inputs.(amountIn := amount))(x) == SimFor(simulate, inputs)(x) {
      assert inputs.(amountIn := amount).(amountIn := x) == inputs.(amountIn := x);
    }
  }

  // ---- When there is a quote, and a swap ------------------------------------------

  /** One of the two trades of the pair, with an exact input. */
  predicate Tradable(s: State, request: QuoteRequest) {
    && request.swapType == ExactIn
    && ((request.inputMint == s.baseMint && request.outputMint == s.quoteMint)
        || (request.inputMint == s.quoteMint && request.outputMint == s.baseMint))
  }

  /** Before a first refresh a venue has no tokens; after it, its own two. */
  lemma {:induction false} RunTokens(sdk: Sdk, key: Pubkey, account: ChainAccount, replies: seq<Reply>)
    requires FromAccount(sdk, key, account).Ok?
    ensures var s := Venue(sdk, key, account, replies);
            && (s.tokens == [] <==> forall i :: 0 <= i < |replies| ==> Refresh(sdk, Venue(sdk, key, account, replies[..i]), replies[i]).Err?)
            && (s.tokens == [] || (TokenFor(s, s.baseMint).Ok? && TokenFor(s, s.quoteMint).Ok?))
    decreases |replies|
  {
    hide FromOneBatch;
    hide Refresh;
    hide TokenFor;
    if replies == [] {
      NoTokensAtFirst(sdk, key, account);
    } else {
      var last := |replies| - 1;
      var before := Venue(sdk, key, account, replies[..last]);
      RunTokens(sdk, key, account, replies[..last]);
      forall i | 0 <= i < last ensures replies[..last][..i] == replies[..i] {
      }
      if Refresh(sdk, before, replies[last]).Ok? {
        FreshTokens(sdk, before, replies[last]);
      }
    }
  }

  lemma NoTokensAtFirst(sdk: Sdk, key: Pubkey, account: ChainAccount)
    requires FromAccount(sdk, key, account).Ok?
    ensures FromAccount(sdk, key, account).value.tokens == []
  {
  }

  lemma FreshTokens(sdk: Sdk, s: State, reply: Reply)
    requires Refresh(sdk, s, reply).Ok?
    ensures var after := Refresh(sdk, s, reply).value;
            after.tokens != [] && TokenFor(after, after.baseMint).Ok? && TokenFor(after, after.quoteMint).Ok?
  {
    hide Refresh;
    hide HeadersMatch;
    hide ExtPaired;
    hide DecodeClock;
    RefreshIsOneBatch(sdk, s, reply);
    TokensByMint(sdk, Refresh(sdk, s, reply).value, reply.value[4].value, reply.value[5].value);
  }

  /** A venue quotes, whatever the amount, if and only if it is initialized and asked for a trade
      of its pair with an exact input; each refusal has its own error, in this order. */
  lemma QuotesIff(sdk: Sdk, key: Pubkey, account: ChainAccount, replies: seq<Reply>, simulate: Simulator, request: QuoteRequest)
    requires FillsSomethingOrRefuses(simulate) && FromAccount(sdk, key, account).Ok?
    ensures var s := Venue(sdk, key, account, replies);
            var quote := Quote(sdk, s, simulate, request);
            && (quote.Ok? <==> Tradable(s, request) && Initialized(sdk, s))
            && (request.swapType == ExactOut ==> quote == Err(ExactOutNotSupported))
            && (request.swapType == ExactIn && !Tradable(s, request) ==> quote == Err(InvalidMint(request.inputMint)))
            && (Tradable(s, request) && !Initialized(sdk, s) ==> quote == Err(NotInitialized(key)))
  {
    hide Run;
    hide TokenFor;
    hide Initialized;
    var s := Venue(sdk, key, account, replies);
    RunKeepsVenue(sdk, FromAccount(sdk, key, account).value, replies);
    if Initialized(sdk, s) {
      var j := InputsFromReply(sdk, key, account, replies, request);
    }
  }

  /** It builds a swap if and only if some refresh has succeeded, initialized or not. */
  lemma BuildsIff(sdk: Sdk, key: Pubkey, account: ChainAccount, replies: seq<Reply>, tokens: TokenEnv, request: QuoteRequest, user: Pubkey)
    requires FromAccount(sdk, key, account).Ok?
    ensures var s := Venue(sdk, key, account, replies);
            var swap := BuildSwap(tokens, s, request, user);
            && (swap.Ok? <==>
                 && Tradable(s, request)
                 && exists i :: 0 <= i < |replies| && Refresh(sdk, Venue(sdk, key, account, replies[..i]), replies[i]).Ok?)
            && (request.swapType == ExactOut ==> swap == Err(ExactOutNotSupported))
            && (request.swapType == ExactIn && !Tradable(s, request) ==> swap == Err(InvalidMint(request.inputMint)))
            && (Tradable(s, request) && swap.Err? ==> swap == Err(MissingState))
  {
    hide Run;
    hide Refresh;
    hide FromAccount;
    RunTokens(sdk, key, account, replies);
  }

  // ---- What a swap names ----------------------------------------------------------

  /** The token program a reply's mint account belongs to. */
  function MintProgram(sdk: Sdk, tokens: TokenEnv, mint: ChainAccount): Pubkey {
    if mint.owner == sdk.token2022 then tokens.token2022 else tokens.splToken
  }

  /** The swap an initialized venue builds, back to the strategy it was made of and the reply it
      stands on: the venue's own accounts, the taker's account of each mint under the program the
      mint belongs to, the amount asked for with no minimum, the side of the input mint, and the
      bound external accounts, each of them one that was fetched. */
  lemma SwapNames(sdk: Sdk, key: Pubkey, account: ChainAccount, replies: seq<Reply>, tokens: TokenEnv, request: QuoteRequest, user: Pubkey)
    returns (j: nat)
    requires FromAccount(sdk, key, account).Ok? && Initialized(sdk, Venue(sdk, key, account, replies))
    requires Tradable(Venue(sdk, key, account, replies), request)
    ensures j < |replies| && replies[j].Ok? && Complete(sdk, replies[j].value)
    ensures BuildSwap(tokens, Venue(sdk, key, account, replies), request, user).Ok?
    ensures var args := BuildSwap(tokens, Venue(sdk, key, account, replies), request, user).value;
            var header, accounts := sdk.strategy(account.data).value, replies[j].value;
            var quoteSlot := if header.baseMint == header.quoteMint then 4 else 5;
            var fetched := RequiredKeys(sdk, Venue(sdk, key, account, replies[..j]))[9..];
            && args.programId == account.owner && args.strategyKey == key
            && args.mmKey == sdk.marketMakerPda(account.owner, header.owner) && args.quotesKey == header.quotesAccount
            && args.baseMint == header.baseMint && args.quoteMint == header.quoteMint && args.user == user
            && args.baseProgram == MintProgram(sdk, tokens, accounts[4].value)
            && args.quoteProgram == MintProgram(sdk, tokens, accounts[quoteSlot].value)
            && args.takerAtaBase == tokens.ataOf(user, header.baseMint, MintProgram(sdk, tokens, accounts[4].value))
            && args.takerAtaQuote == tokens.ataOf(user, header.quoteMint, MintProgram(sdk, tokens, accounts[quoteSlot].value))
            && args.amount == request.amount && args.minAmountOut == 0
            && args.side == (if request.inputMint == header.baseMint then 0 else 1)
            && args.extKeys == Bound(sdk, accounts)
            && forall i :: 0 <= i < |args.extKeys| ==> i < |fetched| && fetched[i] == args.extKeys[i]
  {
    hide Run;
    hide Initialized;
    hide FindToken;
    j := CompleteReply(sdk, key, account, replies);
    RunKeepsVenue(sdk, FromAccount(sdk, key, account).value, replies);
    TokensByMint(sdk, Venue(sdk, key, account, replies), replies[j].value[4].value, replies[j].value[5].value);
  }

  /** The program the route takes a mint to belong to, and the TitanPDA's account under it. */
  ghost predicate TitansAccount(env: TokenLedger.Env, call: RouteModel.Call, ledger: TokenLedger.Ledger, i: nat)
    requires RouteModel.WellFormed(call) && i < call.mints
  {
    var mint := RouteModel.Mint(call, i);
    RouteModel.Ata(call, i) == env.ataOf(call.titan, mint, TokenLedger.ProgramForMint(env, ledger, mint))
  }

  /** The accounts a swap trades between are the route's: built for a leg from route mint `from`
      to route mint `to`, the TitanPDA's account of the input mint is the ATA the leg spends from,
      and that of the output mint the one it is to fill. */
  lemma SwapUsesRouteAtas(sdk: Sdk, key: Pubkey, account: ChainAccount, replies: seq<Reply>, tokens: TokenEnv, request: QuoteRequest,
                          env: TokenLedger.Env, call: RouteModel.Call, ledger: TokenLedger.Ledger, from: nat, to: nat)
    returns (j: nat)
    requires FromAccount(sdk, key, account).Ok? && Initialized(sdk, Venue(sdk, key, account, replies))
    requires Tradable(Venue(sdk, key, account, replies), request)
    requires tokens.ataOf == env.ataOf && tokens.splToken == env.splToken && tokens.token2022 == env.token2022 == sdk.token2022
    requires RouteModel.WellFormed(call) && from < call.mints && to < call.mints
    requires TitansAccount(env, call, ledger, from) && TitansAccount(env, call, ledger, to)
    requires request.inputMint == RouteModel.Mint(call, from) && request.outputMint == RouteModel.Mint(call, to)
    ensures j < |replies| && replies[j].Ok? && Complete(sdk, replies[j].value)
    ensures BuildSwap(tokens, Venue(sdk, key, account, replies), request, call.titan).Ok?
    ensures var s, accounts := Venue(sdk, key, account, replies), replies[j].value;
            var args := BuildSwap(tokens, s, request, call.titan).value;
            var sells := request.inputMint == s.baseMint;
            TokenLedger.At(ledger, s.baseMint).program == accounts[4].value.owner
            && TokenLedger.At(ledger, s.quoteMint).program == accounts[5].value.owner ==>
              && (if sells then args.takerAtaBase else args.takerAtaQuote) == RouteModel.Ata(call, from)
              && (if sells then args.takerAtaQuote else args.takerAtaBase) == RouteModel.Ata(call, to)
  {
    hide Run;
    hide FromAccount;
    hide Initialized;
    hide BuildSwap;
    j := SwapNames(sdk, key, account, replies, tokens, request, call.titan);
    FetchesSameNine(sdk, key, account, replies);
    var s := Venue(sdk, key, account, replies);
    assert RequiredKeys(sdk, s)[..9][4] == s.baseMint && RequiredKeys(sdk, s)[..9][5] == s.quoteMint;
  }
}
