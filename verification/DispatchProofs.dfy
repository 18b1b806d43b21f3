/** From a quoted venue to the instruction the program dispatches for it. */
module DispatchProofs {
  import opened Base
  import opened Bytes
  import opened TradingVenue
  import opened RouteTypes
  import opened QuayAdapter
  import opened QuayVenue
  import opened QuayQuote
  import opened LegBuilder
  import Pricing
  import VenueProofs
  import Bounds
  import BoundsProofs
  import RpcCache
  import TokenLedger
  import RouteModel
  import ReserveProofs

  // ---- Assemble, then dispatch ----------------------------------------------------

  function Concat(legs: seq<seq<AccountMeta>>): seq<AccountMeta> {
    if legs == [] then [] else legs[0] + Concat(legs[1..])
  }

  function LenBefore(legs: seq<seq<AccountMeta>>, k: nat): nat
    requires k <= |legs|
  {
    if k == 0 then 0 else |legs[0]| + LenBefore(legs[1..], k - 1)
  }

  lemma {:induction false} ConcatSlice(legs: seq<seq<AccountMeta>>, k: nat)
    requires k < |legs|
    ensures LenBefore(legs, k + 1) == LenBefore(legs, k) + |legs[k]| <= |Concat(legs)|
    ensures Concat(legs)[LenBefore(legs, k)..LenBefore(legs, k + 1)] == legs[k]
  {
    var head, tail := legs[0], Concat(legs[1..]);
    if k == 0 {
      assert LenBefore(legs[1..], 0) == 0;
      assert (head + tail)[..|head|] == head;
    } else {
      ConcatSlice(legs[1..], k - 1);
      ShiftSlice(head, tail, LenBefore(legs[1..], k - 1), LenBefore(legs[1..], k));
    }
  }

  lemma ShiftSlice<T>(head: seq<T>, tail: seq<T>, i: nat, j: nat)
    requires i <= j <= |tail|
    ensures (head + tail)[|head| + i..|head| + j] == tail[i..j]
  {
  }

  /** A call whose leg region is these legs in order, each counted by a cast to a byte. */
  ghost predicate BuiltFrom(call: RouteModel.Call, legs: seq<seq<AccountMeta>>) {
    && |call.swaps| == |legs| && 2 * call.mints <= |call.remaining|
    && call.remaining[2 * call.mints..] == Concat(legs)
    && forall k :: 0 <= k < |legs| ==> |legs[k]| > 0 && call.swaps[k].nAccounts == |legs[k]| % 0x100
  }

  /** The on-chain walk finds every leg exactly where the builder put it. */
  ghost predicate Recovers(call: RouteModel.Call, legs: seq<seq<AccountMeta>>)
    requires |call.swaps| == |legs|
  {
    forall k: nat :: k < |legs| ==> ReserveProofs.LegFits(call, k) && RouteModel.LegAccounts(call, k) == legs[k]
  }

  lemma {:induction false} WalkFollows(call: RouteModel.Call, legs: seq<seq<AccountMeta>>, k: nat)
    requires BuiltFrom(call, legs) && k <= |legs|
    requires forall j :: 0 <= j < |legs| ==> |legs[j]| <= 255
    ensures RouteModel.LegStart(call, k) == 2 * call.mints + LenBefore(legs, k)
  {
    hide Concat;
    hide LenBefore;
    NothingBefore(legs);
    if k > 0 {
      WalkFollows(call, legs, k - 1);
      ConcatSlice(legs, k - 1);
    }
  }

  lemma NothingBefore(legs: seq<seq<AccountMeta>>)
    ensures LenBefore(legs, 0) == 0
  {
  }

  lemma LegRecovered(call: RouteModel.Call, legs: seq<seq<AccountMeta>>, k: nat)
    requires BuiltFrom(call, legs) && k < |legs|
    requires forall j :: 0 <= j < |legs| ==> |legs[j]| <= 255
    ensures ReserveProofs.LegFits(call, k) && RouteModel.LegAccounts(call, k) == legs[k]
  {
    hide Concat;
    hide LenBefore;
    hide RouteModel.LegStart;
    WalkFollows(call, legs, k);
    WalkFollows(call, legs, k + 1);
    ConcatSlice(legs, k);
    var prefix := call.remaining[..2 * call.mints];
    assert call.remaining == prefix + Concat(legs);
    ShiftSlice(prefix, Concat(legs), LenBefore(legs, k), LenBefore(legs, k + 1));
  }

  /** The walk recovers every leg if and only if none has more than 254 venue accounts
      beside its program id. */
  lemma WalkRecoversIff(call: RouteModel.Call, legs: seq<seq<AccountMeta>>)
    requires BuiltFrom(call, legs)
    ensures Recovers(call, legs) <==> forall k :: 0 <= k < |legs| ==> |legs[k]| - 1 <= 254
  {
    if forall k :: 0 <= k < |legs| ==> |legs[k]| - 1 <= 254 {
      forall k: nat | k < |legs| ensures ReserveProofs.LegFits(call, k) && RouteModel.LegAccounts(call, k) == legs[k] {
        LegRecovered(call, legs, k);
      }
    }
    if Recovers(call, legs) {
      forall k: nat | k < |legs| ensures |legs[k]| - 1 <= 254 {
        assert |RouteModel.LegAccounts(call, k)| == call.swaps[k].nAccounts;
      }
    }
  }

  /** Dispatch undoes the builder's signer clearing if and only if the TitanPDA signed
      everywhere it appeared; nothing else is ever touched, and the program id is last. */
  lemma SignersRestoredIff(accounts: seq<AccountMeta>, titan: Pubkey, program: Pubkey)
    ensures var leg := AssembleLegAccounts(accounts, titan, program);
            && leg[|leg| - 1] == AccountMeta(program, false, false)
            && (RouteModel.LegMetas(leg, titan) == accounts <==>
                forall account :: account in accounts && account.pubkey == titan ==> account.isSigner)
            && |RouteModel.LegMetas(leg, titan)| == |accounts|
            && forall i :: 0 <= i < |accounts| && accounts[i].pubkey != titan ==>
                 RouteModel.LegMetas(leg, titan)[i] == accounts[i]
  {
    var metas := RouteModel.LegMetas(AssembleLegAccounts(accounts, titan, program), titan);
    assert forall i :: 0 <= i < |accounts| ==>
      metas[i] == accounts[i].(isSigner := accounts[i].pubkey == titan || accounts[i].isSigner);
    if metas == accounts {
      forall account | account in accounts && account.pubkey == titan ensures account.isSigner {
        var i :| 0 <= i < |accounts| && accounts[i] == account;
        assert metas[i].isSigner;
      }
    }
  }

  // ---- One direction throughout ---------------------------------------------------

  /** A venue as some run of refreshes leaves it. */
  ghost predicate Reachable(sdk: Sdk, s: State) {
    exists key, account, replies :: FromAccount(sdk, key, account).Ok? &&
      s == VenueProofs.Run(sdk, FromAccount(sdk, key, account).value, replies)
  }

  /** Once the gate is passed the tokens are the pair, base first. */
  lemma InitializedTokens(sdk: Sdk, s: State)
    requires Reachable(sdk, s) && Initialized(sdk, s)
    ensures |s.tokens| == 2 && s.tokens[0].pubkey == s.baseMint && s.tokens[1].pubkey == s.quoteMint
    ensures TokenFor(s, s.baseMint).Ok? && TokenFor(s, s.quoteMint).Ok?
  {
    var key, account, replies :| FromAccount(sdk, key, account).Ok? &&
      s == VenueProofs.Run(sdk, FromAccount(sdk, key, account).value, replies);
    var j := VenueProofs.InitializedMeansOneBatch(sdk, key, account, replies);
    assert s.tokens[1..][0] == s.tokens[1];
    assert FindToken(s.tokens[1..], s.quoteMint) == Some(s.tokens[1]);
  }

  /** Past the gate no quote and no swap ever lacks state. */
  lemma MissingStateUnreachable(sdk: Sdk, s: State, simulate: Simulator, request: QuoteRequest, env: TokenEnv, user: Pubkey)
    requires Reachable(sdk, s) && FillsSomethingOrRefuses(simulate)
    ensures Quote(sdk, s, simulate, request) != Err(MissingState)
    ensures Initialized(sdk, s) ==> BuildSwap(env, s, request, user) != Err(MissingState)
  {
    hide TokenFor;
    if Initialized(sdk, s) {
      InitializedTokens(sdk, s);
      assert TokenFor(s, s.baseMint).Ok? && TokenFor(s, s.quoteMint).Ok?;
      if SideOf(s, request).Ok? {
        assert BuildSwap(env, s, request, user).Ok?;
      }
    }
  }

  /** Two simulators with the same answers for one side, whatever they say on the other. */
  ghost predicate SameOnSide(one: Simulator, other: Simulator, side: u8) {
    FillsSomethingOrRefuses(other) && forall inputs: SimInputs :: inputs.side == side ==> one(inputs) == other(inputs)
  }

  /** A quote asks the simulator about one side only. */
  lemma PricedOnSide(sdk: Sdk, s: State, simulate: Simulator, other: Simulator, request: QuoteRequest)
    requires FillsSomethingOrRefuses(simulate) && SideOf(s, request).Ok? && SameOnSide(simulate, other, SideOf(s, request).value)
    ensures Quote(sdk, s, other, request) == Quote(sdk, s, simulate, request)
  {
    hide Initialized;
    hide TokenFor;
    if Initialized(sdk, s) && TokenFor(s, s.baseMint).Ok? && TokenFor(s, s.quoteMint).Ok? {
      var inputs := Inputs(s, SideOf(s, request).value, TokenFor(s, s.baseMint).value.decimals,
                           TokenFor(s, s.quoteMint).value.decimals, ExtAccounts(s));
      CurveFills(simulate, inputs);
      CurveFills(other, inputs);
      forall x: u64 ensures SimFor(simulate, inputs)(x) == SimFor(other, inputs)(x) {
        assert inputs.(amountIn := x).side == inputs.side;
      }
    }
  }

  /** For every request a venue quotes: the side the simulator is asked about, the side in the
      swap it builds, and the side byte the program's adapter writes for the leg's venue tag are
      the same: 0 to sell the base mint, 1 to buy it. */
  lemma DirectionsAgree(sdk: Sdk, s: State, simulate: Simulator, request: QuoteRequest, env: TokenEnv, user: Pubkey, input: u64)
    requires Reachable(sdk, s) && FillsSomethingOrRefuses(simulate)
    requires Quote(sdk, s, simulate, request).Ok?
    ensures SideOf(s, request).Ok? && BuildSwap(env, s, request, user).Ok? && ProtocolToVenue(s, request).Ok?
    ensures var side := if request.inputMint == s.baseMint then 0 else 1;
            && SideOf(s, request).value == side
            && (forall other: Simulator :: SameOnSide(simulate, other, side) ==>
                  Quote(sdk, s, other, request) == Quote(sdk, s, simulate, request))
            && BuildSwap(env, s, request, user).value.side == side
            && SwapData(ProtocolToVenue(s, request).value.sellBase, input)[17] == side
            && (side == 0 <==> request.inputMint == s.baseMint && request.outputMint == s.quoteMint)
  {
    InitializedTokens(sdk, s);
    SwapDataFields(ProtocolToVenue(s, request).value.sellBase, input);
    forall other: Simulator | SameOnSide(simulate, other, SideOf(s, request).value)
      ensures Quote(sdk, s, other, request) == Quote(sdk, s, simulate, request)
    {
      PricedOnSide(sdk, s, simulate, other, request);
    }
  }

  /** A leg is built whenever its swap is, and says of itself what it is: the ends and weight
      asked for, how many accounts it has, as a byte, the swap's accounts with the TitanPDA's
      signature left to the program, and the venue's program last. */
  lemma BuiltLeg(tokens: TokenEnv, s: State, sdkSwap: SwapArgs -> Instruction, request: QuoteRequest,
                 titan: Pubkey, from: u8, to: u8, weightNanos: u32)
    requires BuildSwap(tokens, s, request, titan).Ok? && s.tokens != []
    ensures BuildSwapLeg(tokens, s, sdkSwap, request, titan, from, to, weightNanos).Ok?
    ensures var (spec, leg) := BuildSwapLeg(tokens, s, sdkSwap, request, titan, from, to, weightNanos).value;
            var accounts := sdkSwap(BuildSwap(tokens, s, request, titan).value).accounts;
            && spec.from == from && spec.to == to && spec.weightNanos == weightNanos && spec.nAccounts == |leg| % 0x100
            && (spec.venue.sellBase <==> request.inputMint == s.tokens[0].pubkey)
            && |leg| == |accounts| + 1 && leg[|accounts|] == AccountMeta(s.programId, false, false)
            && forall i :: 0 <= i < |accounts| ==>
                 leg[i].pubkey == accounts[i].pubkey && leg[i].isWritable == accounts[i].isWritable
                 && (leg[i].isSigner <==> accounts[i].isSigner && accounts[i].pubkey != titan)
  {
    hide BuildSwap;
  }

  /** End to end: a leg built off a quoting venue and placed in a route is dispatched with
      the accounts of the venue's own swap, the TitanPDA signing, the leg's input as the
      amount, no minimum, and the side that was quoted.  It goes to the program the adapter
      was compiled for: the program the swap was built for, whose id closes the leg, if and
      only if the venue is of that deploy. */
  lemma DispatchedLegIsQuotedSwap(sdk: Sdk, s: State, simulate: Simulator, request: QuoteRequest, tokens: TokenEnv,
                                  sdkSwap: SwapArgs -> Instruction, env: TokenLedger.Env, call: RouteModel.Call,
                                  legs: seq<seq<AccountMeta>>, k: nat, weightNanos: u32, ledger: TokenLedger.Ledger, input: u64)
    requires Reachable(sdk, s) && FillsSomethingOrRefuses(simulate) && Quote(sdk, s, simulate, request).Ok?
    requires BuiltFrom(call, legs) && k < |legs| && forall j :: 0 <= j < |legs| ==> |legs[j]| <= 255
    requires BuildSwapLeg(tokens, s, sdkSwap, request, call.titan, call.swaps[k].from, call.swaps[k].to, weightNanos)
             == Ok((call.swaps[k], legs[k]))
    requires var args := BuildSwap(tokens, s, request, call.titan);
             args.Ok? ==> forall account :: account in sdkSwap(args.value).accounts && account.pubkey == call.titan ==> account.isSigner
    ensures ReserveProofs.LegFits(call, k) && BuildSwap(tokens, s, request, call.titan).Ok?
    ensures var args := BuildSwap(tokens, s, request, call.titan).value;
            var instruction := RouteModel.LegInstruction(env, call, k, input);
            var data := instruction.data;
            && RouteModel.Invoke(env, call, ledger, k, input) == env.venue(instruction, legs[k], ledger)
            && instruction.accounts == sdkSwap(args).accounts
            && |data| == 18 && data[0] == 0x20 && U64At(data, 1) == input && U64At(data, 9) == 0
            && Ok(data[17]) == SideOf(s, request)
            && (instruction.programId == args.programId <==> s.programId == env.quayProgram)
            && (instruction.programId == legs[k][|legs[k]| - 1].pubkey <==> s.programId == env.quayProgram)
  {
    hide Quote;
    hide SideOf;
    DirectionsAgree(sdk, s, simulate, request, tokens, call.titan, input);
    LegRecovered(call, legs, k);
    var args := BuildSwap(tokens, s, request, call.titan).value;
    SignersRestoredIff(sdkSwap(args).accounts, call.titan, s.programId);
    SwapDataFields(call.swaps[k].venue.sellBase, input);
  }

  // ---- Bounds of a quoting venue --------------------------------------------------

  /** The function `TradingVenue::bounds` searches: quotes for one pair at every amount. */
  function BoundsProbe(sdk: Sdk, s: State, simulate: Simulator, request: QuoteRequest): Bounds.QuoteFn
    requires FillsSomethingOrRefuses(simulate)
  {
    (x: u64) => Quote(sdk, s, simulate, request.(amount := x))
  }

  /** The curve a request of this venue is priced on. */
  function CurveOf(s: State, simulate: Simulator, request: QuoteRequest): Pricing.Sim
    requires SideOf(s, request).Ok? && TokenFor(s, s.baseMint).Ok? && TokenFor(s, s.quoteMint).Ok?
  {
    SimFor(simulate, Inputs(s, SideOf(s, request).value, TokenFor(s, s.baseMint).value.decimals,
                            TokenFor(s, s.quoteMint).value.decimals, ExtAccounts(s)))
  }

  /** A quote is valid for the search exactly where the curve fills, never at zero. */
  lemma ValidWhereFilled(sdk: Sdk, s: State, simulate: Simulator, request: QuoteRequest, x: u64)
    requires FillsSomethingOrRefuses(simulate) && Reachable(sdk, s) && Initialized(sdk, s) && SideOf(s, request).Ok?
    ensures TokenFor(s, s.baseMint).Ok? && TokenFor(s, s.quoteMint).Ok?
    ensures Bounds.ValidAt(BoundsProbe(sdk, s, simulate, request), x) <==> CurveOf(s, simulate, request)(x).Some?
  {
    InitializedTokens(sdk, s);
    var curve := CurveOf(s, simulate, request);
    CurveFills(simulate, Inputs(s, SideOf(s, request).value, TokenFor(s, s.baseMint).value.decimals,
                                TokenFor(s, s.quoteMint).value.decimals, ExtAccounts(s)));
    assert SideOf(s, request.(amount := x)) == SideOf(s, request);
    assert curve(0).None? && curve(x) != Some(0);
  }

  /** So an initialized venue's reported bounds are its curve's range, to within 63 atoms
      at the bottom and 65 at the top, and exact just on the search's grids. */
  lemma VenueBounds(sdk: Sdk, s: State, simulate: Simulator, request: QuoteRequest, lower: int, upper: int)
    requires FillsSomethingOrRefuses(simulate) && Reachable(sdk, s) && Initialized(sdk, s) && SideOf(s, request).Ok?
    requires TokenFor(s, s.baseMint).Ok? && TokenFor(s, s.quoteMint).Ok?
    requires Pricing.Accepts(CurveOf(s, simulate, request), lower, upper)
    ensures var f := BoundsProbe(sdk, s, simulate, request);
            && BoundsProofs.ExactRange(f, lower, upper)
            && (Bounds.Boundaries(f).Ok? ==>
                 var (lo, hi) := Bounds.Boundaries(f).value;
                 && lower <= lo <= lower + 63 && upper - 65 <= hi <= upper
                 && (lo == lower <==> BoundsProofs.LowerGrid(lower))
                 && (hi == upper <==> BoundsProofs.UpperGrid(lower, upper)))
  {
    hide BoundsProbe;
    hide CurveOf;
    hide TokenFor;
    hide Quote;
    hide Bounds.Boundaries;
    hide BoundsProofs.LowerGrid;
    hide BoundsProofs.UpperGrid;
    var f := BoundsProbe(sdk, s, simulate, request);
    forall x: u64 ensures Bounds.ValidAt(f, x) <==> lower <= x <= upper {
      ValidWhereFilled(sdk, s, simulate, request, x);
    }
    if Bounds.Boundaries(f).Ok? {
      BoundsProofs.EdgesOfRange(f, lower, upper);
    }
  }

  // ---- Prices of a quoting venue --------------------------------------------------

  /** A venue that quotes a request, on a curve that follows `g` over its range. */
  ghost predicate QuotesSoundly(sdk: Sdk, s: State, simulate: Simulator, request: QuoteRequest, g: Pricing.Curve, slack: real, lower: int, upper: int) {
    && FillsSomethingOrRefuses(simulate) && Reachable(sdk, s) && Initialized(sdk, s) && SideOf(s, request).Ok?
    && TokenFor(s, s.baseMint).Ok? && TokenFor(s, s.quoteMint).Ok?
    && Pricing.Sound(CurveOf(s, simulate, request), g, slack, lower, upper, ProbeStep(s, request))
  }

  /** The probe step of a request's side. */
  function ProbeStep(s: State, request: QuoteRequest): (h: u64)
    requires SideOf(s, request).Ok?
    ensures h >= 1
  {
    Pricing.Step(Probe(s, SideOf(s, request).value))
  }

  /** What an initialized venue quotes, in terms of its curve: the fill and its marginal price,
      or for nothing the spot rate. */
  lemma QuoteAt(sdk: Sdk, s: State, simulate: Simulator, request: QuoteRequest, x: u64)
    requires FillsSomethingOrRefuses(simulate) && Initialized(sdk, s) && SideOf(s, request).Ok?
    requires TokenFor(s, s.baseMint).Ok? && TokenFor(s, s.quoteMint).Ok?
    ensures Pricing.FillsSomething(CurveOf(s, simulate, request))
    ensures Quote(sdk, s, simulate, request.(amount := x)).Ok?
    ensures var sim := CurveOf(s, simulate, request);
            var quote := Quote(sdk, s, simulate, request.(amount := x)).value;
            && (x == 0 ==> quote.price == Pricing.SpotPrice(sim, Probe(s, SideOf(s, request).value)))
            && (sim(x).Some? ==> x >= 1 && quote.expectedOutput == sim(x).value && !quote.notEnoughLiquidity
                                 && quote.price == Pricing.Price(sim, ProbeStep(s, request), x))
  {
    CurveFills(simulate, Inputs(s, SideOf(s, request).value, TokenFor(s, s.baseMint).value.decimals,
                                TokenFor(s, s.quoteMint).value.decimals, ExtAccounts(s)));
    assert SideOf(s, request.(amount := x)) == SideOf(s, request);
  }

  /** Inside the bounds a venue reports, for amounts a probe step apart, the prices it quotes
      bracket the average rate of the outputs it quotes, up to rounding. */
  lemma QuotedMeanValue(sdk: Sdk, s: State, simulate: Simulator, request: QuoteRequest, g: Pricing.Curve, slack: real,
                        lower: int, upper: int, a: u64, b: u64)
    requires QuotesSoundly(sdk, s, simulate, request, g, slack, lower, upper)
    requires var reported := Bounds.Boundaries(BoundsProbe(sdk, s, simulate, request));
             reported.Ok? && reported.value.0 <= a && a + ProbeStep(s, request) <= b <= reported.value.1
    ensures Quote(sdk, s, simulate, request.(amount := a)).Ok? && Quote(sdk, s, simulate, request.(amount := b)).Ok?
    ensures var near, far := Quote(sdk, s, simulate, request.(amount := a)).value, Quote(sdk, s, simulate, request.(amount := b)).value;
            var chord := (far.expectedOutput - near.expectedOutput) as real / (b - a) as real;
            var tolerance := slack / ProbeStep(s, request) as real + slack / (b - a) as real;
            far.price <= chord + tolerance && chord <= near.price + tolerance
  {
    hide Quote;
    hide Bounds.Boundaries;
    hide CurveOf;
    hide Pricing.Price;
    hide ProbeStep;
    var sim, h := CurveOf(s, simulate, request), ProbeStep(s, request);
    VenueBounds(sdk, s, simulate, request, lower, upper);
    Pricing.MeanValueWithinRounding(sim, g, slack, lower, upper, h, a, b);
    QuoteAt(sdk, s, simulate, request, a);
    QuoteAt(sdk, s, simulate, request, b);
  }

  /** Inside its bounds a venue quotes positive prices, which rise by rounding at most between
      comparable amounts, and with the probe in range its zero-amount quote tops them all. */
  lemma QuotedPricesFall(sdk: Sdk, s: State, simulate: Simulator, request: QuoteRequest, g: Pricing.Curve, slack: real,
                         lower: int, upper: int, x: u64, y: u64)
    requires QuotesSoundly(sdk, s, simulate, request, g, slack, lower, upper) && upper - lower >= 2 * ProbeStep(s, request)
    requires var reported := Bounds.Boundaries(BoundsProbe(sdk, s, simulate, request));
             reported.Ok? && reported.value.0 <= x < y <= reported.value.1
    ensures Quote(sdk, s, simulate, request.(amount := 0)).Ok?
    ensures Quote(sdk, s, simulate, request.(amount := x)).Ok? && Quote(sdk, s, simulate, request.(amount := y)).Ok?
    ensures var near, far := Quote(sdk, s, simulate, request.(amount := x)).value, Quote(sdk, s, simulate, request.(amount := y)).value;
            var spot := Quote(sdk, s, simulate, request.(amount := 0)).value;
            var tolerance := 2.0 * (slack / ProbeStep(s, request) as real);
            && near.price > 0.0 && far.price > 0.0
            && (Pricing.Comparable(upper, ProbeStep(s, request), x, y) ==> far.price <= near.price + tolerance)
            && (Pricing.Concave(g, 0, upper) && g(0) == 0.0 && lower <= Probe(s, SideOf(s, request).value) ==>
                 near.price <= spot.price + tolerance)
  {
    hide Quote;
    hide Bounds.Boundaries;
    hide CurveOf;
    hide Probe;
    hide Pricing.Price;
    hide Pricing.SpotPrice;
    hide Pricing.Follows;
    hide Pricing.Concave;
    hide Pricing.StepsGain;
    var sim, h, probe := CurveOf(s, simulate, request), ProbeStep(s, request), Probe(s, SideOf(s, request).value);
    VenueBounds(sdk, s, simulate, request, lower, upper);
    QuoteAt(sdk, s, simulate, request, 0);
    QuoteAt(sdk, s, simulate, request, x);
    QuoteAt(sdk, s, simulate, request, y);
    assert sim(x).Some? && sim(y).Some?;
    Pricing.PriceIsPositive(sim, h, x);
    Pricing.PriceIsPositive(sim, h, y);
    if Pricing.Comparable(upper, h, x, y) {
      Pricing.PriceFallsWithinRounding(sim, g, slack, lower, upper, h, x, y);
    }
    if Pricing.Concave(g, 0, upper) && g(0) == 0.0 && lower <= probe {
      assert sim(probe).Some?;
      Pricing.SpotPriceTops(sim, g, slack, lower, upper, probe, x);
    }
  }

  // ---- Refreshing through the cache -----------------------------------------------

  /** An answer that is the chain's, key by key. */
  lemma AnswerAt(cache: RpcCache.Cached<ChainAccount>, chain: RpcCache.Chain<ChainAccount>,
                 rpc: RpcCache.Rpc<ChainAccount>, keys: seq<Pubkey>, i: nat)
    requires RpcCache.Agrees(cache, chain) && RpcCache.Serves(rpc, chain)
    requires RpcCache.BatchRead(cache, keys, rpc).1.Ok? && i < |keys|
    ensures var accounts := RpcCache.BatchRead(cache, keys, rpc).1.value;
            |accounts| == |keys| && (accounts[i].Some? ==> keys[i] in chain && accounts[i].value == chain[keys[i]])
  {
    RpcCache.BatchIsTransparent(cache, chain, keys, rpc);
  }

  /** A refresh through an honest cache leaves the venue as the chain has it: every blob is
      the chain's data at its own key, tokens are read off the chain's mints, external data
      is at its bound key. */
  lemma RefreshedFromChain(sdk: Sdk, s: State, cache: RpcCache.Cached<ChainAccount>, chain: RpcCache.Chain<ChainAccount>,
                           rpc: RpcCache.Rpc<ChainAccount>)
    requires RpcCache.Agrees(cache, chain) && RpcCache.Serves(rpc, chain)
    requires Refresh(sdk, s, RpcCache.BatchRead(cache, RequiredKeys(sdk, s), rpc).1).Ok?
    ensures var after := Refresh(sdk, s, RpcCache.BatchRead(cache, RequiredKeys(sdk, s), rpc).1).value;
            && after.strategyKey in chain && after.strategyData == chain[after.strategyKey].data
            && after.mmKey in chain && after.mmData == chain[after.mmKey].data
            && after.quotesKey in chain && after.quotesData == chain[after.quotesKey].data
            && after.configKey in chain && after.configData == chain[after.configKey].data
            && |after.tokens| == 2
            && after.baseMint in chain && NewTokenInfo(sdk, after.baseMint, chain[after.baseMint]) == Ok(after.tokens[0])
            && after.quoteMint in chain && NewTokenInfo(sdk, after.quoteMint, chain[after.quoteMint]) == Ok(after.tokens[1])
            && sdk.clock in chain && DecodeClock(chain[sdk.clock].data) == Some((after.currentSlot, after.currentUnixSec))
            && (|after.extData| == |after.extKeys| ==>
                 forall i :: 0 <= i < |after.extKeys| ==>
                   after.extKeys[i] in chain && after.extData[i] == chain[after.extKeys[i]].data)
  {
    hide Refresh;
    hide DecodeClock;
    hide VenueProofs.HeadersMatch;
    hide NewTokenInfo;
    hide RpcCache.BatchRead;
    hide RpcCache.Agrees;
    var keys := RequiredKeys(sdk, s);
    var reply := RpcCache.BatchRead(cache, keys, rpc).1;
    VenueProofs.RefreshIsOneBatch(sdk, s, reply);
    var after := Refresh(sdk, s, reply).value;
    var required := RequiredKeys(sdk, after);
    FixedKeys(keys, required);
    AnswerAt(cache, chain, rpc, keys, 0);
    AnswerAt(cache, chain, rpc, keys, 1);
    AnswerAt(cache, chain, rpc, keys, 2);
    AnswerAt(cache, chain, rpc, keys, 3);
    AnswerAt(cache, chain, rpc, keys, 4);
    AnswerAt(cache, chain, rpc, keys, 5);
    AnswerAt(cache, chain, rpc, keys, 8);
    forall i | 0 <= i < |after.extKeys| == |after.extData|
      ensures after.extKeys[i] in chain && after.extData[i] == chain[after.extKeys[i]].data
    {
      assert reply.value[9..][i] == reply.value[9 + i] && keys[9..][i] == keys[9 + i];
      AnswerAt(cache, chain, rpc, keys, 9 + i);
    }
  }

  lemma FixedKeys(keys: seq<Pubkey>, required: seq<Pubkey>)
    requires |keys| >= 9 && |required| >= 9 && keys[..9] == required[..9]
    ensures forall i :: 0 <= i < 9 ==> keys[i] == required[i]
  {
    forall i | 0 <= i < 9 ensures keys[i] == required[i] {
      assert keys[..9][i] == required[..9][i];
    }
  }
}
