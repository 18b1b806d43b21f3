/** The off-chain leg builder and the route's wire format (src/swap_route/mod.rs). */
module LegBuilder {
  import opened Base
  import opened Bytes
  import opened TradingVenue
  import opened RouteTypes
  import opened QuayVenue
  import opened QuayQuote

  const SWAP_ROUTE_V3_DISCRIMINATOR: u8 := 42

  /** `protocol_to_venue`: sells base iff the input mint is the first token's. */
  function ProtocolToVenue(s: State, request: QuoteRequest): (r: Result<Venue, VenueError>) {
    if s.tokens == [] then Err(MissingState)
    else Ok(Quay(request.inputMint == s.tokens[0].pubkey))
  }

  /** `assemble_leg_accounts`: the TitanPDA's signature dropped, the venue program last. */
  function AssembleLegAccounts(accounts: seq<AccountMeta>, titan: Pubkey, program: Pubkey): (leg: seq<AccountMeta>)
    ensures |leg| == |accounts| + 1
  {
    seq(|accounts|, (i: nat) requires i < |accounts| =>
      if accounts[i].pubkey == titan then accounts[i].(isSigner := false) else accounts[i])
    + [AccountMeta(program, false, false)]
  }

  /** `build_swap_leg`, given the SDK's builder; the account count is cast to a byte. */
  function BuildSwapLeg(env: TokenEnv, s: State, sdkSwap: SwapArgs -> Instruction, request: QuoteRequest,
                        titan: Pubkey, from: u8, to: u8, weightNanos: u32)
    : (r: Result<(SwapSpec, seq<AccountMeta>), VenueError>)
  {
    var args :- BuildSwap(env, s, request, titan);
    var accounts := AssembleLegAccounts(sdkSwap(args).accounts, titan, s.programId);
    var venue :- ProtocolToVenue(s, request);
    Ok((SwapSpec(venue, from, to, weightNanos, |accounts| % 0x100), accounts))
  }

  // ---- Encoding -------------------------------------------------------------------

  function EncodeVenue(venue: Venue): bytes {
    [0, if venue.sellBase then 1 else 0]
  }

  function EncodeSpec(spec: SwapSpec): (data: bytes)
    ensures |data| == 9
  {
    EncodeVenue(spec.venue) + [spec.from, spec.to] + LeBytes(spec.weightNanos, 4) + [spec.nAccounts]
  }

  function EncodeSpecs(swaps: seq<SwapSpec>): (data: bytes)
    ensures |data| == 9 * |swaps|
  {
    if swaps == [] then [] else EncodeSpec(swaps[0]) + EncodeSpecs(swaps[1..])
  }

  function EncodeHeader(amount: u64, mints: u8, count: u32): (header: bytes)
    ensures |header| == 14
  {
    [SWAP_ROUTE_V3_DISCRIMINATOR] + LeBytes(amount, 8) + [mints] + LeBytes(count, 4)
  }

  /** The leg count is cast to four bytes. */
  function EncodeRoute(amount: u64, mints: u8, swaps: seq<SwapSpec>): bytes {
    EncodeHeader(amount, mints, |swaps| % 0x1_0000_0000) + EncodeSpecs(swaps)
  }

  lemma {:induction false} EncodeSpecsSnoc(swaps: seq<SwapSpec>, last: SwapSpec)
    ensures EncodeSpecs(swaps + [last]) == EncodeSpecs(swaps) + EncodeSpec(last)
  {
    hide EncodeSpec;
    if swaps == [] {
      assert (swaps + [last])[1..] == [];
    } else {
      EncodeSpecsSnoc(swaps[1..], last);
      assert (swaps + [last])[1..] == swaps[1..] + [last];
    }
  }

  /** One more leg on an encoded prefix. */
  lemma EncodeNext(header: bytes, swaps: seq<SwapSpec>, k: nat)
    requires k < |swaps|
    ensures header + EncodeSpecs(swaps[..k + 1]) == header + EncodeSpecs(swaps[..k]) + EncodeSpec(swaps[k])
  {
    hide EncodeSpec;
    hide EncodeSpecs;
    EncodeSpecsSnoc(swaps[..k], swaps[k]);
    assert swaps[..k + 1] == swaps[..k] + [swaps[k]];
  }

  lemma EncodeNone(header: bytes)
    ensures header + EncodeSpecs([]) == header
  {
  }

  method EncodeSwapRouteV3Data(amount: u64, mints: u8, swaps: seq<SwapSpec>) returns (data: bytes)
    ensures data == EncodeRoute(amount, mints, swaps)
    ensures |data| == 14 + 9 * |swaps|
  {
    hide EncodeSpec;
    hide EncodeSpecs;
    hide LeBytes;
    data := [SWAP_ROUTE_V3_DISCRIMINATOR];
    data := data + LeBytes(amount, 8);
    data := data + [mints];
    data := data + LeBytes(|swaps| % 0x1_0000_0000, 4);
    ghost var header := EncodeHeader(amount, mints, |swaps| % 0x1_0000_0000);
    EncodeNone(header);
    for k := 0 to |swaps|
      invariant data == header + EncodeSpecs(swaps[..k])
    {
      EncodeNext(header, swaps, k);
      data := data + EncodeSpec(swaps[k]);
    }
    assert swaps[..|swaps|] == swaps;
  }

  // ---- Decoding, per the Borsh specification --------------------------------------

  function DecodeSpec(data: bytes): (r: Option<SwapSpec>)
    requires |data| >= 9
  {
    if data[0] != 0 || data[1] > 1 then None
    else Some(SwapSpec(Quay(data[1] == 1), data[2], data[3], U32At(data, 4), data[8]))
  }

  /** `count` legs; whatever follows them is never read. */
  function DecodeSpecs(data: bytes, count: nat): (r: Option<seq<SwapSpec>>)
    decreases count
  {
    if count == 0 then Some([])
    else if |data| < 9 then None
    else
      match DecodeSpec(data)
      case None => None
      case Some(spec) =>
        match DecodeSpecs(data[9..], count - 1)
        case None => None
        case Some(rest) => Some([spec] + rest)
  }

  datatype RouteArgs = RouteArgs(amount: u64, mints: u8, swaps: seq<SwapSpec>)

  function DecodeRoute(data: bytes): (r: Option<RouteArgs>) {
    if |data| < 14 || data[0] != SWAP_ROUTE_V3_DISCRIMINATOR then None
    else
      match DecodeSpecs(data[14..], U32At(data, 10))
      case None => None
      case Some(swaps) => Some(RouteArgs(U64At(data, 1), data[9], swaps))
  }

  lemma SpecRoundTrip(spec: SwapSpec, rest: bytes)
    ensures DecodeSpec(EncodeSpec(spec) + rest) == Some(spec)
  {
    var data := EncodeSpec(spec) + rest;
    assert data[4..8] == LeBytes(spec.weightNanos, 4);
    U32RoundTrip(spec.weightNanos);
  }

  lemma {:induction false} SpecsRoundTrip(swaps: seq<SwapSpec>, after: bytes)
    ensures DecodeSpecs(EncodeSpecs(swaps) + after, |swaps|) == Some(swaps)
  {
    hide EncodeSpec;
    hide DecodeSpec;
    if swaps != [] {
      var rest := EncodeSpecs(swaps[1..]) + after;
      SpecRoundTrip(swaps[0], rest);
      SpecsRoundTrip(swaps[1..], after);
      assert EncodeSpecs(swaps) + after == EncodeSpec(swaps[0]) + rest;
      assert (EncodeSpec(swaps[0]) + rest)[9..] == rest;
      assert [swaps[0]] + swaps[1..] == swaps;
    }
  }

  lemma {:induction false} DecodedCount(data: bytes, count: nat)
    ensures DecodeSpecs(data, count).Some? ==> |DecodeSpecs(data, count).value| == count && 9 * count <= |data|
    decreases count
  {
    if count > 0 && |data| >= 9 {
      DecodedCount(data[9..], count - 1);
    }
  }

  lemma SpecCanonical(data: bytes)
    requires |data| == 9 && DecodeSpec(data).Some?
    ensures EncodeSpec(DecodeSpec(data).value) == data
  {
    LeCanonical(data[4..8]);
    assert data == [data[0], data[1]] + [data[2], data[3]] + data[4..8] + [data[8]];
  }

  lemma DecodeSpecPrefix(data: bytes)
    requires |data| >= 9
    ensures DecodeSpec(data) == DecodeSpec(data[..9])
  {
    assert data[..9][4..8] == data[4..8];
  }

  /** Legs that decode are what their bytes encode. */
  lemma {:induction false} SpecsCanonical(data: bytes, count: nat)
    requires DecodeSpecs(data, count).Some?
    ensures EncodeSpecs(DecodeSpecs(data, count).value) <= data
    decreases count
  {
    hide EncodeSpec;
    hide DecodeSpec;
    if count > 0 {
      DecodeSpecPrefix(data);
      SpecCanonical(data[..9]);
      SpecsCanonical(data[9..], count - 1);
      assert data[..9] + data[9..] == data;
    }
  }

  /** The header's fields, wherever the legs end. */
  lemma HeaderFields(amount: u64, mints: u8, count: u32, body: bytes)
    ensures var data := EncodeHeader(amount, mints, count) + body;
            data[0] == 42 && data[9] == mints && data[14..] == body && U64At(data, 1) == amount && U32At(data, 10) == count
  {
    var data := EncodeHeader(amount, mints, count) + body;
    assert data[1..9] == LeBytes(amount, 8);
    assert data[10..14] == LeBytes(count, 4);
    U64RoundTrip(amount);
    U32RoundTrip(count);
  }

  lemma HeaderCanonical(data: bytes)
    requires |data| >= 14 && data[0] == 42
    ensures EncodeHeader(U64At(data, 1), data[9], U32At(data, 10)) == data[..14]
  {
    LeCanonical(data[1..9]);
    LeCanonical(data[10..14]);
    assert data[..14] == [data[0]] + data[1..9] + [data[9]] + data[10..14];
  }

  /** The program accepts exactly the encodings of routes of fewer than `2^32` legs, and reads
      back the route encoded; bytes after an encoding are ignored. */
  lemma AcceptedIff(data: bytes, args: RouteArgs)
    ensures DecodeRoute(data) == Some(args) <==>
            |args.swaps| < 0x1_0000_0000 && EncodeRoute(args.amount, args.mints, args.swaps) <= data
  {
    hide EncodeHeader;
    hide EncodeSpecs;
    hide DecodeSpecs;
    if DecodeRoute(data) == Some(args) {
      HeaderCanonical(data);
      SpecsCanonical(data[14..], U32At(data, 10));
      DecodedCount(data[14..], U32At(data, 10));
      assert data == data[..14] + data[14..];
    }
    if |args.swaps| < 0x1_0000_0000 && EncodeRoute(args.amount, args.mints, args.swaps) <= data {
      var header, legs := EncodeHeader(args.amount, args.mints, |args.swaps|), EncodeSpecs(args.swaps);
      var after := data[14 + |legs|..];
      assert data == header + (legs + after);
      HeaderFields(args.amount, args.mints, |args.swaps|, legs + after);
      SpecsRoundTrip(args.swaps, after);
    }
  }

  /** The wire round trip: the program reads back exactly what was encoded if and only if
      the leg count fits its four bytes. */
  lemma RouteRoundTripIff(amount: u64, mints: u8, swaps: seq<SwapSpec>)
    ensures DecodeRoute(EncodeRoute(amount, mints, swaps)) == Some(RouteArgs(amount, mints, swaps))
            <==> |swaps| < 0x1_0000_0000
  {
    AcceptedIff(EncodeRoute(amount, mints, swaps), RouteArgs(amount, mints, swaps));
  }

  // ---- The layout, byte by byte ---------------------------------------------------

  lemma {:induction false} SpecsSlice(swaps: seq<SwapSpec>, k: nat)
    requires k < |swaps|
    ensures EncodeSpecs(swaps)[9 * k..9 * k + 9] == EncodeSpec(swaps[k])
  {
    hide EncodeSpec;
    if k > 0 {
      SpecsSlice(swaps[1..], k - 1);
      var head, rest := EncodeSpec(swaps[0]), EncodeSpecs(swaps[1..]);
      assert (head + rest)[9 + 9 * (k - 1)..9 + 9 * (k - 1) + 9] == rest[9 * (k - 1)..9 * (k - 1) + 9];
    }
  }

  lemma SpecLayout(spec: SwapSpec)
    ensures var data := EncodeSpec(spec);
            && data[0] == 0 && data[1] == (if spec.venue.sellBase then 1 else 0)
            && data[2] == spec.from && data[3] == spec.to && U32At(data, 4) == spec.weightNanos && data[8] == spec.nAccounts
  {
    assert EncodeSpec(spec)[4..8] == LeBytes(spec.weightNanos, 4);
    U32RoundTrip(spec.weightNanos);
  }

  /** Where each field stands: the discriminator 42, the amount, the mint count and the leg
      count, then nine bytes a leg, the venue's tag and side first. */
  lemma RouteLayout(amount: u64, mints: u8, swaps: seq<SwapSpec>, k: nat)
    requires k < |swaps|
    ensures var data := EncodeRoute(amount, mints, swaps);
            var at := 14 + 9 * k;
            && |data| == 14 + 9 * |swaps| && at + 9 <= |data|
            && data[0] == 42 && U64At(data, 1) == amount && data[9] == mints && U32At(data, 10) == |swaps| % 0x1_0000_0000
            && data[at] == 0 && data[at + 1] == (if swaps[k].venue.sellBase then 1 else 0)
            && data[at + 2] == swaps[k].from && data[at + 3] == swaps[k].to
            && U32At(data, at + 4) == swaps[k].weightNanos && data[at + 8] == swaps[k].nAccounts
  {
    hide EncodeHeader;
    hide EncodeSpecs;
    hide EncodeSpec;
    var specs := EncodeSpecs(swaps);
    var data := EncodeRoute(amount, mints, swaps);
    HeaderFields(amount, mints, |swaps| % 0x1_0000_0000, specs);
    SpecsSlice(swaps, k);
    SpecLayout(swaps[k]);
    var at := 14 + 9 * k;
    assert data[at..at + 9] == specs[9 * k..9 * k + 9];
    forall i | 0 <= i < 9 ensures data[at + i] == EncodeSpec(swaps[k])[i] {
      assert data[at..at + 9][i] == data[at + i];
    }
    assert data[at + 0] == EncodeSpec(swaps[k])[0];
    assert data[at + 4..at + 8] == EncodeSpec(swaps[k])[4..8];
  }
}
