/** The Quay venue's state and its per-slot refresh (src/quay/mod.rs, src/quay/state.rs).
    Account decoding and address derivation are foreign, so they are parameters. */
module QuayVenue {
  import opened Base
  import opened Bytes
  import opened TradingVenue

  datatype ChainAccount = ChainAccount(owner: Pubkey, data: bytes)

  datatype StrategyHeader = StrategyHeader(
    owner: Pubkey,
    baseMint: Pubkey,
    quoteMint: Pubkey,
    quotesAccount: Pubkey,
    routingFlags: bv8,
    frozen: u8,
    frozenAdmin: u8,
    priceProbeBase: u64,
    priceProbeQuote: u64)

  datatype MarketMakerHeader = MarketMakerHeader(frozen: u8, frozenAdmin: u8, haltedAdmin: u8)

  datatype GlobalConfig = GlobalConfig(swapHalted: u8, protocolHalted: u8)

  datatype TokenInfo = TokenInfo(pubkey: Pubkey, decimals: u8, isToken2022: bool)

  /** The SDK's decoders and derivations: any partial functions of the right shape. */
  datatype Sdk = Sdk(
    strategy: bytes -> Option<StrategyHeader>,
    marketMaker: bytes -> Option<MarketMakerHeader>,
    config: bytes -> Option<GlobalConfig>,
    extKeys: (StrategyHeader, bytes) -> Option<seq<Pubkey>>,
    mintDecimals: bytes -> Option<u8>,
    marketMakerPda: (Pubkey, Pubkey) -> Pubkey,
    configPda: Pubkey -> Pubkey,
    vaultPda: (Pubkey, Pubkey, Pubkey) -> Pubkey,
    token2022: Pubkey,
    clock: Pubkey,
    routeTitan: bv8)

  /** The venue's fields, as a value. */
  datatype State = State(
    programId: Pubkey,
    strategyKey: Pubkey,
    strategyData: bytes,
    mmKey: Pubkey,
    mmData: bytes,
    quotesKey: Pubkey,
    quotesData: bytes,
    configKey: Pubkey,
    configData: bytes,
    baseMint: Pubkey,
    quoteMint: Pubkey,
    vaultBaseKey: Pubkey,
    vaultQuoteKey: Pubkey,
    extKeys: seq<Pubkey>,
    extData: seq<bytes>,
    tokens: seq<TokenInfo>,
    routingFlags: bv8,
    halts: Halts,
    priceProbeBase: u64,
    priceProbeQuote: u64,
    currentSlot: u64,
    currentUnixSec: i64)

  /** The seven halt and freeze bytes; clear when all zero. */
  datatype Halts = Halts(
    configSwap: u8,
    configProtocol: u8,
    strategyFrozen: u8,
    strategyFrozenAdmin: u8,
    mmFrozen: u8,
    mmFrozenAdmin: u8,
    mmHaltedAdmin: u8)

  const WARMUP := Halts(1, 1, 1, 1, 1, 1, 1)
  const CLEAR := Halts(0, 0, 0, 0, 0, 0, 0)

  /** `decode_clock`: slot at byte 0, unix time at byte 32, signed. */
  function DecodeClock(data: bytes): (r: Option<(u64, i64)>) {
    if |data| < 40 then None else Some((U64At(data, 0), ToSigned(U64At(data, 32))))
  }

  /** The clock decoder reads its two fields whatever lies between and after them. */
  lemma ClockFields(slot: u64, seconds: u64, middle: bytes, rest: bytes)
    requires |middle| == 24
    ensures DecodeClock(LeBytes(slot, 8) + middle + LeBytes(seconds, 8) + rest) == Some((slot, ToSigned(seconds)))
  {
    var data := LeBytes(slot, 8) + middle + LeBytes(seconds, 8) + rest;
    assert data[0..8] == LeBytes(slot, 8);
    assert data[32..40] == LeBytes(seconds, 8);
    U64RoundTrip(slot);
    U64RoundTrip(seconds);
  }

  /** `TokenInfo::new`. */
  function NewTokenInfo(sdk: Sdk, mint: Pubkey, account: ChainAccount): (r: Result<TokenInfo, VenueError>) {
    match sdk.mintDecimals(account.data)
    case Some(decimals) => Ok(TokenInfo(mint, decimals, account.owner == sdk.token2022))
    case None => Err(DeserializationFailed)
  }

  function Decoded<T>(header: Option<T>): (r: Result<T, VenueError>) {
    if header.Some? then Ok(header.value) else Err(DeserializationFailed)
  }

  function Found(account: Option<ChainAccount>, key: Pubkey): (r: Result<ChainAccount, VenueError>) {
    if account.Some? then Ok(account.value) else Err(NoAccountFound(key))
  }

  /** `from_account`: addresses derived, every halt byte up, nothing else loaded. */
  function FromAccount(sdk: Sdk, key: Pubkey, account: ChainAccount): (r: Result<State, VenueError>) {
    var header :- Decoded(sdk.strategy(account.data));
    var mmKey := sdk.marketMakerPda(account.owner, header.owner);
    var extKeys :- Decoded(sdk.extKeys(header, account.data));
    Ok(State(account.owner, key, account.data, mmKey, [], header.quotesAccount, [], sdk.configPda(account.owner), [],
             header.baseMint, header.quoteMint,
             sdk.vaultPda(account.owner, mmKey, header.baseMint), sdk.vaultPda(account.owner, mmKey, header.quoteMint),
             extKeys, [], [], header.routingFlags, WARMUP, header.priceProbeBase, header.priceProbeQuote, 0, 0))
  }

  /** `required_update_pubkeys`: nine fixed keys, then the bound external accounts. */
  function RequiredKeys(sdk: Sdk, s: State): (keys: seq<Pubkey>)
    ensures |keys| == 9 + |s.extKeys|
  {
    [s.strategyKey, s.mmKey, s.quotesKey, s.configKey, s.baseMint, s.quoteMint, s.vaultBaseKey, s.vaultQuoteKey, sdk.clock]
    + s.extKeys
  }

  predicate HasAllState(s: State) {
    |s.extData| == |s.extKeys| && s.mmData != [] && s.quotesData != [] && s.configData != []
  }

  predicate HaltsClear(s: State) { s.halts == CLEAR }

  predicate RoutedBy(flags: bv8, route: bv8) { flags & route != 0 }

  predicate Initialized(sdk: Sdk, s: State) {
    RoutedBy(s.routingFlags, sdk.routeTitan) && HasAllState(s) && HaltsClear(s)
  }

  /** Slots 9 and up of a reply. */
  function ExtSlots(accounts: seq<Option<ChainAccount>>): seq<Option<ChainAccount>> {
    if |accounts| >= 9 then accounts[9..] else []
  }

  /** External data for a freshly decoded binding: nothing unless the binding is the one
      fetched under and every account came back. */
  function FreshExtData(previous: seq<Pubkey>, bound: seq<Pubkey>, slots: seq<Option<ChainAccount>>): (data: seq<bytes>) {
    if bound == previous && |slots| >= |bound| && (forall i :: 0 <= i < |bound| ==> slots[i].Some?)
    then seq(|bound|, (i: nat) requires i < |bound| && |slots| >= |bound| && slots[i].Some? => slots[i].value.data)
    else []
  }

  /** Everything a refresh reads out of one reply. */
  datatype Batch = Batch(
    strategyData: bytes,
    strategy: StrategyHeader,
    mmData: bytes,
    mm: MarketMakerHeader,
    quotesData: bytes,
    configData: bytes,
    config: GlobalConfig,
    baseInfo: TokenInfo,
    quoteInfo: TokenInfo,
    slot: u64,
    unixSec: i64,
    bound: seq<Pubkey>)

  /** The decoding half of `refresh_state`, slot by slot. */
  function DecodeBatch(sdk: Sdk, s: State, accounts: seq<Option<ChainAccount>>): (r: Result<Batch, VenueError>)
    requires |accounts| >= 9
  {
    var strategyAccount :- Found(accounts[0], s.strategyKey);
    var strategy :- Decoded(sdk.strategy(strategyAccount.data));
    var mmAccount :- Found(accounts[1], s.mmKey);
    var mm :- Decoded(sdk.marketMaker(mmAccount.data));
    var quotesAccount :- Found(accounts[2], s.quotesKey);
    var configAccount :- Found(accounts[3], s.configKey);
    var config :- Decoded(sdk.config(configAccount.data));
    var baseAccount :- Found(accounts[4], s.baseMint);
    var quoteAccount :- Found(accounts[5], s.quoteMint);
    var baseInfo :- NewTokenInfo(sdk, s.baseMint, baseAccount);
    var quoteInfo :- NewTokenInfo(sdk, s.quoteMint, quoteAccount);
    var _ :- Found(accounts[6], s.vaultBaseKey);
    var _ :- Found(accounts[7], s.vaultQuoteKey);
    var clockAccount :- Found(accounts[8], sdk.clock);
    var clock :- Decoded(DecodeClock(clockAccount.data));
    var bound :- Decoded(sdk.extKeys(strategy, strategyAccount.data));
    Ok(Batch(strategyAccount.data, strategy, mmAccount.data, mm, quotesAccount.data, configAccount.data, config,
             baseInfo, quoteInfo, clock.0, clock.1, bound))
  }

  function BatchHalts(b: Batch): Halts {
    Halts(b.config.swapHalted, b.config.protocolHalted, b.strategy.frozen, b.strategy.frozenAdmin,
          b.mm.frozen, b.mm.frozenAdmin, b.mm.haltedAdmin)
  }

  /** The committing half: every refreshed field from the one batch. */
  function Commit(s: State, b: Batch, extData: seq<bytes>): State {
    s.(strategyData := b.strategyData, extKeys := b.bound, extData := extData,
       routingFlags := b.strategy.routingFlags, halts := BatchHalts(b),
       priceProbeBase := b.strategy.priceProbeBase, priceProbeQuote := b.strategy.priceProbeQuote,
       mmData := b.mmData, quotesData := b.quotesData, configData := b.configData,
       tokens := [b.baseInfo, b.quoteInfo], currentSlot := b.slot, currentUnixSec := b.unixSec)
  }

  type Reply = Result<seq<Option<ChainAccount>>, VenueError>

  /** `refresh_state`: decode everything, then commit everything. */
  function Refresh(sdk: Sdk, s: State, reply: Reply): (r: Result<State, VenueError>) {
    var accounts :- reply;
    if |accounts| != |RequiredKeys(sdk, s)| then Err(FailedToFetchMultipleAccountData)
    else
      var b :- DecodeBatch(sdk, s, accounts);
      Ok(Commit(s, b, FreshExtData(s.extKeys, b.bound, ExtSlots(accounts))))
  }

  // ---- The venue as an object -----------------------------------------------------

  class QuayVenue {
    const sdk: Sdk
    const programId: Pubkey
    const strategyKey: Pubkey
    var strategyData: bytes
    const mmKey: Pubkey
    var mmData: bytes
    const quotesKey: Pubkey
    var quotesData: bytes
    const configKey: Pubkey
    var configData: bytes
    const baseMint: Pubkey
    const quoteMint: Pubkey
    const vaultBaseKey: Pubkey
    const vaultQuoteKey: Pubkey
    var extKeys: seq<Pubkey>
    var extData: seq<bytes>
    var tokens: seq<TokenInfo>
    var routingFlags: bv8
    var halts: Halts
    var priceProbeBase: u64
    var priceProbeQuote: u64
    var currentSlot: u64
    var currentUnixSec: i64

    function Now(): State
      reads this
    {
      State(programId, strategyKey, strategyData, mmKey, mmData, quotesKey, quotesData, configKey, configData,
            baseMint, quoteMint, vaultBaseKey, vaultQuoteKey, extKeys, extData, tokens, routingFlags, halts,
            priceProbeBase, priceProbeQuote, currentSlot, currentUnixSec)
    }

    constructor (sdk: Sdk, s: State)
      ensures this.sdk == sdk && Now() == s
    {
      this.sdk := sdk;
      programId, strategyKey, strategyData, mmKey, mmData := s.programId, s.strategyKey, s.strategyData, s.mmKey, s.mmData;
      quotesKey, quotesData, configKey, configData := s.quotesKey, s.quotesData, s.configKey, s.configData;
      baseMint, quoteMint, vaultBaseKey, vaultQuoteKey := s.baseMint, s.quoteMint, s.vaultBaseKey, s.vaultQuoteKey;
      extKeys, extData, tokens, routingFlags, halts := s.extKeys, s.extData, s.tokens, s.routingFlags, s.halts;
      priceProbeBase, priceProbeQuote := s.priceProbeBase, s.priceProbeQuote;
      currentSlot, currentUnixSec := s.currentSlot, s.currentUnixSec;
    }

    method IsInitialized() returns (ready: bool)
      ensures ready == Initialized(sdk, Now())
    {
      hide RoutedBy;
      ready := RoutedBy(routingFlags, sdk.routeTitan)
        && |extData| == |extKeys| && mmData != [] && quotesData != [] && configData != []
        && halts == CLEAR;
    }

    method RequiredUpdatePubkeys() returns (keys: seq<Pubkey>)
      ensures keys == RequiredKeys(sdk, Now())
    {
      keys := [strategyKey, mmKey, quotesKey, configKey, baseMint, quoteMint, vaultBaseKey, vaultQuoteKey, sdk.clock] + extKeys;
    }

    /** The external-data loop: collect under the previous binding, give up on a gap. */
    method CollectExtData(bound: seq<Pubkey>, slots: seq<Option<ChainAccount>>) returns (data: seq<bytes>)
      ensures data == FreshExtData(extKeys, bound, slots)
    {
      data := [];
      if bound == extKeys {
        for i := 0 to |bound|
          invariant |data| == i <= |slots|
          invariant forall j :: 0 <= j < i ==> slots[j].Some? && data[j] == slots[j].value.data
        {
          if i < |slots| && slots[i].Some? {
            data := data + [slots[i].value.data];
          } else {
            return [];
          }
        }
      }
    }

    /** The commit, field by field: first what the strategy account carries... */
    method CommitStrategy(b: Batch, freshExtData: seq<bytes>)
      modifies this
      ensures Now() == old(Now()).(strategyData := b.strategyData, extKeys := b.bound, extData := freshExtData,
        routingFlags := b.strategy.routingFlags,
        priceProbeBase := b.strategy.priceProbeBase, priceProbeQuote := b.strategy.priceProbeQuote)
    {
      strategyData := b.strategyData;
      extKeys := b.bound;
      extData := freshExtData;
      routingFlags := b.strategy.routingFlags;
      priceProbeBase := b.strategy.priceProbeBase;
      priceProbeQuote := b.strategy.priceProbeQuote;
    }

    /** ...then the accounts it depends on. */
    method CommitDependents(b: Batch)
      modifies this
      ensures Now() == old(Now()).(mmData := b.mmData, quotesData := b.quotesData, configData := b.configData,
        halts := BatchHalts(b), tokens := [b.baseInfo, b.quoteInfo],
        currentSlot := b.slot, currentUnixSec := b.unixSec)
    {
      hide BatchHalts;
      mmData := b.mmData;
      quotesData := b.quotesData;
      configData := b.configData;
      halts := BatchHalts(b);
      tokens := [b.baseInfo, b.quoteInfo];
      currentSlot := b.slot;
      currentUnixSec := b.unixSec;
    }

    /** Atomic: on any error every field is as it was. */
    method RefreshState(reply: Reply) returns (r: Result<(), VenueError>)
      modifies this
      ensures match Refresh(sdk, old(Now()), reply)
              case Ok(after) => r == Ok(()) && Now() == after
              case Err(e) => r == Err(e) && Now() == old(Now())
    {
      hide DecodeBatch;
      hide FreshExtData;
      hide ExtSlots;
      hide RequiredKeys;
      var needed := RequiredUpdatePubkeys();
      if reply.Err? {
        return Err(reply.error);
      }
      var accounts := reply.value;
      if |accounts| != |needed| {
        return Err(FailedToFetchMultipleAccountData);
      }
      var decoded := DecodeBatch(sdk, Now(), accounts);
      if decoded.Err? {
        return Err(decoded.error);
      }
      var b := decoded.value;
      var freshExtData := CollectExtData(b.bound, ExtSlots(accounts));

      CommitStrategy(b, freshExtData);
      CommitDependents(b);
      r := Ok(());
    }
  }
}
