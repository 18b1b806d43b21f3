/** The venue's life over every sequence of refreshes. */
module VenueProofs {
  import opened Base
  import opened Bytes
  import opened TradingVenue
  import opened QuayVenue

  /** One refresh, successful or not. */
  function Update(sdk: Sdk, s: State, reply: Reply): State {
    match Refresh(sdk, s, reply)
    case Ok(after) => after
    case Err(_) => s
  }

  function Run(sdk: Sdk, s: State, replies: seq<Reply>): State
    decreases |replies|
  {
    if replies == [] then s
    else Update(sdk, Run(sdk, s, replies[..|replies| - 1]), replies[|replies| - 1])
  }

  /** What the published fields say is what the published blobs say. */
  ghost predicate HeadersMatch(sdk: Sdk, s: State) {
    && sdk.strategy(s.strategyData).Some? && sdk.marketMaker(s.mmData).Some? && sdk.config(s.configData).Some?
    && var strategy, mm, config :=
         sdk.strategy(s.strategyData).value, sdk.marketMaker(s.mmData).value, sdk.config(s.configData).value;
       && s.routingFlags == strategy.routingFlags
       && s.priceProbeBase == strategy.priceProbeBase && s.priceProbeQuote == strategy.priceProbeQuote
       && s.halts == Halts(config.swapHalted, config.protocolHalted, strategy.frozen, strategy.frozenAdmin,
                           mm.frozen, mm.frozenAdmin, mm.haltedAdmin)
       && sdk.extKeys(strategy, s.strategyData) == Some(s.extKeys)
  }

  ghost predicate TokensMatch(sdk: Sdk, s: State, base: ChainAccount, quote: ChainAccount) {
    && |s.tokens| == 2 && s.tokens[0].pubkey == s.baseMint && s.tokens[1].pubkey == s.quoteMint
    && NewTokenInfo(sdk, s.baseMint, base) == Ok(s.tokens[0])
    && NewTokenInfo(sdk, s.quoteMint, quote) == Ok(s.tokens[1])
  }

  /** External data, where there is any, is the data of the bound keys, slot by slot. */
  ghost predicate ExtPaired(s: State, keys: seq<Pubkey>, slots: seq<Option<ChainAccount>>) {
    s.extData == [] ||
    (|s.extData| == |s.extKeys| <= |slots| && keys == s.extKeys &&
     forall i :: 0 <= i < |s.extData| ==> slots[i].Some? && slots[i].value.data == s.extData[i])
  }

  /** Everything the venue prices with was read from this one batch of accounts, fetched
      for these keys, each datum from the slot its key asked for. */
  ghost predicate FromOneBatch(sdk: Sdk, s: State, keys: seq<Pubkey>, accounts: seq<Option<ChainAccount>>) {
    && |keys| == |accounts| >= 9
    && keys[..9] == RequiredKeys(sdk, s)[..9]
    && (forall i :: 0 <= i < 9 ==> accounts[i].Some?)
    && s.strategyData == accounts[0].value.data && s.mmData == accounts[1].value.data
    && s.quotesData == accounts[2].value.data && s.configData == accounts[3].value.data
    && HeadersMatch(sdk, s)
    && TokensMatch(sdk, s, accounts[4].value, accounts[5].value)
    && DecodeClock(accounts[8].value.data) == Some((s.currentSlot, s.currentUnixSec))
    && ExtPaired(s, keys[9..], accounts[9..])
  }

  lemma DecodedBatch(sdk: Sdk, s: State, accounts: seq<Option<ChainAccount>>)
    requires |accounts| >= 9 && DecodeBatch(sdk, s, accounts).Ok?
    ensures var b := DecodeBatch(sdk, s, accounts).value;
            && (forall i :: 0 <= i < 9 ==> accounts[i].Some?)
            && b.strategyData == accounts[0].value.data && b.mmData == accounts[1].value.data
            && b.quotesData == accounts[2].value.data && b.configData == accounts[3].value.data
            && sdk.strategy(b.strategyData) == Some(b.strategy) && sdk.marketMaker(b.mmData) == Some(b.mm)
            && sdk.config(b.configData) == Some(b.config)
            && sdk.extKeys(b.strategy, b.strategyData) == Some(b.bound)
            && NewTokenInfo(sdk, s.baseMint, accounts[4].value) == Ok(b.baseInfo)
            && NewTokenInfo(sdk, s.quoteMint, accounts[5].value) == Ok(b.quoteInfo)
            && DecodeClock(accounts[8].value.data) == Some((b.slot, b.unixSec))
  {
    hide NewTokenInfo;
    hide DecodeClock;
    assert accounts[0].Some? && accounts[1].Some? && accounts[2].Some? && accounts[3].Some?;
    assert accounts[4].Some? && accounts[5].Some? && accounts[6].Some? && accounts[7].Some? && accounts[8].Some?;
  }

  lemma CommittedExt(previous: State, bound: seq<Pubkey>, slots: seq<Option<ChainAccount>>, after: State)
    requires |slots| == |previous.extKeys|
    requires after.extKeys == bound && after.extData == FreshExtData(previous.extKeys, bound, slots)
    ensures ExtPaired(after, previous.extKeys, slots)
  {
  }

  /** A successful refresh publishes one batch. */
  lemma RefreshIsOneBatch(sdk: Sdk, s: State, reply: Reply)
    requires Refresh(sdk, s, reply).Ok?
    ensures reply.Ok? && FromOneBatch(sdk, Refresh(sdk, s, reply).value, RequiredKeys(sdk, s), reply.value)
  {
    hide DecodeBatch;
    hide FreshExtData;
    hide NewTokenInfo;
    hide DecodeClock;
    var accounts := reply.value;
    DecodedBatch(sdk, s, accounts);
    var b := DecodeBatch(sdk, s, accounts).value;
    var after := Refresh(sdk, s, reply).value;
    CommittedExt(s, b.bound, accounts[9..], after);
    assert RequiredKeys(sdk, s)[9..] == s.extKeys;
    assert RequiredKeys(sdk, s)[..9] == RequiredKeys(sdk, after)[..9];
    TokenInfoNamesMint(sdk, s.baseMint, accounts[4].value);
    TokenInfoNamesMint(sdk, s.quoteMint, accounts[5].value);
  }

  lemma TokenInfoNamesMint(sdk: Sdk, mint: Pubkey, account: ChainAccount)
    ensures NewTokenInfo(sdk, mint, account).Ok? ==> NewTokenInfo(sdk, mint, account).value.pubkey == mint
  {
  }

  /** Over any run of refreshes, failed, partial, rebinding or successful: an initialized
      venue stands exactly as one successful batch left it, and every later refresh failed. */
  lemma {:induction false} InitializedMeansOneBatch(sdk: Sdk, key: Pubkey, account: ChainAccount, replies: seq<Reply>) returns (j: nat)
    requires FromAccount(sdk, key, account).Ok?
    requires Initialized(sdk, Run(sdk, FromAccount(sdk, key, account).value, replies))
    ensures var start := FromAccount(sdk, key, account).value;
            var s := Run(sdk, start, replies);
            && j < |replies| && replies[j].Ok?
            && FromOneBatch(sdk, s, RequiredKeys(sdk, Run(sdk, start, replies[..j])), replies[j].value)
            && forall m :: j < m < |replies| ==> Refresh(sdk, s, replies[m]).Err?
    decreases |replies|
  {
    hide FromOneBatch;
    hide Refresh;
    var start := FromAccount(sdk, key, account).value;
    if replies == [] {
      assert false;
    } else {
      var last := |replies| - 1;
      var before := Run(sdk, start, replies[..last]);
      if Refresh(sdk, before, replies[last]).Ok? {
        RefreshIsOneBatch(sdk, before, replies[last]);
        j := last;
      } else {
        j := InitializedMeansOneBatch(sdk, key, account, replies[..last]);
        assert replies[..last][..j] == replies[..j];
      }
    }
  }

  /** A new venue fails closed on its halt bytes alone, whatever else it came to hold. */
  lemma WarmupIsHalted(sdk: Sdk, key: Pubkey, account: ChainAccount, s: State)
    requires FromAccount(sdk, key, account).Ok? && s.halts == FromAccount(sdk, key, account).value.halts
    ensures !Initialized(sdk, s)
  {
    hide RoutedBy;
  }

  /** Coverage after a refresh: an empty binding, or the old binding with every slot there. */
  lemma CoveredIff(sdk: Sdk, s: State, reply: Reply)
    requires Refresh(sdk, s, reply).Ok?
    ensures var after := Refresh(sdk, s, reply).value;
            |after.extData| == |after.extKeys| <==>
            after.extKeys == [] ||
            (after.extKeys == s.extKeys && forall slot :: slot in ExtSlots(reply.value) ==> slot.Some?)
  {
    hide DecodeBatch;
    assert |ExtSlots(reply.value)| == |s.extKeys|;
  }

  /** Rebinding to other accounts leaves the venue dark until the next refresh. */
  lemma RebindGoesDark(sdk: Sdk, s: State, reply: Reply)
    requires Refresh(sdk, s, reply).Ok?
    requires var after := Refresh(sdk, s, reply).value; after.extKeys != s.extKeys && after.extKeys != []
    ensures !Initialized(sdk, Refresh(sdk, s, reply).value)
  {
    CoveredIff(sdk, s, reply);
  }

  /** These accounts decode to an opted-in strategy with all seven halt bytes zero. */
  ghost predicate OpenToTitan(sdk: Sdk, strategyData: bytes, mmData: bytes, configData: bytes) {
    && sdk.strategy(strategyData).Some? && sdk.marketMaker(mmData).Some? && sdk.config(configData).Some?
    && var strategy, mm, config :=
         sdk.strategy(strategyData).value, sdk.marketMaker(mmData).value, sdk.config(configData).value;
       && RoutedBy(strategy.routingFlags, sdk.routeTitan)
       && config.swapHalted == 0 && config.protocolHalted == 0
       && strategy.frozen == 0 && strategy.frozenAdmin == 0
       && mm.frozen == 0 && mm.frozenAdmin == 0 && mm.haltedAdmin == 0
  }

  /** Opted in: the strategy's flags and the route's share a bit. */
  lemma RoutedByBits(flags: bv8, route: bv8)
    ensures RoutedBy(flags, route) <==> flags & route != 0
  {
  }

  lemma GateOfHeaders(sdk: Sdk, s: State)
    requires HeadersMatch(sdk, s)
    ensures Initialized(sdk, s) <==>
            OpenToTitan(sdk, s.strategyData, s.mmData, s.configData)
            && s.mmData != [] && s.quotesData != [] && s.configData != [] && |s.extData| == |s.extKeys|
  {
    hide RoutedBy;
  }

  /** The slots that carry the blobs of a refreshed venue. */
  lemma BlobSlots(sdk: Sdk, s: State, reply: Reply)
    requires Refresh(sdk, s, reply).Ok?
    ensures reply.Ok? && |reply.value| >= 9 && forall i :: 0 <= i < 9 ==> reply.value[i].Some?
    ensures var after := Refresh(sdk, s, reply).value;
            && HeadersMatch(sdk, after)
            && after.strategyData == reply.value[0].value.data && after.mmData == reply.value[1].value.data
            && after.quotesData == reply.value[2].value.data && after.configData == reply.value[3].value.data
  {
    hide Refresh;
    hide HeadersMatch;
    RefreshIsOneBatch(sdk, s, reply);
  }

  /** What a successful refresh makes of the gate, in terms of the accounts it read: the venue
      quotes if and only if they are open to Titan, none of the blobs is empty, and the strategy
      binds nothing, or just the external accounts fetched with it and none is missing. */
  lemma InitializedAfterIff(sdk: Sdk, s: State, reply: Reply)
    requires Refresh(sdk, s, reply).Ok?
    ensures reply.Ok? && |reply.value| >= 9 && forall i :: 0 <= i < 9 ==> reply.value[i].Some?
    ensures var data := (i: nat) requires i < 4 => reply.value[i].value.data;
            var bound := Refresh(sdk, s, reply).value.extKeys;
            Initialized(sdk, Refresh(sdk, s, reply).value) <==>
              && OpenToTitan(sdk, data(0), data(1), data(3))
              && data(1) != [] && data(2) != [] && data(3) != []
              && (bound == [] || (bound == s.extKeys && forall slot :: slot in ExtSlots(reply.value) ==> slot.Some?))
  {
    hide Refresh;
    hide HeadersMatch;
    hide OpenToTitan;
    hide Initialized;
    hide ExtSlots;
    BlobSlots(sdk, s, reply);
    CoveredIff(sdk, s, reply);
    GateOfHeaders(sdk, Refresh(sdk, s, reply).value);
  }

  /** Two states of one venue: the program and the nine accounts it reads are the same. */
  predicate SameVenue(s: State, t: State) {
    && s.programId == t.programId && s.strategyKey == t.strategyKey && s.mmKey == t.mmKey
    && s.quotesKey == t.quotesKey && s.configKey == t.configKey && s.baseMint == t.baseMint
    && s.quoteMint == t.quoteMint && s.vaultBaseKey == t.vaultBaseKey && s.vaultQuoteKey == t.vaultQuoteKey
  }

  /** Whatever a run of refreshes brought, it is the same venue. */
  lemma {:induction false} RunKeepsVenue(sdk: Sdk, start: State, replies: seq<Reply>)
    ensures SameVenue(Run(sdk, start, replies), start)
    decreases |replies|
  {
    if replies != [] {
      RunKeepsVenue(sdk, start, replies[..|replies| - 1]);
    }
  }

  /** The accounts a venue reads, derived from the strategy it was made of: over any run of
      refreshes every fetch asks first for these nine. */
  lemma FetchesSameNine(sdk: Sdk, key: Pubkey, account: ChainAccount, replies: seq<Reply>)
    requires FromAccount(sdk, key, account).Ok?
    ensures sdk.strategy(account.data).Some? && sdk.extKeys(sdk.strategy(account.data).value, account.data).Some?
    ensures var start := FromAccount(sdk, key, account).value;
            var header := sdk.strategy(account.data).value;
            var maker := sdk.marketMakerPda(account.owner, header.owner);
            && RequiredKeys(sdk, Run(sdk, start, replies))[..9] ==
               [key, maker, header.quotesAccount, sdk.configPda(account.owner), header.baseMint, header.quoteMint,
                sdk.vaultPda(account.owner, maker, header.baseMint), sdk.vaultPda(account.owner, maker, header.quoteMint),
                sdk.clock]
            && Run(sdk, start, replies).programId == account.owner
            && RequiredKeys(sdk, start)[9..] == sdk.extKeys(header, account.data).value
  {
    hide Run;
    RunKeepsVenue(sdk, FromAccount(sdk, key, account).value, replies);
  }

  // ---- When a refresh succeeds ----------------------------------------------------

  const CHECKS: nat := 16

  /** The data in a slot, as far as there is any. */
  function SlotData(accounts: seq<Option<ChainAccount>>, i: nat): bytes
    requires i < |accounts|
  {
    if accounts[i].Some? then accounts[i].value.data else []
  }

  /** What a refresh asks of a reply of the right length, one check after the other, and the
      error each is answered with. */
  function RefreshCheck(sdk: Sdk, s: State, accounts: seq<Option<ChainAccount>>, i: nat): (bool, VenueError)
    requires |accounts| >= 9 && i < CHECKS
  {
    var header := sdk.strategy(SlotData(accounts, 0));
    match i
    case 0 => (accounts[0].Some?, NoAccountFound(s.strategyKey))
    case 1 => (header.Some?, DeserializationFailed)
    case 2 => (accounts[1].Some?, NoAccountFound(s.mmKey))
    case 3 => (sdk.marketMaker(SlotData(accounts, 1)).Some?, DeserializationFailed)
    case 4 => (accounts[2].Some?, NoAccountFound(s.quotesKey))
    case 5 => (accounts[3].Some?, NoAccountFound(s.configKey))
    case 6 => (sdk.config(SlotData(accounts, 3)).Some?, DeserializationFailed)
    case 7 => (accounts[4].Some?, NoAccountFound(s.baseMint))
    case 8 => (accounts[5].Some?, NoAccountFound(s.quoteMint))
    case 9 => (sdk.mintDecimals(SlotData(accounts, 4)).Some?, DeserializationFailed)
    case 10 => (sdk.mintDecimals(SlotData(accounts, 5)).Some?, DeserializationFailed)
    case 11 => (accounts[6].Some?, NoAccountFound(s.vaultBaseKey))
    case 12 => (accounts[7].Some?, NoAccountFound(s.vaultQuoteKey))
    case 13 => (accounts[8].Some?, NoAccountFound(sdk.clock))
    case 14 => (|SlotData(accounts, 8)| >= 40, DeserializationFailed)
    case _ => (header.Some? && sdk.extKeys(header.value, SlotData(accounts, 0)).Some?, DeserializationFailed)
  }

  /** A reply with an account for every key asked for, of which the first `n` checks hold. */
  ghost predicate PassesBelow(sdk: Sdk, s: State, reply: Reply, n: nat)
    requires n <= CHECKS
  {
    && reply.Ok? && |reply.value| == 9 + |s.extKeys|
    && forall i: nat :: i < n ==> RefreshCheck(sdk, s, reply.value, i).0
  }

  lemma DecodesWhenAllPass(sdk: Sdk, s: State, accounts: seq<Option<ChainAccount>>)
    requires |accounts| >= 9 && forall i: nat :: i < CHECKS ==> RefreshCheck(sdk, s, accounts, i).0
    ensures DecodeBatch(sdk, s, accounts).Ok?
  {
    assert RefreshCheck(sdk, s, accounts, 0).0 && RefreshCheck(sdk, s, accounts, 1).0 && RefreshCheck(sdk, s, accounts, 2).0;
    assert RefreshCheck(sdk, s, accounts, 3).0 && RefreshCheck(sdk, s, accounts, 4).0 && RefreshCheck(sdk, s, accounts, 5).0;
    assert RefreshCheck(sdk, s, accounts, 6).0 && RefreshCheck(sdk, s, accounts, 7).0 && RefreshCheck(sdk, s, accounts, 8).0;
    assert RefreshCheck(sdk, s, accounts, 9).0 && RefreshCheck(sdk, s, accounts, 10).0 && RefreshCheck(sdk, s, accounts, 11).0;
    assert RefreshCheck(sdk, s, accounts, 12).0 && RefreshCheck(sdk, s, accounts, 13).0 && RefreshCheck(sdk, s, accounts, 14).0;
    assert RefreshCheck(sdk, s, accounts, 15).0;
  }

  lemma FailsAtFirst(sdk: Sdk, s: State, accounts: seq<Option<ChainAccount>>, n: nat)
    requires |accounts| >= 9 && n < CHECKS
    requires forall i: nat :: i < n ==> RefreshCheck(sdk, s, accounts, i).0
    requires !RefreshCheck(sdk, s, accounts, n).0
    ensures DecodeBatch(sdk, s, accounts) == Err(RefreshCheck(sdk, s, accounts, n).1)
  {
    assert n > 0 ==> RefreshCheck(sdk, s, accounts, 0).0;
    assert n > 1 ==> RefreshCheck(sdk, s, accounts, 1).0;
    assert n > 2 ==> RefreshCheck(sdk, s, accounts, 2).0;
    assert n > 3 ==> RefreshCheck(sdk, s, accounts, 3).0;
    assert n > 4 ==> RefreshCheck(sdk, s, accounts, 4).0;
    assert n > 5 ==> RefreshCheck(sdk, s, accounts, 5).0;
    assert n > 6 ==> RefreshCheck(sdk, s, accounts, 6).0;
    assert n > 7 ==> RefreshCheck(sdk, s, accounts, 7).0;
    assert n > 8 ==> RefreshCheck(sdk, s, accounts, 8).0;
    assert n > 9 ==> RefreshCheck(sdk, s, accounts, 9).0;
    assert n > 10 ==> RefreshCheck(sdk, s, accounts, 10).0;
    assert n > 11 ==> RefreshCheck(sdk, s, accounts, 11).0;
    assert n > 12 ==> RefreshCheck(sdk, s, accounts, 12).0;
    assert n > 13 ==> RefreshCheck(sdk, s, accounts, 13).0;
    assert n > 14 ==> RefreshCheck(sdk, s, accounts, 14).0;
  }

  /** A refresh succeeds if and only if there is an account for every key asked for and all
      sixteen checks hold; else it fails with the error of the first that does not. */
  lemma RefreshSucceedsIff(sdk: Sdk, s: State, reply: Reply)
    ensures Refresh(sdk, s, reply).Ok? <==> PassesBelow(sdk, s, reply, CHECKS)
    ensures reply.Err? ==> Refresh(sdk, s, reply) == Err(reply.error)
    ensures reply.Ok? && |reply.value| != 9 + |s.extKeys| ==> Refresh(sdk, s, reply) == Err(FailedToFetchMultipleAccountData)
    ensures forall n: nat :: n < CHECKS && PassesBelow(sdk, s, reply, n) && !RefreshCheck(sdk, s, reply.value, n).0 ==>
              Refresh(sdk, s, reply) == Err(RefreshCheck(sdk, s, reply.value, n).1)
  {
    hide DecodeBatch;
    hide RefreshCheck;
    hide Commit;
    hide FreshExtData;
    forall n: nat | n < CHECKS && PassesBelow(sdk, s, reply, n) && !RefreshCheck(sdk, s, reply.value, n).0
      ensures Refresh(sdk, s, reply) == Err(RefreshCheck(sdk, s, reply.value, n).1)
    {
      FailsAtFirst(sdk, s, reply.value, n);
    }
    if PassesBelow(sdk, s, reply, CHECKS) {
      DecodesWhenAllPass(sdk, s, reply.value);
    } else if reply.Ok? && |reply.value| == 9 + |s.extKeys| {
      var n := FirstFailing(sdk, s, reply, CHECKS);
      FailsAtFirst(sdk, s, reply.value, n);
    }
  }

  lemma {:induction false} FirstFailing(sdk: Sdk, s: State, reply: Reply, m: nat) returns (n: nat)
    requires m <= CHECKS && reply.Ok? && |reply.value| == 9 + |s.extKeys| && !PassesBelow(sdk, s, reply, m)
    ensures n < m && PassesBelow(sdk, s, reply, n) && !RefreshCheck(sdk, s, reply.value, n).0
  {
    hide RefreshCheck;
    if PassesBelow(sdk, s, reply, m - 1) {
      n := m - 1;
    } else {
      n := FirstFailing(sdk, s, reply, m - 1);
    }
  }

  /** So a freeze or halt in a reply that passes takes effect: whatever the venue was before,
      it does not quote after. */
  lemma HaltTakesEffect(sdk: Sdk, s: State, reply: Reply)
    requires PassesBelow(sdk, s, reply, CHECKS)
    requires !OpenToTitan(sdk, SlotData(reply.value, 0), SlotData(reply.value, 1), SlotData(reply.value, 3))
    ensures Refresh(sdk, s, reply).Ok? && !Initialized(sdk, Update(sdk, s, reply))
  {
    hide Initialized;
    hide OpenToTitan;
    hide RefreshCheck;
    RefreshSucceedsIff(sdk, s, reply);
    InitializedAfterIff(sdk, s, reply);
  }
}
