/** What the closing check protects from venues that do anything: the accounts still the
    TitanPDA's among the 256 positions of the bitmap, and no others. */
module BeyondBitmap {
  import opened Base
  import opened TradingVenue
  import opened RouteTypes
  import opened TokenLedger
  import opened RouteModel
  import opened ReserveProofs
  import opened SampleRoute

  /** What position `i` held for the TitanPDA, it holds for the TitanPDA still. */
  ghost predicate ReserveKept(env: Env, call: Call, rc: Receipt, i: nat)
    requires i < |rc.tracked| == |call.remaining|
  {
    rc.tracked[i].None? || rc.tracked[i].value == 0
    || (IsTitanAccount(env, rc.closed, Key(call, i), call.titan) && At(rc.closed, Key(call, i)).amount >= rc.tracked[i].value)
  }

  ghost predicate AllReservesKept(env: Env, call: Call, rc: Receipt) {
    |rc.tracked| == |call.remaining| && forall i: nat :: i < |rc.tracked| ==> ReserveKept(env, call, rc, i)
  }

  // ---- Owners through a route -----------------------------------------------------

  lemma OpenOutputKeepsOwners(env: Env, call: Call, ledger: Ledger, key: Pubkey)
    requires Separate(env, call) && WellFormed(call) && OpenOutput(env, call, ledger).Ok?
    ensures IsTitanAccount(env, OpenOutput(env, call, ledger).value, key, call.titan) <==> IsTitanAccount(env, ledger, key, call.titan)
  {
    OpenOutputKeepsTitan(env, call, ledger);
  }

  lemma TransferKeepsOwners(env: Env, ledger: Ledger, program: Pubkey, from: Pubkey, to: Pubkey, authority: Pubkey,
                            mint: Pubkey, amount: u64, decimals: u8, key: Pubkey, titan: Pubkey)
    requires TransferTokens(env, ledger, program, from, to, authority, mint, amount, decimals).Some?
    ensures IsTitanAccount(env, TransferTokens(env, ledger, program, from, to, authority, mint, amount, decimals).value, key, titan)
            <==> IsTitanAccount(env, ledger, key, titan)
  {
  }

  lemma CloseAccountKeepsOwners(env: Env, ledger: Ledger, closing: Pubkey, destination: Pubkey, authority: Pubkey, program: Pubkey, key: Pubkey, titan: Pubkey)
    requires CloseAccount(env, ledger, closing, destination, authority, program).Some? && key != closing
    ensures IsTitanAccount(env, CloseAccount(env, ledger, closing, destination, authority, program).value, key, titan)
            <==> IsTitanAccount(env, ledger, key, titan)
  {
  }

  /** Closing touches no account with a balance. */
  lemma {:induction false} CloseCreatedKeepsOwners(env: Env, call: Call, created: set<int>, ledger: Ledger, n: nat, key: Pubkey)
    requires WellFormed(call) && n <= call.mints && CloseCreated(env, call, created, ledger, n).Ok?
    requires Balance(ledger, key) > 0
    ensures IsTitanAccount(env, CloseCreated(env, call, created, ledger, n).value, key, call.titan)
            <==> IsTitanAccount(env, ledger, key, call.titan)
  {
    hide CloseAccount;
    hide IsTitanAccount;
    if n > 0 {
      CloseCreatedKeepsOwners(env, call, created, ledger, n - 1, key);
      CloseCreatedKeepsBalances(env, call, created, ledger, n - 1);
      var before := CloseCreated(env, call, created, ledger, n - 1).value;
      var ata := Ata(call, n - 1);
      if n - 1 in created && Balance(before, ata) == 0 {
        CloseAccountKeepsOwners(env, before, ata, call.payer, call.titan, ProgramForMint(env, before, Mint(call, n - 1)), key, call.titan);
      }
    }
  }

  /** Whatever the venues do: below position 256 a route that succeeds has kept a reserve if and
      only if the account was still the TitanPDA's when the legs were done.  The closing check
      sees to the amount, and does not look at the owner again. */
  lemma KeptIffStillOwned(env: Env, call: Call, ledger: Ledger, rc: Receipt, i: nat)
    requires Separate(env, call) && Route(env, call, ledger) == Ok(rc)
    requires i < |call.remaining| && i < 256
    ensures |rc.tracked| == |call.remaining|
    ensures rc.tracked[i].Some? && rc.tracked[i].value > 0 ==>
              (ReserveKept(env, call, rc, i) <==> IsTitanAccount(env, rc.traded, Key(call, i), call.titan))
  {
    hide Prepare;
    hide RunLegs;
    hide CloseCreated;
    hide OpenOutput;
    hide TransferTokens;
    hide IsTitanAccount;
    Stages(env, call, ledger, rc);
    var key, o := Key(call, i), OutputIndex(call);
    if rc.tracked[i].Some? && rc.tracked[i].value > 0 {
      assert Balance(rc.closed, key) >= rc.tracked[i].value;
      CloseCreatedKeepsBalances(env, call, rc.created, rc.paid, call.mints);
      CloseCreatedKeepsOwners(env, call, rc.created, rc.paid, call.mints, key);
      var decimals := Prepare(env, call, ledger).value.4;
      TransferKeepsOwners(env, rc.readied, ProgramForMint(env, rc.traded, Mint(call, o)), Ata(call, o), call.outputAccount,
        call.titan, Mint(call, o), rc.payout, decimals, key, call.titan);
      OpenOutputKeepsOwners(env, call, rc.traded, key);
    }
  }

  /** After every CPI that succeeds, the TitanPDA's token accounts are the TitanPDA's. */
  ghost predicate KeepsOwners(env: Env, titan: Pubkey) {
    forall instruction, accounts, ledger, key {:trigger IsTitanAccount(env, env.venue(instruction, accounts, ledger).value, key, titan)} ::
      env.venue(instruction, accounts, ledger).Some? && IsTitanAccount(env, ledger, key, titan) ==>
        IsTitanAccount(env, env.venue(instruction, accounts, ledger).value, key, titan)
  }

  lemma {:induction false} LegsKeepOwners(env: Env, call: Call, tracked: Tracked, ledger: Ledger, n: nat, key: Pubkey)
    requires Reserved(call, tracked) && n <= |call.swaps| && RunLegs(env, call, tracked, ledger, n).Ok?
    requires KeepsOwners(env, call.titan) && IsTitanAccount(env, ledger, key, call.titan)
    ensures IsTitanAccount(env, RunLegs(env, call, tracked, ledger, n).value, key, call.titan)
  {
    hide IsTitanAccount;
    if n > 0 {
      LegsKeepOwners(env, call, tracked, ledger, n - 1, key);
    }
  }

  lemma OwnersKeepReserves(env: Env, call: Call, ledger: Ledger)
    requires Separate(env, call) && KeepsOwners(env, call.titan)
    requires |call.remaining| <= 256 && Route(env, call, ledger).Ok?
    ensures AllReservesKept(env, call, Route(env, call, ledger).value)
  {
    hide Route;
    hide KeepsOwners;
    hide Prepare;
    hide Settle;
    hide ReserveKept;
    hide IsTitanAccount;
    var rc := Route(env, call, ledger).value;
    Stages(env, call, ledger, rc);
    var ready := Prepared(env, call, ledger);
    forall i: nat | i < |rc.tracked| ensures ReserveKept(env, call, rc, i) {
      KeptIffStillOwned(env, call, ledger, rc, i);
      NothingToKeep(env, call, rc, i);
      if rc.tracked[i].Some? {
        LegsKeepOwners(env, call, rc.tracked, rc.deposited, |call.swaps|, Key(call, i));
      }
    }
  }

  lemma NothingToKeep(env: Env, call: Call, rc: Receipt, i: nat)
    requires i < |rc.tracked| == |call.remaining|
    ensures rc.tracked[i].None? || rc.tracked[i].value == 0 ==> ReserveKept(env, call, rc, i)
  {
  }

  /** Venues that trade what they are handed keep every reserve, at any position. */
  lemma TradesKeepReserves(env: Env, call: Call, ledger: Ledger, curve: VenueCurve)
    requires Separate(env, call) && Route(env, call, ledger).Ok?
    requires WellFormed(call) ==> WellBehaved(env, call, curve)
    ensures AllReservesKept(env, call, Route(env, call, ledger).value)
  {
    hide Route;
    hide Prepare;
    hide RunLegs;
    hide CloseCreated;
    hide OpenOutput;
    hide TransferTokens;
    hide WellBehaved;
    hide IsTitanAccount;
    var rc := Route(env, call, ledger).value;
    Stages(env, call, ledger, rc);
    ReservesCoveredThroughout(env, call, ledger, rc, curve, 0);
    CloseCreatedKeepsBalances(env, call, rc.created, rc.paid, call.mints);
    forall i: nat | i < |rc.tracked| ensures ReserveKept(env, call, rc, i) {
      if rc.tracked[i].Some? && rc.tracked[i].value > 0 {
        CloseCreatedKeepsOwners(env, call, rc.created, rc.paid, call.mints, Key(call, i));
      }
    }
  }

  /** For venues that leave the TitanPDA its accounts but are free otherwise: every successful
      route keeps every reserve if its remaining accounts number 256 at most; from 257 on some
      successful route does not. */
  lemma AllReservesKeptIff(n: nat)
    ensures (forall env: Env, call: Call, ledger ::
               Separate(env, call) && KeepsOwners(env, call.titan) && |call.remaining| <= n && Route(env, call, ledger).Ok? ==>
                 AllReservesKept(env, call, Route(env, call, ledger).value))
            <==> n <= 256
  {
    hide Route;
    hide KeepsOwners;
    hide AllReservesKept;
    if n <= 256 {
      forall env: Env, call: Call, ledger |
        Separate(env, call) && KeepsOwners(env, call.titan) && |call.remaining| <= n && Route(env, call, ledger).Ok?
        ensures AllReservesKept(env, call, Route(env, call, ledger).value)
      {
        OwnersKeepReserves(env, call, ledger);
      }
    } else {
      LastPositionEmptied();
      assert |LongCall().remaining| <= n;
    }
  }

  // ---- Routes over one leg --------------------------------------------------------

  const SPARE: Pubkey := 50
  const OTHER: Pubkey := 60

  type VenueProgram = (Instruction, seq<AccountMeta>, Ledger) -> Option<Ledger>

  function Through(venue: VenueProgram): Env {
    Env(SPL, 2, 3, QUAY, (owner, mint, program) => 0, 1, venue)
  }

  /** One atom through one leg over these accounts. */
  function LegCall(leg: seq<AccountMeta>): Call
    requires |leg| < 256
  {
    Call(10, USER, TITAN, INPUT, OUTPUT, None, [Meta(ATA_IN), Meta(ATA_OUT), Meta(MINT_IN), Meta(MINT_OUT)] + leg,
         1, 2, [SwapSpec(Quay(true), 0, 1, 1_000_000_000, |leg|)])
  }

  /** The first ATA holds `held`, and a spare account of the TitanPDA one atom. */
  function Before(held: u64): Ledger {
    Start(1, held, 0)[SPARE := TokenAccount(TITAN, MINT_IN, 1)]
  }

  function AfterDeposit(held: u64): Ledger
    requires held < U64_MAX
  {
    Before(held)[INPUT := TokenAccount(USER, MINT_IN, 0)][ATA_IN := TokenAccount(TITAN, MINT_IN, held + 1)]
  }

  lemma LegCallFits(leg: seq<AccountMeta>)
    requires 0 < |leg| < 256
    ensures WellFormed(LegCall(leg)) && LegFits(LegCall(leg), 0) && LegAccounts(LegCall(leg), 0) == leg
    ensures CheckArguments(LegCall(leg)).Ok? && LegCall(leg).titan == TITAN && |LegCall(leg).remaining| == 4 + |leg|
  {
    assert LegStart(LegCall(leg), 0) == 4 && LegStart(LegCall(leg), 1) == 4 + |leg|;
  }

  /** The TitanPDA, first of the leg's accounts, signs for the venue. */
  lemma LegCallSigned(venue: VenueProgram, leg: seq<AccountMeta>)
    requires 1 < |leg| < 256 && leg[0] == Meta(TITAN)
    ensures Separate(Through(venue), LegCall(leg)) && LegFits(LegCall(leg), 0)
    ensures AccountMeta(TITAN, true, true) in LegInstruction(Through(venue), LegCall(leg), 0, 1).accounts
  {
    LegCallFits(leg);
    assert LegInstruction(Through(venue), LegCall(leg), 0, 1).accounts[0] == AccountMeta(TITAN, true, true);
  }

  lemma LegCallPrepares(venue: VenueProgram, leg: seq<AccountMeta>, held: u64)
    requires 0 < |leg| < 256 && held < U64_MAX
    ensures WellFormed(LegCall(leg))
    ensures Prepare(Through(venue), LegCall(leg), Before(held)) ==
            Ok(({}, Positions(Through(venue), LegCall(leg), Before(held)), 1, AfterDeposit(held), 6))
  {
    hide Positions;
    LegCallFits(leg);
    var env, call, ledger := Through(venue), LegCall(leg), Before(held);
    assert CreateMissing(env, call, ledger, 1) == Ok((ledger, {}));
    assert CreateMissing(env, call, ledger, 2) == Ok((ledger, {}));
    assert Snapshot(env, call, ledger) == Ok(Positions(env, call, ledger));
  }

  lemma LegCallRuns(venue: VenueProgram, leg: seq<AccountMeta>, held: u64)
    requires 0 < |leg| < 256 && held < U64_MAX
    ensures var env, call := Through(venue), LegCall(leg);
            var tracked := Positions(env, call, Before(held));
            && Reserved(call, tracked) && LegFits(call, 0)
            && RunLegs(env, call, tracked, AfterDeposit(held), 1) ==
               OrFail(venue(LegInstruction(env, call, 0, 1), leg, AfterDeposit(held)))
  {
    hide LegInstruction;
    LegCallFits(leg);
    LegInputExact(1, WEIGHT_ALL);
    var env, call := Through(venue), LegCall(leg);
    var tracked := Positions(env, call, Before(held));
    assert tracked[0] == Some(held) && tracked[1] == Some(0);
    assert RunLegs(env, call, tracked, AfterDeposit(held), 0) == Ok(AfterDeposit(held));
  }

  /** Where the venue returned nothing to the second ATA there is nothing to pay out. */
  lemma LegCallSettles(venue: VenueProgram, leg: seq<AccountMeta>, held: u64, traded: Ledger)
    requires 0 < |leg| < 256 && held < U64_MAX
    requires At(traded, ATA_OUT) == TokenAccount(TITAN, MINT_OUT, 0) && Exists(traded, OUTPUT)
    requires ReservesKept(LegCall(leg), Positions(Through(venue), LegCall(leg), Before(held)), traded)
    ensures var env, call := Through(venue), LegCall(leg);
            var tracked := Positions(env, call, Before(held));
            && Reserved(call, tracked)
            && Settle(env, call, {}, tracked, 1, AfterDeposit(held), traded, 6).Ok?
            && Settle(env, call, {}, tracked, 1, AfterDeposit(held), traded, 6).value.closed == traded
  {
    hide ReservesKept;
    LegCallFits(leg);
    var env, call := Through(venue), LegCall(leg);
    var tracked := Positions(env, call, Before(held));
    assert tracked[0] == Some(held) && tracked[1] == Some(0);
    assert OpenOutput(env, call, traded) == Ok(traded);
    assert CloseCreated(env, call, {}, traded, 0) == Ok(traded);
    assert CloseCreated(env, call, {}, traded, 1) == Ok(traded);
    assert CloseCreated(env, call, {}, traded, 2) == Ok(traded);
  }

  /** So such a route succeeds with what the venue left. */
  lemma LegCallSucceeds(venue: VenueProgram, leg: seq<AccountMeta>, held: u64, traded: Ledger)
    requires 0 < |leg| < 256 && held < U64_MAX && LegFits(LegCall(leg), 0)
    requires venue(LegInstruction(Through(venue), LegCall(leg), 0, 1), leg, AfterDeposit(held)) == Some(traded)
    requires At(traded, ATA_OUT) == TokenAccount(TITAN, MINT_OUT, 0) && Exists(traded, OUTPUT)
    requires ReservesKept(LegCall(leg), Positions(Through(venue), LegCall(leg), Before(held)), traded)
    ensures Route(Through(venue), LegCall(leg), Before(held)).Ok?
    ensures var rc := Route(Through(venue), LegCall(leg), Before(held)).value;
            rc.closed == traded && rc.tracked == Positions(Through(venue), LegCall(leg), Before(held))
  {
    hide Prepare;
    hide RunLegs;
    hide Settle;
    hide Positions;
    hide ReservesKept;
    LegCallFits(leg);
    LegCallPrepares(venue, leg, held);
    LegCallRuns(venue, leg, held);
    LegCallSettles(venue, leg, held, traded);
    Stages(Through(venue), LegCall(leg), Before(held), Route(Through(venue), LegCall(leg), Before(held)).value);
  }

  // ---- A route of 257 accounts ----------------------------------------------------

  /** With the TitanPDA's signature, a transfer out of the spare account; nothing back. */
  function TakesSpare(instruction: Instruction, accounts: seq<AccountMeta>, ledger: Ledger): Option<Ledger> {
    if AccountMeta(TITAN, true, true) in instruction.accounts
    then TransferTokens(Chain(), ledger, SPL, SPARE, INPUT, TITAN, MINT_IN, 1, 6)
    else None
  }

  /** The TitanPDA among the leg's accounts, the spare one last of all, at position 256. */
  function LongLeg(): (leg: seq<AccountMeta>)
    ensures |leg| == 253
  {
    [Meta(TITAN)] + seq(251, i => Meta(QUAY)) + [Meta(SPARE)]
  }

  function LongCall(): Call { LegCall(LongLeg()) }

  lemma TakesSpareKeepsOwners()
    ensures KeepsOwners(Through(TakesSpare), TITAN)
  {
    forall instruction, accounts, ledger, key |
      TakesSpare(instruction, accounts, ledger).Some? && IsTitanAccount(Through(TakesSpare), ledger, key, TITAN)
      ensures IsTitanAccount(Through(TakesSpare), TakesSpare(instruction, accounts, ledger).value, key, TITAN)
    {
      TransferKeepsOwners(Chain(), ledger, SPL, SPARE, INPUT, TITAN, MINT_IN, 1, 6, key, TITAN);
    }
  }

  lemma LongPositions(i: nat)
    requires i < 257
    ensures Positions(Through(TakesSpare), LongCall(), Before(0))[i] ==
            if i < 2 then Some(0) else if i == 256 then Some(1) else None
    ensures i == 256 ==> Key(LongCall(), i) == SPARE
  {
    if 5 <= i < 256 {
      assert Key(LongCall(), i) == QUAY;
    }
  }

  /** The route succeeds, and position 256 ends below its reserve. */
  lemma LastPositionEmptied()
    ensures Separate(Through(TakesSpare), LongCall()) && KeepsOwners(Through(TakesSpare), LongCall().titan)
    ensures |LongCall().remaining| == 257 && Route(Through(TakesSpare), LongCall(), Before(0)).Ok?
    ensures !AllReservesKept(Through(TakesSpare), LongCall(), Route(Through(TakesSpare), LongCall(), Before(0)).value)
  {
    hide Route;
    hide Positions;
    hide KeepsOwners;
    TakesSpareKeepsOwners();
    LegCallFits(LongLeg());
    LegCallSigned(TakesSpare, LongLeg());
    var env, call := Through(TakesSpare), LongCall();
    var traded := TakesSpare(LegInstruction(env, call, 0, 1), LongLeg(), AfterDeposit(0)).value;
    forall i | 0 <= i < 256 ensures Positions(env, call, Before(0))[i].Some? ==> Positions(env, call, Before(0))[i].value == 0 {
      LongPositions(i);
    }
    LegCallSucceeds(TakesSpare, LongLeg(), 0, traded);
    LongPositions(256);
    assert !ReserveKept(env, call, Route(env, call, Before(0)).value, 256);
  }

  // ---- An account given away ------------------------------------------------------

  /** With the TitanPDA's signature, the first ATA handed to another authority as it is. */
  function GivesAway(instruction: Instruction, accounts: seq<AccountMeta>, ledger: Ledger): Option<Ledger> {
    if AccountMeta(TITAN, true, true) in instruction.accounts
    then Some(ledger[ATA_IN := At(ledger, ATA_IN).(authority := OTHER)])
    else None
  }

  function ShortLeg(): seq<AccountMeta> { [Meta(TITAN), Meta(ATA_IN), Meta(QUAY)] }

  function GivenAway(): Ledger {
    AfterDeposit(5)[ATA_IN := TokenAccount(OTHER, MINT_IN, 6)]
  }

  /** The first ATA is tracked, under two positions; nothing else with a balance is. */
  lemma ShortPositions()
    ensures Positions(Through(GivesAway), LegCall(ShortLeg()), Before(5)) ==
            [Some(5), Some(0), None, None, None, Some(5), None]
    ensures var call := LegCall(ShortLeg()); Key(call, 0) == ATA_IN && Key(call, 1) == ATA_OUT && Key(call, 5) == ATA_IN
  {
  }

  /** Without its owners kept, a route of seven accounts succeeds and its first reserve is lost. */
  lemma ReserveGivenAway()
    ensures Separate(Through(GivesAway), LegCall(ShortLeg())) && |LegCall(ShortLeg()).remaining| == 7
    ensures Route(Through(GivesAway), LegCall(ShortLeg()), Before(5)).Ok?
    ensures var rc := Route(Through(GivesAway), LegCall(ShortLeg()), Before(5)).value;
            |rc.tracked| == 7 && rc.tracked[0] == Some(5) && !ReserveKept(Through(GivesAway), LegCall(ShortLeg()), rc, 0)
  {
    hide Route;
    hide Positions;
    hide LegCall;
    hide LegInstruction;
    LegCallFits(ShortLeg());
    LegCallSigned(GivesAway, ShortLeg());
    ShortPositions();
    LegCallSucceeds(GivesAway, ShortLeg(), 5, GivenAway());
    assert At(GivenAway(), ATA_IN).authority != TITAN;
  }
}
