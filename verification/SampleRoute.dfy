/** One route for every amount: the hypotheses of the route results can all be met at
    once, with money already in the TitanPDA's accounts. */
module SampleRoute {
  import opened Base
  import opened Bytes
  import opened TradingVenue
  import opened RouteTypes
  import opened QuayAdapter
  import opened TokenLedger
  import opened RouteModel
  import opened ReserveProofs
  import opened ConservationProofs
  import opened ChainProofs

  const SPL: Pubkey := 1
  const QUAY: Pubkey := 4
  const USER: Pubkey := 11
  const TITAN: Pubkey := 12
  const INPUT: Pubkey := 20
  const OUTPUT: Pubkey := 21
  const MINT_IN: Pubkey := 30
  const MINT_OUT: Pubkey := 31
  const ATA_IN: Pubkey := 40
  const ATA_OUT: Pubkey := 41

  /** A venue that trades one for one between its first two accounts, when it can. */
  function OneForOne(instruction: Instruction, accounts: seq<AccountMeta>, ledger: Ledger): (r: Option<Ledger>) {
    if |instruction.data| < 9 || |accounts| < 2 then None
    else
      var input := U64At(instruction.data, 1);
      var from, to := accounts[0].pubkey, accounts[1].pubkey;
      var source, target := At(ledger, from), At(ledger, to);
      if from == to || source.amount < input || target.amount + input > U64_MAX then None
      else Some(ledger[from := source.(amount := source.amount - input)][to := target.(amount := target.amount + input)])
  }

  const ONE_TO_ONE: LegCurves := (k, input) => input

  function Chain(): Env {
    Env(SPL, 2, 3, QUAY, (owner, mint, program) => 0, 1, OneForOne)
  }

  function Meta(key: Pubkey): AccountMeta { AccountMeta(key, false, true) }

  /** Everything in at the first mint, out at the second, over one leg. */
  function OneLeg(amount: u64): Call {
    Call(10, USER, TITAN, INPUT, OUTPUT, None,
         [Meta(ATA_IN), Meta(ATA_OUT), Meta(MINT_IN), Meta(MINT_OUT), Meta(ATA_IN), Meta(ATA_OUT), Meta(QUAY)],
         amount, 2, [SwapSpec(Quay(true), 0, 1, 1_000_000_000, 3)])
  }

  function TokenAccount(owner: Pubkey, mint: Pubkey, amount: u64): Account {
    Account(1, SPL, TOKEN_ACCOUNT_LEN, owner, mint, amount, 0)
  }

  function Start(amount: u64, heldIn: u64, heldOut: u64): Ledger {
    map[INPUT := TokenAccount(USER, MINT_IN, amount), OUTPUT := TokenAccount(USER, MINT_OUT, 0),
        ATA_IN := TokenAccount(TITAN, MINT_IN, heldIn), ATA_OUT := TokenAccount(TITAN, MINT_OUT, heldOut),
        MINT_IN := Account(1, SPL, 82, 0, 0, 0, 6), MINT_OUT := Account(1, SPL, 82, 0, 0, 0, 6)]
  }

  function Balances(heldIn: u64, heldOut: u64): Tracked {
    [Some(heldIn), Some(heldOut), None, None, Some(heldIn), Some(heldOut), None]
  }

  lemma OneLegFits(amount: u64)
    ensures WellFormed(OneLeg(amount)) && LegFits(OneLeg(amount), 0)
    ensures LegStart(OneLeg(amount), 0) == 4 && LegStart(OneLeg(amount), 1) == 7
    ensures LegAccounts(OneLeg(amount), 0) == [Meta(ATA_IN), Meta(ATA_OUT), Meta(QUAY)]
    ensures DistinctAtas(OneLeg(amount)) && FullWeightChain(OneLeg(amount), [0, 1])
    ensures Separate(Chain(), OneLeg(amount))
  {
  }

  /** The instruction of the leg carries its input where the venue looks for it. */
  lemma LegInstructionCarries(amount: u64, input: u64)
    ensures LegFits(OneLeg(amount), 0)
    ensures var data := LegInstruction(Chain(), OneLeg(amount), 0, input).data; |data| >= 9 && U64At(data, 1) == input
  {
    hide U64At;
    OneLegFits(amount);
    SwapDataFields(true, input);
  }

  function Moved(ledger: Ledger, input: u64): (r: Option<Ledger>) {
    if At(ledger, ATA_IN).amount < input || At(ledger, ATA_OUT).amount + input > U64_MAX then None
    else Some(ledger[ATA_IN := At(ledger, ATA_IN).(amount := At(ledger, ATA_IN).amount - input)]
                    [ATA_OUT := At(ledger, ATA_OUT).(amount := At(ledger, ATA_OUT).amount + input)])
  }

  /** What invoking the leg does, on any ledger. */
  lemma LegTradesOneForOne(amount: u64, ledger: Ledger, input: u64)
    ensures LegFits(OneLeg(amount), 0)
    ensures Invoke(Chain(), OneLeg(amount), ledger, 0, input) == Moved(ledger, input)
  {
    hide LegInstruction;
    hide LegAccounts;
    hide OneLeg;
    hide At;
    hide U64At;
    OneLegFits(amount);
    LegInstructionCarries(amount, input);
  }

  lemma OneForOneBehaves(amount: u64)
    ensures WellFormed(OneLeg(amount)) && WellBehaved(Chain(), OneLeg(amount), Pure(ONE_TO_ONE))
  {
    hide Invoke;
    OneLegFits(amount);
    var call := OneLeg(amount);
    forall k: nat, ledger, input: u64 | LegFits(call, k) && Invoke(Chain(), call, ledger, k, input).Some?
      ensures Trades(Chain(), TITAN, ledger, Invoke(Chain(), call, ledger, k, input).value,
                     Ata(call, call.swaps[k].from), Ata(call, call.swaps[k].to), input, input)
    {
      LegTradesOneForOne(amount, ledger, input);
      var after := Invoke(Chain(), call, ledger, k, input).value;
      assert Ata(call, call.swaps[k].from) == ATA_IN && Ata(call, call.swaps[k].to) == ATA_OUT;
      forall key | IsTitanAccount(Chain(), ledger, key, TITAN)
        ensures IsTitanAccount(Chain(), after, key, TITAN)
        ensures At(after, key).amount ==
                At(ledger, key).amount - (if key == ATA_IN then input else 0) + (if key == ATA_OUT then input else 0)
      {
      }
    }
  }

  lemma SamplePrepares(amount: u64, heldIn: u64, heldOut: u64)
    requires heldIn + amount <= U64_MAX
    ensures WellFormed(OneLeg(amount)) && Reserved(OneLeg(amount), Balances(heldIn, heldOut))
    ensures Prepare(Chain(), OneLeg(amount), Start(amount, heldIn, heldOut)).Ok?
    ensures var (created, tracked, effective, deposited, decimals) := Prepare(Chain(), OneLeg(amount), Start(amount, heldIn, heldOut)).value;
            && created == {} && tracked == Balances(heldIn, heldOut) && effective == amount && decimals == 6
            && deposited == Deposited(amount, heldIn, heldOut)
  {
    OneLegFits(amount);
    var call, ledger := OneLeg(amount), Start(amount, heldIn, heldOut);
    assert CreateMissing(Chain(), call, ledger, 1) == Ok((ledger, {}));
    assert CreateMissing(Chain(), call, ledger, 2) == Ok((ledger, {}));
    assert Positions(Chain(), call, ledger) == Balances(heldIn, heldOut);
  }

  function Deposited(amount: u64, heldIn: u64, heldOut: u64): Ledger
    requires heldIn + amount <= U64_MAX
  {
    Start(amount, heldIn, heldOut)[INPUT := TokenAccount(USER, MINT_IN, 0)][ATA_IN := TokenAccount(TITAN, MINT_IN, heldIn + amount)]
  }

  function Traded(amount: u64, heldIn: u64, heldOut: u64): Ledger
    requires heldIn + amount <= U64_MAX && heldOut + amount <= U64_MAX
  {
    Deposited(amount, heldIn, heldOut)
      [ATA_IN := TokenAccount(TITAN, MINT_IN, heldIn)][ATA_OUT := TokenAccount(TITAN, MINT_OUT, heldOut + amount)]
  }

  lemma SampleTrades(amount: u64, heldIn: u64, heldOut: u64)
    requires heldIn + amount <= U64_MAX && heldOut + amount <= U64_MAX
    ensures WellFormed(OneLeg(amount)) && Reserved(OneLeg(amount), Balances(heldIn, heldOut))
    ensures RunLegs(Chain(), OneLeg(amount), Balances(heldIn, heldOut), Deposited(amount, heldIn, heldOut), 1)
            == Ok(Traded(amount, heldIn, heldOut))
  {
    hide Invoke;
    OneLegFits(amount);
    var call, tracked, deposited := OneLeg(amount), Balances(heldIn, heldOut), Deposited(amount, heldIn, heldOut);
    LegInputExact(amount, WEIGHT_ALL);
    LegTradesOneForOne(amount, deposited, amount);
    assert Surplus(call, tracked, deposited, 0) == amount;
    assert RunLegs(Chain(), call, tracked, deposited, 0) == Ok(deposited);
    if amount == 0 {
      assert Traded(amount, heldIn, heldOut) == deposited;
    }
  }

  lemma SampleSettles(amount: u64, heldIn: u64, heldOut: u64)
    requires heldIn + amount <= U64_MAX && heldOut + amount <= U64_MAX
    ensures WellFormed(OneLeg(amount)) && Reserved(OneLeg(amount), Balances(heldIn, heldOut))
    ensures Settle(Chain(), OneLeg(amount), {}, Balances(heldIn, heldOut), amount, Deposited(amount, heldIn, heldOut),
                   Traded(amount, heldIn, heldOut), 6).Ok?
  {
    OneLegFits(amount);
    var env, call, tracked, traded := Chain(), OneLeg(amount), Balances(heldIn, heldOut), Traded(amount, heldIn, heldOut);
    assert OpenOutput(env, call, traded) == Ok(traded);
    var paid := TransferTokens(env, traded, SPL, ATA_OUT, OUTPUT, TITAN, MINT_OUT, amount, 6).value;
    assert CloseCreated(env, call, {}, paid, 0) == Ok(paid);
    assert CloseCreated(env, call, {}, paid, 1) == Ok(paid);
    assert CloseCreated(env, call, {}, paid, 2) == Ok(paid);
    assert ReservesKept(call, tracked, paid);
  }

  /** Every such route succeeds and pays the user what was put in, whatever the TitanPDA
      held before. */
  lemma SampleRouteSucceeds(amount: u64, heldIn: u64, heldOut: u64)
    requires heldIn + amount <= U64_MAX && heldOut + amount <= U64_MAX
    ensures var env, call, ledger := Chain(), OneLeg(amount), Start(amount, heldIn, heldOut);
            && Separate(env, call) && WellFormed(call) && DistinctAtas(call)
            && FullWeightChain(call, [0, 1]) && WellBehaved(env, call, Pure(ONE_TO_ONE))
            && Route(env, call, ledger).Ok? && Route(env, call, ledger).value.payout == amount
  {
    hide Prepare;
    hide RunLegs;
    hide Settle;
    hide WellBehaved;
    OneLegFits(amount);
    OneForOneBehaves(amount);
    SamplePrepares(amount, heldIn, heldOut);
    SampleTrades(amount, heldIn, heldOut);
    SampleSettles(amount, heldIn, heldOut);
    var rc := Route(Chain(), OneLeg(amount), Start(amount, heldIn, heldOut)).value;
    ChainComposes(Chain(), OneLeg(amount), Start(amount, heldIn, heldOut), rc, [0, 1], ONE_TO_ONE);
    Stages(Chain(), OneLeg(amount), Start(amount, heldIn, heldOut), rc);
    assert Compose(ONE_TO_ONE, amount, 0) == amount;
    assert Compose(ONE_TO_ONE, amount, 1) == amount;
  }
}
