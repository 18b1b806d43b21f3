/** Routes that meet every hypothesis of success: any number of legs, either token program on
    either side, any decimals, the output side yet to be opened. */
module SampleSuccess {
  import opened Base
  import opened Bytes
  import opened TradingVenue
  import opened RouteTypes
  import opened QuayAdapter
  import opened TokenLedger
  import opened RouteModel
  import opened ReserveProofs
  import opened SuccessProofs
  import opened SampleRoute

  /** A venue that takes its input out of the first of its accounts and returns nothing. */
  function TakesInput(instruction: Instruction, accounts: seq<AccountMeta>, ledger: Ledger): (r: Option<Ledger>) {
    if |instruction.data| < 9 || accounts == [] then None
    else
      var input, source := U64At(instruction.data, 1), At(ledger, accounts[0].pubkey);
      if source.amount < input then None
      else Some(ledger[accounts[0].pubkey := source.(amount := source.amount - input)])
  }

  const NOTHING: VenueCurve := (k, ledger, input) => 0

  function TakingEnv(): Env {
    Env(SPL, 2, 3, QUAY, (owner, mint, program) => if owner == TITAN then ATA_OUT else OUTPUT, 1, TakesInput)
  }

  /** Every leg of a call lists the ATA it spends from first. */
  ghost predicate SpendsFirst(call: Call)
    requires WellFormed(call)
  {
    forall k: nat :: LegFits(call, k) ==> LegAccounts(call, k)[0].pubkey == Ata(call, call.swaps[k].from)
  }

  lemma TakingIs(call: Call, ledger: Ledger, k: nat, input: u64)
    requires WellFormed(call) && SpendsFirst(call) && LegFits(call, k)
    ensures var from := Ata(call, call.swaps[k].from);
            Invoke(TakingEnv(), call, ledger, k, input) ==
            if At(ledger, from).amount < input then None
            else Some(ledger[from := At(ledger, from).(amount := At(ledger, from).amount - input)])
  {
    hide U64At;
    SwapDataFields(call.swaps[k].venue.sellBase, input);
  }

  /** Such a venue cooperates with any route laid out so. */
  lemma TakingCooperates(call: Call, start: Ledger)
    requires WellFormed(call) && SpendsFirst(call) && RolesApart(call)
    ensures Cooperates(TakingEnv(), call, start, NOTHING)
  {
    hide Invoke;
    hide SpendsFirst;
    hide Trades;
    hide Settleable;
    hide RolesApart;
    var env := TakingEnv();
    forall k: nat, ledger, input: u64 | LegFits(call, k) && Invoke(env, call, ledger, k, input).Some?
      ensures Trades(env, call.titan, ledger, Invoke(env, call, ledger, k, input).value,
                     Ata(call, call.swaps[k].from), Ata(call, call.swaps[k].to), input, NOTHING(k, ledger, input))
    {
      TakingIs(call, ledger, k, input);
      TakingTrades(env, call.titan, ledger, Ata(call, call.swaps[k].from), Ata(call, call.swaps[k].to), input);
    }
    forall k: nat, ledger, input: u64 |
      LegFits(call, k) && Settleable(env, call, start, ledger) && 0 < input <= At(ledger, Ata(call, call.swaps[k].from)).amount
      ensures Invoke(env, call, ledger, k, input).Some?
      ensures Settleable(env, call, start, Invoke(env, call, ledger, k, input).value)
    {
      TakingIs(call, ledger, k, input);
      TakingSettles(env, call, start, ledger, call.swaps[k].from, input);
    }
  }

  lemma TakingTrades(env: Env, titan: Pubkey, ledger: Ledger, from: Pubkey, to: Pubkey, input: u64)
    requires input <= At(ledger, from).amount
    ensures Trades(env, titan, ledger, ledger[from := At(ledger, from).(amount := At(ledger, from).amount - input)], from, to, input, 0)
  {
    var after := ledger[from := At(ledger, from).(amount := At(ledger, from).amount - input)];
    forall key | IsTitanAccount(env, ledger, key, titan)
      ensures IsTitanAccount(env, after, key, titan)
      ensures At(after, key).amount == At(ledger, key).amount - (if key == from then input else 0) + (if key == to then 0 else 0)
    {
      assert key != from ==> At(after, key) == At(ledger, key);
    }
  }

  lemma TakingSettles(env: Env, call: Call, start: Ledger, ledger: Ledger, from: nat, input: u64)
    requires WellFormed(call) && RolesApart(call) && from < call.mints && Settleable(env, call, start, ledger)
    requires input <= At(ledger, Ata(call, from)).amount
    ensures Settleable(env, call, start, ledger[Ata(call, from) := At(ledger, Ata(call, from)).(amount := At(ledger, Ata(call, from)).amount - input)])
  {
    var ata := Ata(call, from);
    var after := ledger[ata := At(ledger, ata).(amount := At(ledger, ata).amount - input)];
    assert At(after, call.outputAccount) == At(ledger, call.outputAccount);
    forall i: nat | i < call.mints ensures HoldsFor(env, after, Ata(call, i), call.titan, Mint(call, i)) {
      assert HoldsFor(env, ledger, Ata(call, i), call.titan, Mint(call, i));
      assert Mint(call, i) != ata && (i != from ==> Ata(call, i) != ata);
    }
  }

  // ---- A family of calls ----------------------------------------------------------

  function TokenProgramOf(is2022: bool): Pubkey { if is2022 then 2 else SPL }

  /** `n` legs from the first mint to the second. */
  function ManyLegs(n: nat, amount: u64): Call
    requires n <= 12
  {
    Call(10, USER, TITAN, INPUT, OUTPUT, None,
         [Meta(ATA_IN), Meta(ATA_OUT), Meta(MINT_IN), Meta(MINT_OUT)] + seq(2 * n, i => if i % 2 == 0 then Meta(ATA_IN) else Meta(QUAY)),
         amount, 2, seq(n, i => SwapSpec(Quay(true), 0, 1, 500_000_000, 2)))
  }

  /** The input with the user, the TitanPDA's first ATA empty, the output side not there yet. */
  function ManyStart(amount: u64, in2022: bool, out2022: bool, decimalsIn: u8, decimalsOut: u8): Ledger {
    map[INPUT := Account(1, TokenProgramOf(in2022), TOKEN_ACCOUNT_LEN, USER, MINT_IN, amount, 0),
        ATA_IN := Account(1, TokenProgramOf(in2022), TOKEN_ACCOUNT_LEN, TITAN, MINT_IN, 0, 0),
        MINT_IN := Account(1, TokenProgramOf(in2022), 82, 0, 0, 0, decimalsIn),
        MINT_OUT := Account(1, TokenProgramOf(out2022), 82, 0, 0, 0, decimalsOut)]
  }

  lemma {:induction false} ManyLegStart(n: nat, amount: u64, k: nat)
    requires k <= n <= 12
    ensures LegStart(ManyLegs(n, amount), k) == 4 + 2 * k
  {
    if k > 0 {
      ManyLegStart(n, amount, k - 1);
    }
  }

  lemma ManyLegsFit(n: nat, amount: u64)
    requires 1 <= n <= 12
    ensures ArgumentsFit(ManyLegs(n, amount)) && WellFormed(ManyLegs(n, amount)) && RolesApart(ManyLegs(n, amount))
    ensures forall k :: 0 <= k < n ==> LegFits(ManyLegs(n, amount), k)
    ensures SpendsFirst(ManyLegs(n, amount)) && Separate(TakingEnv(), ManyLegs(n, amount))
  {
    var call := ManyLegs(n, amount);
    forall k: nat | k < n ensures LegFits(call, k) && LegAccounts(call, k)[0].pubkey == Ata(call, call.swaps[k].from) {
      ManyLegStart(n, amount, k);
      ManyLegStart(n, amount, k + 1);
      assert LegAccounts(call, k)[0] == call.remaining[4 + 2 * k];
    }
  }

  lemma ManyKeys(n: nat, amount: u64)
    requires 1 <= n <= 12
    ensures var call := ManyLegs(n, amount);
            && WellFormed(call) && call.mints == 2 && OutputIndex(call) == 1 && call.tokenLedger == None && call.amount == amount
            && Mint(call, 0) == MINT_IN && Mint(call, 1) == MINT_OUT && Ata(call, 0) == ATA_IN && Ata(call, 1) == ATA_OUT
            && call.inputAccount == INPUT && call.outputAccount == OUTPUT && call.user == USER && call.titan == TITAN
  {
  }

  lemma ManyReady(n: nat, amount: u64, in2022: bool, out2022: bool, decimalsIn: u8, decimalsOut: u8)
    requires 1 <= n <= 12
    ensures WellFormed(ManyLegs(n, amount))
    ensures RouteReady(TakingEnv(), ManyLegs(n, amount), ManyStart(amount, in2022, out2022, decimalsIn, decimalsOut), amount)
  {
    hide ManyLegs;
    hide WellFormed;
    ManyKeys(n, amount);
    var env, call, ledger := TakingEnv(), ManyLegs(n, amount), ManyStart(amount, in2022, out2022, decimalsIn, decimalsOut);
    assert At(ledger, OUTPUT) == ABSENT && At(ledger, ATA_OUT) == ABSENT;
    assert AtaReady(env, call, ledger, 0) && AtaReady(env, call, ledger, 1);
    assert OutputUsable(env, call, ledger) && InputReady(env, call, ledger, amount);
  }

  /** All of them go through: 1 to 12 legs, SPL Token or Token-2022 on either side, any
      decimals, any amount. */
  lemma ManyLegsSucceed(n: nat, amount: u64, in2022: bool, out2022: bool, decimalsIn: u8, decimalsOut: u8)
    requires 1 <= n <= 12
    ensures Route(TakingEnv(), ManyLegs(n, amount), ManyStart(amount, in2022, out2022, decimalsIn, decimalsOut)).Ok?
  {
    hide Route;
    hide RouteReady;
    hide RolesApart;
    hide Cooperates;
    hide ManyStart;
    ManyLegsFit(n, amount);
    ManyReady(n, amount, in2022, out2022, decimalsIn, decimalsOut);
    var start := ManyStart(amount, in2022, out2022, decimalsIn, decimalsOut);
    TakingCooperates(ManyLegs(n, amount), start);
    RouteSucceeds(TakingEnv(), ManyLegs(n, amount), start, amount, NOTHING);
  }
}
