/** `SwapRouteV3::execute` as a function of the ledger: one function a phase, each loop
    as its state after `n` iterations (swap_route_v3.rs). */
module RouteModel {
  import opened Base
  import opened Bytes
  import opened TradingVenue
  import opened RouteTypes
  import opened QuayAdapter
  import opened TokenLedger

  datatype RouteError =
    | InvalidSwapInput
    | MissingRemainingAccount
    | InvalidAccountData
    | ReservedBalanceViolation
    | CpiFailed

  /** One invocation: the named accounts, the remaining accounts and the arguments. */
  datatype Call = Call(
    payer: Pubkey,
    user: Pubkey,
    titan: Pubkey,
    inputAccount: Pubkey,
    outputAccount: Pubkey,
    tokenLedger: Option<bytes>,
    remaining: seq<AccountMeta>,
    amount: u64,
    mints: u8,
    swaps: seq<SwapSpec>)

  type Tracked = seq<Option<u64>>

  function OrFail<T>(step: Option<T>): (r: Result<T, RouteError>) {
    if step.Some? then Ok(step.value) else Err(CpiFailed)
  }

  function OrInvalid<T>(read: Option<T>): (r: Result<T, RouteError>) {
    if read.Some? then Ok(read.value) else Err(InvalidAccountData)
  }

  // ---- Argument checks ------------------------------------------------------------

  function CheckArguments(call: Call): (r: Result<(), RouteError>) {
    if call.mints <= 1 || |call.swaps| == 0 || |call.swaps| > MAX_SWAPS then Err(InvalidSwapInput)
    else if call.mints > MAX_MINTS then Err(InvalidSwapInput)
    else if |call.remaining| < 2 * call.mints then Err(MissingRemainingAccount)
    else if call.swaps[0].from != 0 then Err(InvalidSwapInput)
    else if exists k :: 0 <= k < |call.swaps| && (call.swaps[k].from >= call.mints || call.swaps[k].to >= call.mints)
    then Err(InvalidSwapInput)
    else Ok(())
  }

  /** What the argument checks leave true for the rest of the route. */
  ghost predicate WellFormed(call: Call) {
    && 1 < call.mints <= MAX_MINTS && 0 < |call.swaps| <= MAX_SWAPS
    && 2 * call.mints <= |call.remaining|
    && forall k :: 0 <= k < |call.swaps| ==> call.swaps[k].from < call.mints && call.swaps[k].to < call.mints
  }

  function Key(call: Call, i: nat): Pubkey
    requires i < |call.remaining|
  {
    call.remaining[i].pubkey
  }

  /** The TitanPDA token account of route mint `i`. */
  function Ata(call: Call, i: nat): Pubkey
    requires WellFormed(call) && i < call.mints
  {
    Key(call, i)
  }

  function Mint(call: Call, i: nat): Pubkey
    requires WellFormed(call) && i < call.mints
  {
    Key(call, call.mints + i)
  }

  function OutputIndex(call: Call): (i: nat)
    requires WellFormed(call)
    ensures i < call.mints
  {
    call.swaps[|call.swaps| - 1].to
  }

  /** `read_token_ledger`: bytes 8..40 name the input account, 40..48 hold its old balance. */
  function ReadTokenLedger(call: Call): (r: Result<Option<u64>, RouteError>) {
    match call.tokenLedger
    case None => Ok(None)
    case Some(data) =>
      if |data| < 48 || LeValue(data[8..40]) != call.inputAccount then Err(InvalidAccountData)
      else Ok(Some(U64At(data, 40)))
  }

  /** `extract_mint_decimals`: byte 44. */
  function MintDecimals(ledger: Ledger, mint: Pubkey): (r: Result<u8, RouteError>) {
    if At(ledger, mint).dataLen > 44 then Ok(At(ledger, mint).decimals) else Err(InvalidAccountData)
  }

  // ---- Setup ----------------------------------------------------------------------

  /** Ledger and created ATAs once the first `n` route mints have been looked at. */
  function CreateMissing(env: Env, call: Call, ledger: Ledger, n: nat): (r: Result<(Ledger, set<int>), RouteError>)
    requires WellFormed(call) && n <= call.mints
  {
    if n == 0 then Ok((ledger, {}))
    else
      var (before, created) :- CreateMissing(env, call, ledger, n - 1);
      if Exists(before, Ata(call, n - 1)) then Ok((before, created))
      else
        var mint := Mint(call, n - 1);
        var after :- OrFail(CreateAta(env, before, call.titan, mint, Ata(call, n - 1), ProgramForMint(env, before, mint)));
        Ok((after, created + {n - 1}))
  }

  /** The balance of every remaining account that is the TitanPDA's, by position. */
  function Positions(env: Env, call: Call, ledger: Ledger): (tracked: Tracked)
    ensures |tracked| == |call.remaining|
  {
    seq(|call.remaining|, (i: nat) requires i < |call.remaining| =>
      if IsTitanAccount(env, ledger, Key(call, i), call.titan) then Some(At(ledger, Key(call, i)).amount) else None)
  }

  /** The positions' balances, provided the first `mints` are all the TitanPDA's. */
  function Snapshot(env: Env, call: Call, ledger: Ledger): (r: Result<Tracked, RouteError>)
    requires WellFormed(call)
  {
    if exists i: nat :: i < call.mints && !IsTitanAccount(env, ledger, Key(call, i), call.titan) then Err(InvalidAccountData)
    else Ok(Positions(env, call, ledger))
  }

  function EffectiveAmount(call: Call, ledger: Ledger, stored: Option<u64>): (r: Result<u64, RouteError>) {
    match stored
    case None => Ok(call.amount)
    case Some(before) =>
      var current :- OrInvalid(TokenAmount(ledger, call.inputAccount));
      if current <= before then Err(InvalidAccountData) else Ok(current - before)
  }

  /** `transfer_sol_and_sync`. */
  function FundNative(env: Env, ledger: Ledger, from: Pubkey, account: Pubkey, program: Pubkey, amount: u64): (r: Option<Ledger>) {
    if amount == 0 then Some(ledger)
    else
      match SystemTransfer(ledger, from, account, amount)
      case None => None
      case Some(funded) => SyncNative(env, funded, account, program)
  }

  /** `setup_wsol_input_account`: the ledger, and whether the account was created. */
  function SetupWsol(env: Env, call: Call, ledger: Ledger, mint: Pubkey, program: Pubkey, amount: u64)
    : (r: Result<(Ledger, bool), RouteError>)
  {
    if Exists(ledger, call.inputAccount) then
      var current :- OrInvalid(TokenAmount(ledger, call.inputAccount));
      if current < amount then
        var funded :- OrFail(FundNative(env, ledger, call.user, call.inputAccount, program, amount - current));
        Ok((funded, false))
      else Ok((ledger, false))
    else
      var created :- OrFail(CreateAta(env, ledger, call.user, mint, call.inputAccount, program));
      var funded :- OrFail(FundNative(env, created, call.user, call.inputAccount, program, amount));
      Ok((funded, true))
  }

  /** Wrapping if needed, the input transfer, and closing a wrapper made for it. */
  function Deposit(env: Env, call: Call, ledger: Ledger, stored: Option<u64>, amount: u64, decimals: u8)
    : (r: Result<Ledger, RouteError>)
    requires WellFormed(call)
  {
    var mint := Mint(call, 0);
    var program := ProgramForMint(env, ledger, mint);
    var (ready, wrapped) :- if stored.None? && mint == env.nativeMint
                            then SetupWsol(env, call, ledger, mint, program, amount)
                            else Ok((ledger, false));
    var paid :- OrFail(TransferTokens(env, ready, program, call.inputAccount, Ata(call, 0), call.user, mint, amount, decimals));
    if wrapped then OrFail(CloseAccount(env, paid, call.inputAccount, call.payer, call.user, program))
    else Ok(paid)
  }

  // ---- Legs -----------------------------------------------------------------------

  /** Where leg `k`'s accounts start. */
  function LegStart(call: Call, k: nat): (at: nat)
    requires k <= |call.swaps|
  {
    if k == 0 then 2 * call.mints else LegStart(call, k - 1) + call.swaps[k - 1].nAccounts
  }

  /** `available.saturating_mul(weight).saturating_div(1e9) as u64`, in u128, then truncated. */
  function LegInput(available: u64, weightNanos: u32): (input: u64) {
    var weight := Min(weightNanos, WEIGHT_ALL);
    var product := Min(available * weight, U128_MAX);
    product / WEIGHT_ALL % 0x1_0000_0000_0000_0000
  }

  /** The leg's accounts as the venue sees them: all but the trailing program id, with
      the TitanPDA signing. */
  function LegMetas(accounts: seq<AccountMeta>, titan: Pubkey): (metas: seq<AccountMeta>)
    requires |accounts| > 0
  {
    seq(|accounts| - 1, (i: nat) requires i < |accounts| - 1 =>
      accounts[i].(isSigner := accounts[i].pubkey == titan || accounts[i].isSigner))
  }

  function LegAccounts(call: Call, k: nat): (accounts: seq<AccountMeta>)
    requires k < |call.swaps| && LegStart(call, k + 1) <= |call.remaining|
  {
    call.remaining[LegStart(call, k)..LegStart(call, k + 1)]
  }

  /** The instruction the adapter makes of leg `k`: for the program id it was compiled with. */
  function LegInstruction(env: Env, call: Call, k: nat, input: u64): Instruction
    requires k < |call.swaps| && LegStart(call, k + 1) <= |call.remaining| && call.swaps[k].nAccounts > 0
  {
    SwapInstruction(env.quayProgram, call.swaps[k].venue.sellBase, input, LegMetas(LegAccounts(call, k), call.titan))
  }

  /** The venue CPI of leg `k`. */
  function Invoke(env: Env, call: Call, ledger: Ledger, k: nat, input: u64): (r: Option<Ledger>)
    requires k < |call.swaps| && LegStart(call, k + 1) <= |call.remaining| && call.swaps[k].nAccounts > 0
  {
    env.venue(LegInstruction(env, call, k, input), LegAccounts(call, k), ledger)
  }

  /** What is above the reserve on route mint `i`. */
  function Surplus(call: Call, tracked: Tracked, ledger: Ledger, i: nat): u64
    requires WellFormed(call) && i < call.mints <= |tracked| && tracked[i].Some?
  {
    SatSub(At(ledger, Ata(call, i)).amount, tracked[i].value)
  }

  /** What a successful `Snapshot` gives the legs: a balance for every route mint. */
  ghost predicate Reserved(call: Call, tracked: Tracked) {
    && WellFormed(call) && |tracked| == |call.remaining|
    && forall i: nat :: i < call.mints ==> tracked[i].Some?
  }

  function RunLeg(env: Env, call: Call, tracked: Tracked, ledger: Ledger, k: nat): (r: Result<Ledger, RouteError>)
    requires Reserved(call, tracked) && k < |call.swaps|
  {
    var swap := call.swaps[k];
    if swap.nAccounts == 0 then Err(InvalidSwapInput)
    else if LegStart(call, k) + swap.nAccounts > |call.remaining| then Err(MissingRemainingAccount)
    else
      var _ :- OrInvalid(TokenAmount(ledger, Ata(call, swap.from)));
      var input := LegInput(Surplus(call, tracked, ledger, swap.from), swap.weightNanos);
      if input == 0 then Ok(ledger) else OrFail(Invoke(env, call, ledger, k, input))
  }

  /** The ledger after the first `n` legs. */
  function RunLegs(env: Env, call: Call, tracked: Tracked, ledger: Ledger, n: nat): (r: Result<Ledger, RouteError>)
    requires Reserved(call, tracked) && n <= |call.swaps|
  {
    if n == 0 then Ok(ledger)
    else
      var before :- RunLegs(env, call, tracked, ledger, n - 1);
      RunLeg(env, call, tracked, before, n - 1)
  }

  // ---- Settlement -----------------------------------------------------------------

  /** The output account, created for the user if it was missing. */
  function OpenOutput(env: Env, call: Call, ledger: Ledger): (r: Result<Ledger, RouteError>)
    requires WellFormed(call)
  {
    var mint := Mint(call, OutputIndex(call));
    if Exists(ledger, call.outputAccount) then Ok(ledger)
    else OrFail(CreateAta(env, ledger, call.user, mint, call.outputAccount, ProgramForMint(env, ledger, mint)))
  }

  /** Closing those of the first `n` ATAs that this route created and are empty. */
  function CloseCreated(env: Env, call: Call, created: set<int>, ledger: Ledger, n: nat): (r: Result<Ledger, RouteError>)
    requires WellFormed(call) && n <= call.mints
  {
    if n == 0 then Ok(ledger)
    else
      var before :- CloseCreated(env, call, created, ledger, n - 1);
      if n - 1 !in created || Balance(before, Ata(call, n - 1)) > 0 then Ok(before)
      else OrFail(CloseAccount(env, before, Ata(call, n - 1), call.payer, call.titan,
                               ProgramForMint(env, before, Mint(call, n - 1))))
  }

  /** The closing check covers the positions the 256-bit bitmap can hold. */
  predicate ReservesKept(call: Call, tracked: Tracked, ledger: Ledger)
    requires |tracked| == |call.remaining|
  {
    forall i :: 0 <= i < Min(|tracked|, 256) && tracked[i].Some? ==> Balance(ledger, Key(call, i)) >= tracked[i].value
  }

  /** The stages a successful route passes through. */
  datatype Receipt = Receipt(
    created: set<int>,
    tracked: Tracked,
    effective: u64,
    deposited: Ledger,
    traded: Ledger,
    readied: Ledger,
    payout: u64,
    paid: Ledger,
    closed: Ledger)

  /** Everything before the legs. */
  function Prepare(env: Env, call: Call, ledger: Ledger)
    : (r: Result<(set<int>, Tracked, u64, Ledger, u8), RouteError>)
    requires WellFormed(call)
    ensures r.Ok? ==> Reserved(call, r.value.1)
  {
    var stored :- ReadTokenLedger(call);
    var inputDecimals :- MintDecimals(ledger, Mint(call, 0));
    var outputDecimals :- MintDecimals(ledger, Mint(call, OutputIndex(call)));
    var (ready, created) :- CreateMissing(env, call, ledger, call.mints);
    var tracked :- Snapshot(env, call, ready);
    var effective :- EffectiveAmount(call, ready, stored);
    var deposited :- Deposit(env, call, ready, stored, effective, inputDecimals);
    Ok((created, tracked, effective, deposited, outputDecimals))
  }

  /** Everything after the legs. */
  function Settle(env: Env, call: Call, created: set<int>, tracked: Tracked, effective: u64, deposited: Ledger, traded: Ledger, decimals: u8)
    : (r: Result<Receipt, RouteError>)
    requires Reserved(call, tracked)
  {
    var o := OutputIndex(call);
    var raw :- OrInvalid(TokenAmount(traded, Ata(call, o)));
    var payout := SatSub(raw, tracked[o].value);
    var program := ProgramForMint(env, traded, Mint(call, o));
    var readied :- OpenOutput(env, call, traded);
    var paid :- OrFail(TransferTokens(env, readied, program, Ata(call, o), call.outputAccount, call.titan, Mint(call, o), payout, decimals));
    var closed :- CloseCreated(env, call, created, paid, call.mints);
    if ReservesKept(call, tracked, closed)
    then Ok(Receipt(created, tracked, effective, deposited, traded, readied, payout, paid, closed))
    else Err(ReservedBalanceViolation)
  }

  function Route(env: Env, call: Call, ledger: Ledger): (r: Result<Receipt, RouteError>) {
    var _ :- CheckArguments(call);
    var (created, tracked, effective, deposited, decimals) :- Prepare(env, call, ledger);
    var traded :- RunLegs(env, call, tracked, deposited, |call.swaps|);
    Settle(env, call, created, tracked, effective, deposited, traded, decimals)
  }
}
