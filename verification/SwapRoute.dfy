/** The route program as it runs: an object whose ledger each phase updates in place,
    proved phase by phase against `RouteModel` (swap_route_v3.rs). */
module SwapRoute {
  import opened Base
  import opened TradingVenue
  import opened RouteTypes
  import opened QuayAdapter
  import opened TokenLedger
  import opened RouteModel
  import opened Bitmap

  lemma {:induction false} CreateMissingStops(env: Env, call: Call, ledger: Ledger, n: nat, m: nat)
    requires WellFormed(call) && n <= m <= call.mints
    requires CreateMissing(env, call, ledger, n).Err?
    ensures CreateMissing(env, call, ledger, m) == CreateMissing(env, call, ledger, n)
  {
    if n < m {
      CreateMissingStops(env, call, ledger, n, m - 1);
    }
  }

  lemma {:induction false} RunLegsStops(env: Env, call: Call, tracked: Tracked, ledger: Ledger, n: nat, m: nat)
    requires Reserved(call, tracked) && n <= m <= |call.swaps|
    requires RunLegs(env, call, tracked, ledger, n).Err?
    ensures RunLegs(env, call, tracked, ledger, m) == RunLegs(env, call, tracked, ledger, n)
  {
    hide RunLeg;
    if n < m {
      RunLegsStops(env, call, tracked, ledger, n, m - 1);
    }
  }

  lemma {:induction false} CloseCreatedStops(env: Env, call: Call, created: set<int>, ledger: Ledger, n: nat, m: nat)
    requires WellFormed(call) && n <= m <= call.mints
    requires CloseCreated(env, call, created, ledger, n).Err?
    ensures CloseCreated(env, call, created, ledger, m) == CloseCreated(env, call, created, ledger, n)
  {
    if n < m {
      CloseCreatedStops(env, call, created, ledger, n, m - 1);
    }
  }

  class SwapRouteV3 {
    const env: Env
    var ledger: Ledger

    constructor (env: Env, ledger: Ledger)
      ensures this.env == env && this.ledger == ledger
    {
      this.env := env;
      this.ledger := ledger;
    }

    method CreateMissingAtas(call: Call) returns (r: Result<bv16, RouteError>)
      requires WellFormed(call)
      modifies this
      ensures match CreateMissing(env, call, old(ledger), call.mints)
              case Ok((after, created)) => r.Ok? && ledger == after && FlagSet(r.value) == created
              case Err(e) => r == Err(e)
    {
      var createdAtas: bv16 := 0;
      NoFlags();
      for i := 0 to call.mints
        invariant CreateMissing(env, call, old(ledger), i) == Ok((ledger, FlagSet(createdAtas)))
      {
        var ata := Ata(call, i);
        if !Exists(ledger, ata) {
          var mint := Mint(call, i);
          var after := CreateAta(env, ledger, call.titan, mint, ata, ProgramForMint(env, ledger, mint));
          if after.None? {
            CreateMissingStops(env, call, old(ledger), i + 1, call.mints);
            return Err(CpiFailed);
          }
          ledger := after.value;
          RaisingOne(createdAtas, i);
          createdAtas := createdAtas | Flag(FlagPlace(i));
        }
      }
      r := Ok(createdAtas);
    }

    method SnapshotBalances(call: Call)
      returns (r: Result<(), RouteError>, bitmap: TitanPdaBitmap, balances: seq<u64>, reserved: array<u64>)
      requires WellFormed(call)
      ensures fresh(bitmap) && fresh(bitmap.bits) && fresh(reserved)
      ensures match Snapshot(env, call, ledger)
              case Ok(tracked) =>
                && r == Ok(()) && |tracked| == |call.remaining|
                && bitmap.Valid() && bitmap.Members() == Marked(tracked, |tracked|)
                && balances == Pack(tracked, |tracked|)
                && reserved.Length == MAX_MINTS
                && (forall i :: 0 <= i < call.mints ==> tracked[i] == Some(reserved[i]))
              case Err(e) => r == Err(e)
    {
      hide IsTitanAccount;
      hide At;
      hide Marked;
      hide Pack;
      hide TitanPdaBitmap.Members;
      bitmap := new TitanPdaBitmap();
      balances := [];
      reserved := new u64[MAX_MINTS](_ => 0);
      ghost var tracked := Positions(env, call, ledger);
      NothingMarked(tracked);
      for i := 0 to |call.remaining|
        invariant bitmap.Valid() && bitmap.Members() == Marked(tracked, i)
        invariant balances == Pack(tracked, i)
        invariant forall j: nat :: j < i && j < call.mints ==> tracked[j] == Some(reserved[j])
        invariant forall j: nat :: j < i && j < call.mints ==> IsTitanAccount(env, ledger, Key(call, j), call.titan)
      {
        MarkedStep(tracked, i);
        var key := call.remaining[i].pubkey;
        if i < call.mints {
          if !IsTitanAccount(env, ledger, key, call.titan) {
            return Err(InvalidAccountData), bitmap, balances, reserved;
          }
          var balance := At(ledger, key).amount;
          reserved[i] := balance;
          bitmap.Set(i);
          balances := balances + [balance];
        } else if IsTitanAccount(env, ledger, key, call.titan) {
          bitmap.Set(i);
          balances := balances + [At(ledger, key).amount];
        }
      }
      r := Ok(());
    }

    method PerformCpiSwap(call: Call, k: nat, input: u64) returns (r: Result<(), RouteError>)
      requires k < |call.swaps| && LegStart(call, k + 1) <= |call.remaining| && call.swaps[k].nAccounts > 0
      modifies this
      ensures match Invoke(env, call, old(ledger), k, input)
              case Some(after) => r == Ok(()) && ledger == after
              case None => r == Err(CpiFailed)
    {
      var accounts := LegAccounts(call, k);
      var instructions := QuayAdapter.Swap(env.quayProgram, call.swaps[k].venue.sellBase, input, LegMetas(accounts, call.titan));
      for j := 0 to |instructions|
        invariant j == 0 ==> ledger == old(ledger)
        invariant j == 1 ==> Invoke(env, call, old(ledger), k, input) == Some(ledger)
      {
        var after := env.venue(instructions[j], accounts, ledger);
        if after.None? {
          return Err(CpiFailed);
        }
        ledger := after.value;
      }
      r := Ok(());
    }

    /** One pass of the leg loop, at the account index the loop has reached. */
    method RunSwapLeg(call: Call, k: nat, remainingAccountIndex: nat, reserved: array<u64>, ghost tracked: Tracked)
      returns (r: Result<(), RouteError>)
      requires Reserved(call, tracked) && k < |call.swaps| && reserved.Length == MAX_MINTS
      requires forall i :: 0 <= i < call.mints ==> tracked[i] == Some(reserved[i])
      requires remainingAccountIndex == LegStart(call, k)
      modifies this
      ensures match RunLeg(env, call, tracked, old(ledger), k)
              case Ok(after) => r == Ok(()) && ledger == after && LegStart(call, k + 1) <= |call.remaining|
              case Err(e) => r == Err(e)
    {
      var swap := call.swaps[k];
      var accountIncrement := swap.nAccounts;
      if accountIncrement == 0 {
        return Err(InvalidSwapInput);
      }
      if remainingAccountIndex + accountIncrement > |call.remaining| {
        return Err(MissingRemainingAccount);
      }
      var balance := TokenAmount(ledger, Ata(call, swap.from));
      if balance.None? {
        return Err(InvalidAccountData);
      }
      var available := SatSub(balance.value, reserved[swap.from]);
      assert available == Surplus(call, tracked, ledger, swap.from);
      var input := LegInput(available, swap.weightNanos);
      if input > 0 {
        r := PerformCpiSwap(call, k, input);
      } else {
        r := Ok(());
      }
    }

    method RunSwapLegs(call: Call, reserved: array<u64>, ghost tracked: Tracked) returns (r: Result<(), RouteError>)
      requires Reserved(call, tracked) && reserved.Length == MAX_MINTS
      requires forall i :: 0 <= i < call.mints ==> tracked[i] == Some(reserved[i])
      modifies this
      ensures match RunLegs(env, call, tracked, old(ledger), |call.swaps|)
              case Ok(after) => r == Ok(()) && ledger == after
              case Err(e) => r == Err(e)
    {
      hide RunLeg;
      var remainingAccountIndex := 2 * call.mints;
      for k := 0 to |call.swaps|
        invariant remainingAccountIndex == LegStart(call, k)
        invariant RunLegs(env, call, tracked, old(ledger), k) == Ok(ledger)
      {
        r := RunSwapLeg(call, k, remainingAccountIndex, reserved, tracked);
        if r.Err? {
          RunLegsStops(env, call, tracked, old(ledger), k + 1, |call.swaps|);
          return;
        }
        remainingAccountIndex := remainingAccountIndex + call.swaps[k].nAccounts;
      }
      r := Ok(());
    }

    method CloseCreatedAtas(call: Call, createdAtas: bv16) returns (r: Result<(), RouteError>)
      requires WellFormed(call)
      modifies this
      ensures match CloseCreated(env, call, FlagSet(createdAtas), old(ledger), call.mints)
              case Ok(after) => r == Ok(()) && ledger == after
              case Err(e) => r == Err(e)
    {
      hide HasFlag;
      hide FlagPlace;
      hide CloseAccount;
      hide Balance;
      for i := 0 to call.mints
        invariant CloseCreated(env, call, FlagSet(createdAtas), old(ledger), i) == Ok(ledger)
      {
        var ata := Ata(call, i);
        if HasFlag(createdAtas, FlagPlace(i)) && Balance(ledger, ata) == 0 {
          var after := CloseAccount(env, ledger, ata, call.payer, call.titan, ProgramForMint(env, ledger, Mint(call, i)));
          if after.None? {
            CloseCreatedStops(env, call, FlagSet(createdAtas), old(ledger), i + 1, call.mints);
            return Err(CpiFailed);
          }
          ledger := after.value;
        }
      }
      r := Ok(());
    }

    /** The closing check: each set position against the next packed balance. */
    method CheckReserves(call: Call, bitmap: TitanPdaBitmap, balances: seq<u64>, ghost tracked: Tracked) returns (kept: bool)
      requires |tracked| == |call.remaining|
      requires bitmap.Valid() && bitmap.Members() == Marked(tracked, |tracked|)
      requires balances == Pack(tracked, |tracked|)
      ensures kept == ReservesKept(call, tracked, ledger)
    {
      var balanceIdx := 0;
      for i := 0 to |call.remaining|
        invariant balanceIdx == |Pack(tracked, Min(i, 256))|
        invariant forall j :: 0 <= j < Min(i, 256) && tracked[j].Some? ==> Balance(ledger, Key(call, j)) >= tracked[j].value
      {
        var isSet := bitmap.IsSet(i);
        if isSet {
          PackExtends(tracked, i, |tracked|);
          var finalBalance := Balance(ledger, call.remaining[i].pubkey);
          if finalBalance < balances[balanceIdx] {
            return false;
          }
          balanceIdx := balanceIdx + 1;
        }
      }
      kept := true;
    }

    method TransferSolAndSync(from: Pubkey, account: Pubkey, program: Pubkey, amount: u64) returns (r: Result<(), RouteError>)
      modifies this
      ensures match FundNative(env, old(ledger), from, account, program, amount)
              case Some(after) => r == Ok(()) && ledger == after
              case None => r == Err(CpiFailed)
    {
      hide SystemTransfer;
      hide SyncNative;
      if amount == 0 {
        return Ok(());
      }
      var funded := SystemTransfer(ledger, from, account, amount);
      if funded.None? {
        return Err(CpiFailed);
      }
      ledger := funded.value;
      var synced := SyncNative(env, ledger, account, program);
      if synced.None? {
        return Err(CpiFailed);
      }
      ledger := synced.value;
      r := Ok(());
    }

    method SetupWsolInputAccount(call: Call, mint: Pubkey, program: Pubkey, amount: u64) returns (r: Result<bool, RouteError>)
      modifies this
      ensures match SetupWsol(env, call, old(ledger), mint, program, amount)
              case Ok((after, created)) => r == Ok(created) && ledger == after
              case Err(e) => r == Err(e)
    {
      hide FundNative;
      hide CreateAta;
      if Exists(ledger, call.inputAccount) {
        var current := TokenAmount(ledger, call.inputAccount);
        if current.None? {
          return Err(InvalidAccountData);
        }
        if current.value < amount {
          var topped := TransferSolAndSync(call.user, call.inputAccount, program, amount - current.value);
          return if topped.Ok? then Ok(false) else Err(CpiFailed);
        }
        return Ok(false);
      }
      var account := CreateAta(env, ledger, call.user, mint, call.inputAccount, program);
      if account.None? {
        return Err(CpiFailed);
      }
      ledger := account.value;
      var funded := TransferSolAndSync(call.user, call.inputAccount, program, amount);
      r := if funded.Ok? then Ok(true) else Err(CpiFailed);
    }

    method DepositInput(call: Call, stored: Option<u64>, amount: u64, decimals: u8) returns (r: Result<(), RouteError>)
      requires WellFormed(call)
      modifies this
      ensures match Deposit(env, call, old(ledger), stored, amount, decimals)
              case Ok(after) => r == Ok(()) && ledger == after
              case Err(e) => r == Err(e)
    {
      hide SetupWsol;
      hide TransferTokens;
      hide CloseAccount;
      var mint := Mint(call, 0);
      var program := ProgramForMint(env, ledger, mint);
      var wrapped := false;
      if stored.None? && mint == env.nativeMint {
        var setup := SetupWsolInputAccount(call, mint, program, amount);
        if setup.Err? {
          return Err(setup.error);
        }
        wrapped := setup.value;
      }
      var paid := TransferTokens(env, ledger, program, call.inputAccount, Ata(call, 0), call.user, mint, amount, decimals);
      if paid.None? {
        return Err(CpiFailed);
      }
      ledger := paid.value;
      if wrapped {
        var closed := CloseAccount(env, ledger, call.inputAccount, call.payer, call.user, program);
        if closed.None? {
          return Err(CpiFailed);
        }
        ledger := closed.value;
      }
      r := Ok(());
    }

    /** From the argument checks to the deposit. */
    method PrepareRoute(call: Call)
      returns (r: Result<(), RouteError>, createdAtas: bv16, bitmap: TitanPdaBitmap, balances: seq<u64>,
               reserved: array<u64>, outputDecimals: u8)
      requires WellFormed(call)
      modifies this
      ensures fresh(bitmap) && fresh(bitmap.bits) && fresh(reserved)
      ensures match Prepare(env, call, old(ledger))
              case Ok((created, tracked, effective, deposited, decimals)) =>
                && r == Ok(()) && ledger == deposited && FlagSet(createdAtas) == created && outputDecimals == decimals
                && bitmap.Valid() && bitmap.Members() == Marked(tracked, |tracked|)
                && balances == Pack(tracked, |tracked|)
                && reserved.Length == MAX_MINTS
                && (forall i :: 0 <= i < call.mints ==> tracked[i] == Some(reserved[i]))
              case Err(e) => r == Err(e)
    {
      hide CreateMissing;
      hide Deposit;
      hide Snapshot;
      hide EffectiveAmount;
      hide ReadTokenLedger;
      hide Pack;
      createdAtas, balances, outputDecimals := 0, [], 0;
      bitmap := new TitanPdaBitmap();
      reserved := new u64[MAX_MINTS](_ => 0);
      var stored := ReadTokenLedger(call);
      if stored.Err? {
        r := Err(stored.error);
        return;
      }
      var inputDecimals := MintDecimals(ledger, Mint(call, 0));
      if inputDecimals.Err? {
        r := Err(inputDecimals.error);
        return;
      }
      var decimals := MintDecimals(ledger, Mint(call, OutputIndex(call)));
      if decimals.Err? {
        r := Err(decimals.error);
        return;
      }
      outputDecimals := decimals.value;
      var created := CreateMissingAtas(call);
      if created.Err? {
        r := Err(created.error);
        return;
      }
      createdAtas := created.value;
      r, bitmap, balances, reserved := SnapshotBalances(call);
      if r.Err? {
        return;
      }
      var effective := EffectiveAmount(call, ledger, stored.value);
      if effective.Err? {
        r := Err(effective.error);
        return;
      }
      r := DepositInput(call, stored.value, effective.value, inputDecimals.value);
    }

    /** From the payout to the closing check. */
    method SettleRoute(call: Call, createdAtas: bv16, bitmap: TitanPdaBitmap, balances: seq<u64>, reserved: array<u64>,
                       decimals: u8, ghost tracked: Tracked, ghost effective: u64, ghost deposited: Ledger)
      returns (r: Result<(), RouteError>)
      requires Reserved(call, tracked) && reserved.Length == MAX_MINTS
      requires forall i :: 0 <= i < call.mints ==> tracked[i] == Some(reserved[i])
      requires bitmap.Valid() && bitmap.Members() == Marked(tracked, |tracked|)
      requires balances == Pack(tracked, |tracked|)
      modifies this
      ensures match Settle(env, call, FlagSet(createdAtas), tracked, effective, deposited, old(ledger), decimals)
              case Ok(rc) => r == Ok(()) && ledger == rc.closed
              case Err(e) => r == Err(e)
    {
      hide OpenOutput;
      hide TransferTokens;
      hide CloseCreated;
      hide ReservesKept;
      hide Pack;
      hide FlagSet;
      var outputAtaIndex := OutputIndex(call);
      var raw := TokenAmount(ledger, Ata(call, outputAtaIndex));
      if raw.None? {
        return Err(InvalidAccountData);
      }
      var userOutput := SatSub(raw.value, reserved[outputAtaIndex]);
      var program := ProgramForMint(env, ledger, Mint(call, outputAtaIndex));
      var readied := OpenOutput(env, call, ledger);
      if readied.Err? {
        return Err(readied.error);
      }
      ledger := readied.value;
      var paid := TransferTokens(env, ledger, program, Ata(call, outputAtaIndex), call.outputAccount, call.titan,
        Mint(call, outputAtaIndex), userOutput, decimals);
      if paid.None? {
        return Err(CpiFailed);
      }
      ledger := paid.value;
      r := CloseCreatedAtas(call, createdAtas);
      if r.Err? {
        return;
      }
      var kept := CheckReserves(call, bitmap, balances, tracked);
      r := if kept then Ok(()) else Err(ReservedBalanceViolation);
    }

    /** The instruction handler. */
    method Execute(call: Call) returns (r: Result<(), RouteError>)
      modifies this
      ensures match Route(env, call, old(ledger))
              case Ok(rc) => r == Ok(()) && ledger == rc.closed
              case Err(e) => r == Err(e)
    {
      hide Prepare;
      hide RunLegs;
      hide Settle;
      hide Pack;
      hide FlagSet;
      var checked := CheckArguments(call);
      if checked.Err? {
        return Err(checked.error);
      }
      assert WellFormed(call);
      var createdAtas, bitmap, balances, reserved, decimals;
      r, createdAtas, bitmap, balances, reserved, decimals := PrepareRoute(call);
      if r.Err? {
        return;
      }
      ghost var prepared := Prepare(env, call, old(ledger)).value;
      r := RunSwapLegs(call, reserved, prepared.1);
      if r.Err? {
        return;
      }
      r := SettleRoute(call, createdAtas, bitmap, balances, reserved, decimals, prepared.1, prepared.2, prepared.3);
    }

    /** The runtime around it: a failed instruction leaves the ledger as it was. */
    method Process(call: Call) returns (r: Result<(), RouteError>)
      modifies this
      ensures match Route(env, call, old(ledger))
              case Ok(rc) => r == Ok(()) && ledger == rc.closed
              case Err(e) => r == Err(e) && ledger == old(ledger)
    {
      hide Route;
      var before := ledger;
      r := Execute(call);
      if r.Err? {
        ledger := before;
      }
    }
  }
}
