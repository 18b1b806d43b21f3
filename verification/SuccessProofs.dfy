/** When a route succeeds: accepted arguments, usable or openable accounts, a funded input and
    venues that do not refuse are enough. */
module SuccessProofs {
  import opened Base
  import opened TradingVenue
  import opened TokenLedger
  import opened RouteModel
  import opened ReserveProofs
  import opened SetupProofs

  // ---- Arguments ------------------------------------------------------------------

  /** Two to twelve mints with an account and a mint each, one to twelve legs between them, the
      first of them from the first mint. */
  predicate ArgumentsFit(call: Call) {
    && 2 <= call.mints <= 12 && 1 <= |call.swaps| <= 12 && 2 * call.mints <= |call.remaining|
    && call.swaps[0].from == 0
    && forall k :: 0 <= k < |call.swaps| ==> call.swaps[k].from < call.mints && call.swaps[k].to < call.mints
  }

  /** The counts are in order, but there are not enough accounts for them. */
  predicate AccountsShort(call: Call) {
    2 <= call.mints <= 12 && 1 <= |call.swaps| <= 12 && |call.remaining| < 2 * call.mints
  }

  /** Exactly which arguments a route takes, and what it says to the others. */
  lemma ArgumentsAcceptedIff(env: Env, call: Call, ledger: Ledger)
    ensures CheckArguments(call).Ok? <==> ArgumentsFit(call)
    ensures !ArgumentsFit(call) ==>
              Route(env, call, ledger) == Err(if AccountsShort(call) then MissingRemainingAccount else InvalidSwapInput)
  {
  }

  // ---- Accounts -------------------------------------------------------------------

  /** A mint of either token program, with the bytes the route reads. */
  predicate MintReady(env: Env, ledger: Ledger, mint: Pubkey) {
    IsTokenProgram(env, At(ledger, mint).program) && At(ledger, mint).dataLen > 44
  }

  /** A token account of a mint, under the program the mint belongs to. */
  predicate Receives(env: Env, ledger: Ledger, key: Pubkey, mint: Pubkey) {
    var account := At(ledger, key);
    && account.program == ProgramForMint(env, ledger, mint) && account.dataLen >= TOKEN_ACCOUNT_LEN
    && account.mint == mint
  }

  /** One that its owner can spend from. */
  predicate HoldsFor(env: Env, ledger: Ledger, key: Pubkey, owner: Pubkey, mint: Pubkey) {
    && Receives(env, ledger, key, mint) && At(ledger, key).authority == owner
    && (mint == env.nativeMint ==> At(ledger, key).amount <= At(ledger, key).lamports)
  }

  /** Not there yet, but at the address its owner's account of the mint is opened at. */
  predicate Openable(env: Env, ledger: Ledger, key: Pubkey, owner: Pubkey, mint: Pubkey) {
    && At(ledger, key).program == SYSTEM_PROGRAM && At(ledger, key).dataLen == 0 && At(ledger, key).lamports <= U64_MAX
    && key == env.ataOf(owner, mint, ProgramForMint(env, ledger, mint))
  }

  /** What a ready account holds, or can hold once it is opened. */
  function HeldAt(ledger: Ledger, key: Pubkey): nat {
    if Exists(ledger, key) then At(ledger, key).amount else At(ledger, key).lamports
  }

  predicate AtaReady(env: Env, call: Call, ledger: Ledger, i: nat)
    requires WellFormed(call) && i < call.mints
  {
    if Exists(ledger, Ata(call, i)) then HoldsFor(env, ledger, Ata(call, i), call.titan, Mint(call, i))
    else Openable(env, ledger, Ata(call, i), call.titan, Mint(call, i))
  }

  /** The output account takes the output mint, or can be opened for the user to. */
  predicate OutputUsable(env: Env, call: Call, ledger: Ledger)
    requires WellFormed(call)
  {
    var mint := Mint(call, OutputIndex(call));
    if Exists(ledger, call.outputAccount) then Receives(env, ledger, call.outputAccount, mint)
    else Openable(env, ledger, call.outputAccount, call.user, mint)
  }

  /** And it has room for all the output ATA holds. */
  predicate OutputReady(env: Env, call: Call, ledger: Ledger)
    requires WellFormed(call)
  {
    && OutputUsable(env, call, ledger)
    && HeldAt(ledger, call.outputAccount) + At(ledger, Ata(call, OutputIndex(call))).amount <= U64_MAX
  }

  predicate CanPay(ledger: Ledger, key: Pubkey, lamports: int) {
    At(ledger, key).program == SYSTEM_PROGRAM && At(ledger, key).dataLen == 0 && At(ledger, key).lamports >= lamports
  }

  /** The input is funded: by its account, or for native SOL by that and the user's lamports. */
  ghost predicate InputReady(env: Env, call: Call, ledger: Ledger, amount: u64)
    requires WellFormed(call)
  {
    var account := At(ledger, call.inputAccount);
    if call.tokenLedger.None? && Mint(call, 0) == env.nativeMint then
      && account.lamports + amount <= U64_MAX
      && (if Exists(ledger, call.inputAccount) then
            && HoldsFor(env, ledger, call.inputAccount, call.user, env.nativeMint) && Backed(env, account)
            && CanPay(ledger, call.user, amount - account.amount)
          else
            && Openable(env, ledger, call.inputAccount, call.user, env.nativeMint)
            && CanPay(ledger, call.user, amount))
    else HoldsFor(env, ledger, call.inputAccount, call.user, Mint(call, 0)) && amount <= account.amount
  }

  /** The amount the route is to spend: the argument, or what a token ledger says was gained. */
  predicate Requested(call: Call, ledger: Ledger, amount: u64) {
    match ReadTokenLedger(call)
    case Ok(None) => amount == call.amount
    case Ok(Some(stored)) => amount > 0 && TokenAmount(ledger, call.inputAccount) == Some(stored + amount)
    case Err(_) => false
  }

  /** The accounts in their different roles are different accounts. */
  predicate RolesApart(call: Call)
    requires WellFormed(call)
  {
    && (forall i: nat, j: nat :: i < j < call.mints ==> Ata(call, i) != Ata(call, j))
    && (forall i: nat, j: nat :: i < call.mints && j < call.mints ==> Ata(call, i) != Mint(call, j))
    && (forall i: nat :: i < call.mints ==> Ata(call, i) !in {call.inputAccount, call.outputAccount, call.user, call.payer})
    && (forall j: nat :: j < call.mints ==> Mint(call, j) !in {call.inputAccount, call.outputAccount, call.user, call.payer})
    && call.inputAccount !in {call.outputAccount, call.user, call.payer}
    && call.outputAccount !in {call.user, call.payer}
  }

  /** Everything a route needs of a ledger to be settled from it: the mints as they were, the
      TitanPDA's accounts usable, the output account ready. */
  ghost predicate Settleable(env: Env, call: Call, start: Ledger, ledger: Ledger)
    requires WellFormed(call)
  {
    && (forall j: nat :: j < call.mints ==> SameMint(At(start, Mint(call, j)), At(ledger, Mint(call, j))))
    && (forall i: nat :: i < call.mints ==> HoldsFor(env, ledger, Ata(call, i), call.titan, Mint(call, i)))
    && OutputReady(env, call, ledger)
  }

  predicate SameMint(before: Account, after: Account) {
    before.program == after.program && before.dataLen == after.dataLen && before.decimals == after.decimals
  }

  /** Venues that trade what they are handed, never refuse an amount that is there, and leave the
      route settleable. */
  ghost predicate Cooperates(env: Env, call: Call, start: Ledger, curve: VenueCurve)
    requires WellFormed(call)
  {
    && WellBehaved(env, call, curve)
    && forall k: nat, ledger, input: u64 {:trigger Invoke(env, call, ledger, k, input)} ::
         LegFits(call, k) && Settleable(env, call, start, ledger) && 0 < input <= At(ledger, Ata(call, call.swaps[k].from)).amount ==>
           && Invoke(env, call, ledger, k, input).Some?
           && Settleable(env, call, start, Invoke(env, call, ledger, k, input).value)
  }

  // ---- One call at a time ---------------------------------------------------------

  lemma CreateAtaSucceeds(env: Env, ledger: Ledger, owner: Pubkey, mint: Pubkey, ata: Pubkey)
    requires GenuinePrograms(env) && ata != mint && Openable(env, ledger, ata, owner, mint)
    ensures CreateAta(env, ledger, owner, mint, ata, ProgramForMint(env, ledger, mint)).Some?
    ensures var after := CreateAta(env, ledger, owner, mint, ata, ProgramForMint(env, ledger, mint)).value;
            && HoldsFor(env, after, ata, owner, mint) && At(after, ata).amount <= At(ledger, ata).lamports
            && forall key :: key != ata ==> At(after, key) == At(ledger, key)
  {
  }

  lemma TransferSucceeds(env: Env, ledger: Ledger, from: Pubkey, to: Pubkey, authority: Pubkey, mint: Pubkey, amount: u64)
    requires HoldsFor(env, ledger, from, authority, mint) && Receives(env, ledger, to, mint)
    requires from != to && from != mint && to != mint
    requires amount <= At(ledger, from).amount && At(ledger, to).amount + amount <= U64_MAX
    ensures TransferTokens(env, ledger, ProgramForMint(env, ledger, mint), from, to, authority, mint, amount, At(ledger, mint).decimals).Some?
    ensures var after := TransferTokens(env, ledger, ProgramForMint(env, ledger, mint), from, to, authority, mint, amount,
                                        At(ledger, mint).decimals).value;
            && HoldsFor(env, after, from, authority, mint) && Receives(env, after, to, mint)
            && (HoldsFor(env, ledger, to, At(ledger, to).authority, mint) ==> HoldsFor(env, after, to, At(ledger, to).authority, mint))
            && forall key :: key != from && key != to ==> At(after, key) == At(ledger, key)
  {
  }

  lemma CloseSucceeds(env: Env, ledger: Ledger, key: Pubkey, destination: Pubkey, owner: Pubkey, mint: Pubkey)
    requires HoldsFor(env, ledger, key, owner, mint) && key != destination
    requires At(ledger, key).amount == 0 || mint == env.nativeMint
    ensures CloseAccount(env, ledger, key, destination, owner, ProgramForMint(env, ledger, mint)).Some?
    ensures var after := CloseAccount(env, ledger, key, destination, owner, ProgramForMint(env, ledger, mint)).value;
            && (forall other :: other != key && other != destination ==> At(after, other) == At(ledger, other))
            && At(after, destination).program == At(ledger, destination).program
  {
  }

  // ---- Setting up -----------------------------------------------------------------

  /** Neither an account nor the program of its mint has changed. */
  lemma HoldsStill(env: Env, before: Ledger, after: Ledger, key: Pubkey, owner: Pubkey, mint: Pubkey)
    requires At(after, key) == At(before, key) && At(after, mint).program == At(before, mint).program
    ensures HoldsFor(env, after, key, owner, mint) <==> HoldsFor(env, before, key, owner, mint)
    ensures Receives(env, after, key, mint) <==> Receives(env, before, key, mint)
    ensures Openable(env, after, key, owner, mint) <==> Openable(env, before, key, owner, mint)
  {
  }

  /** Every ATA ends up usable, holding no more than it could; nothing else is touched. */
  lemma {:induction false} CreationSucceeds(env: Env, call: Call, ledger: Ledger, n: nat)
    requires GenuinePrograms(env) && WellFormed(call) && RolesApart(call) && n <= call.mints
    requires forall i: nat :: i < call.mints ==> AtaReady(env, call, ledger, i)
    ensures CreateMissing(env, call, ledger, n).Ok?
    ensures var after := CreateMissing(env, call, ledger, n).value.0;
            && (forall i: nat :: i < n ==> HoldsFor(env, after, Ata(call, i), call.titan, Mint(call, i))
                                           && At(after, Ata(call, i)).amount <= HeldAt(ledger, Ata(call, i)))
            && forall key :: (forall i: nat :: i < n ==> Ata(call, i) != key) ==> At(after, key) == At(ledger, key)
  {
    hide CreateAta;
    hide HoldsFor;
    hide Openable;
    if n > 0 {
      CreationSucceeds(env, call, ledger, n - 1);
      var before := CreateMissing(env, call, ledger, n - 1).value.0;
      var ata, mint := Ata(call, n - 1), Mint(call, n - 1);
      assert At(before, ata) == At(ledger, ata) && At(before, mint) == At(ledger, mint);
      HoldsStill(env, ledger, before, ata, call.titan, mint);
      assert AtaReady(env, call, ledger, n - 1);
      if !Exists(before, ata) {
        CreateAtaSucceeds(env, before, call.titan, mint, ata);
        var after := CreateAta(env, before, call.titan, mint, ata, ProgramForMint(env, before, mint)).value;
        forall i: nat | i < n - 1 ensures HoldsFor(env, after, Ata(call, i), call.titan, Mint(call, i)) {
          HoldsStill(env, before, after, Ata(call, i), call.titan, Mint(call, i));
        }
      }
    }
  }

  /** The wrapper is there and holds the input. */
  lemma WrappingSucceeds(env: Env, call: Call, ledger: Ledger, amount: u64)
    requires GenuinePrograms(env) && WellFormed(call) && RolesApart(call)
    requires call.tokenLedger.None? && Mint(call, 0) == env.nativeMint && InputReady(env, call, ledger, amount)
    ensures SetupWsol(env, call, ledger, env.nativeMint, ProgramForMint(env, ledger, env.nativeMint), amount).Ok?
    ensures var after := SetupWsol(env, call, ledger, env.nativeMint, ProgramForMint(env, ledger, env.nativeMint), amount).value.0;
            && HoldsFor(env, after, call.inputAccount, call.user, env.nativeMint) && amount <= At(after, call.inputAccount).amount
            && forall key :: key != call.inputAccount && key != call.user ==> At(after, key) == At(ledger, key)
  {
  }

  /** Ready for a deposit: every ATA usable, the input funded, room in the first ATA. */
  ghost predicate DepositReady(env: Env, call: Call, ledger: Ledger, amount: u64)
    requires WellFormed(call)
  {
    && (forall i: nat :: i < call.mints ==> HoldsFor(env, ledger, Ata(call, i), call.titan, Mint(call, i)))
    && InputReady(env, call, ledger, amount)
    && At(ledger, Ata(call, 0)).amount + amount <= U64_MAX
  }

  lemma DepositSucceeds(env: Env, call: Call, ledger: Ledger, stored: Option<u64>, amount: u64)
    requires Separate(env, call) && WellFormed(call) && RolesApart(call) && DepositReady(env, call, ledger, amount)
    requires stored.None? <==> call.tokenLedger.None?
    ensures Deposit(env, call, ledger, stored, amount, At(ledger, Mint(call, 0)).decimals).Ok?
    ensures var after := Deposit(env, call, ledger, stored, amount, At(ledger, Mint(call, 0)).decimals).value;
            && HoldsFor(env, after, Ata(call, 0), call.titan, Mint(call, 0))
            && At(after, Ata(call, 0)).amount == At(ledger, Ata(call, 0)).amount + amount
            && forall key :: key !in {call.inputAccount, call.user, call.payer, Ata(call, 0)} ==> At(after, key) == At(ledger, key)
  {
    hide HoldsFor;
    hide Receives;
    hide SetupWsol;
    hide TransferTokens;
    hide CloseAccount;
    var mint, ata := Mint(call, 0), Ata(call, 0);
    var program := ProgramForMint(env, ledger, mint);
    assert HoldsFor(env, ledger, ata, call.titan, mint);
    var ready := ledger;
    if stored.None? && mint == env.nativeMint {
      WrappingSucceeds(env, call, ledger, amount);
      ready := SetupWsol(env, call, ledger, mint, program, amount).value.0;
      HoldsStill(env, ledger, ready, ata, call.titan, mint);
    }
    assert At(ready, mint) == At(ledger, mint) && At(ready, ata) == At(ledger, ata);
    HoldsReceives(env, ready, ata, call.titan, mint);
    TransferSucceeds(env, ready, call.inputAccount, ata, call.user, mint, amount);
    var paid := TransferTokens(env, ready, program, call.inputAccount, ata, call.user, mint, amount, At(ledger, mint).decimals).value;
    TransferMovesAmount(env, ready, program, call.inputAccount, ata, call.user, mint, amount, At(ledger, mint).decimals);
    assert HoldsFor(env, paid, ata, call.titan, mint);
    if stored.None? && mint == env.nativeMint {
      CloseSucceeds(env, paid, call.inputAccount, call.payer, call.user, mint);
      var closed := CloseAccount(env, paid, call.inputAccount, call.payer, call.user, program).value;
      HoldsStill(env, paid, closed, ata, call.titan, mint);
    }
  }

  lemma HoldsReceives(env: Env, ledger: Ledger, key: Pubkey, owner: Pubkey, mint: Pubkey)
    requires HoldsFor(env, ledger, key, owner, mint)
    ensures Receives(env, ledger, key, mint) && At(ledger, key).authority == owner
    ensures TokenAmount(ledger, key) == Some(At(ledger, key).amount) && IsTitanAccount(env, ledger, key, owner)
  {
  }

  lemma TransferMovesAmount(env: Env, ledger: Ledger, program: Pubkey, from: Pubkey, to: Pubkey, authority: Pubkey,
                            mint: Pubkey, amount: u64, decimals: u8)
    requires from != to
    requires TransferTokens(env, ledger, program, from, to, authority, mint, amount, decimals).Some?
    ensures var after := TransferTokens(env, ledger, program, from, to, authority, mint, amount, decimals).value;
            At(after, from).amount == At(ledger, from).amount - amount && At(after, to).amount == At(ledger, to).amount + amount
  {
  }

  // ---- Legs and settlement --------------------------------------------------------

  /** No leg is refused. */
  lemma {:induction false} LegsSucceed(env: Env, call: Call, start: Ledger, tracked: Tracked, ledger: Ledger, n: nat, curve: VenueCurve)
    requires Reserved(call, tracked) && n <= |call.swaps| && Cooperates(env, call, start, curve)
    requires forall k :: 0 <= k < |call.swaps| ==> LegFits(call, k)
    requires Settleable(env, call, start, ledger)
    ensures RunLegs(env, call, tracked, ledger, n).Ok?
    ensures Settleable(env, call, start, RunLegs(env, call, tracked, ledger, n).value)
  {
    hide WellBehaved;
    hide HoldsFor;
    hide OutputReady;
    hide Invoke;
    hide LegInput;
    if n > 0 {
      LegsSucceed(env, call, start, tracked, ledger, n - 1, curve);
      var before := RunLegs(env, call, tracked, ledger, n - 1).value;
      var swap := call.swaps[n - 1];
      assert LegFits(call, n - 1);
      HoldsReceives(env, before, Ata(call, swap.from), call.titan, Mint(call, swap.from));
      LegInputExact(Surplus(call, tracked, before, swap.from), swap.weightNanos);
    }
  }

  /** The output account is there for the payout, with the room it was to have. */
  lemma OutputSucceeds(env: Env, call: Call, ledger: Ledger)
    requires GenuinePrograms(env) && WellFormed(call) && RolesApart(call) && OutputReady(env, call, ledger)
    ensures OpenOutput(env, call, ledger).Ok?
    ensures var after := OpenOutput(env, call, ledger).value;
            var o := OutputIndex(call);
            && Receives(env, after, call.outputAccount, Mint(call, o))
            && At(after, call.outputAccount).amount + At(ledger, Ata(call, o)).amount <= U64_MAX
            && forall key :: key != call.outputAccount ==> At(after, key) == At(ledger, key)
  {
    hide CreateAta;
    var mint := Mint(call, OutputIndex(call));
    assert mint != call.outputAccount;
    if !Exists(ledger, call.outputAccount) {
      CreateAtaSucceeds(env, ledger, call.user, mint, call.outputAccount);
    }
  }

  /** Every created and empty ATA closes. */
  lemma {:induction false} ClosingSucceeds(env: Env, call: Call, created: set<int>, ledger: Ledger, n: nat)
    requires WellFormed(call) && RolesApart(call) && n <= call.mints
    requires forall i: nat :: i < call.mints ==> HoldsFor(env, ledger, Ata(call, i), call.titan, Mint(call, i))
    ensures CloseCreated(env, call, created, ledger, n).Ok?
    ensures var after := CloseCreated(env, call, created, ledger, n).value;
            && (forall i: nat :: n <= i < call.mints ==> At(after, Ata(call, i)) == At(ledger, Ata(call, i)))
            && forall j: nat :: j < call.mints ==> At(after, Mint(call, j)).program == At(ledger, Mint(call, j)).program
  {
    hide HoldsFor;
    hide CloseAccount;
    if n > 0 {
      ClosingSucceeds(env, call, created, ledger, n - 1);
      var before := CloseCreated(env, call, created, ledger, n - 1).value;
      var ata, mint := Ata(call, n - 1), Mint(call, n - 1);
      assert At(before, ata) == At(ledger, ata) && At(before, mint).program == At(ledger, mint).program;
      HoldsStill(env, ledger, before, ata, call.titan, mint);
      if n - 1 in created && Balance(before, ata) == 0 {
        HoldsReceives(env, before, ata, call.titan, mint);
        CloseSucceeds(env, before, ata, call.payer, call.titan, mint);
        var after := CloseAccount(env, before, ata, call.payer, call.titan, ProgramForMint(env, before, mint)).value;
        forall j: nat | j < call.mints ensures At(after, Mint(call, j)).program == At(ledger, Mint(call, j)).program {
          assert Mint(call, j) != ata;
        }
      }
    }
  }

  /** From a settleable ledger only the closing check can stop a route. */
  lemma SettlingSucceeds(env: Env, call: Call, start: Ledger, created: set<int>, tracked: Tracked, effective: u64, deposited: Ledger, traded: Ledger)
    requires GenuinePrograms(env) && Reserved(call, tracked) && RolesApart(call) && Settleable(env, call, start, traded)
    ensures var settled := Settle(env, call, created, tracked, effective, deposited, traded, At(start, Mint(call, OutputIndex(call))).decimals);
            settled.Ok? || settled == Err(ReservedBalanceViolation)
  {
    hide HoldsFor;
    hide Receives;
    hide OpenOutput;
    hide TransferTokens;
    hide CloseCreated;
    hide ReservesKept;
    var o := OutputIndex(call);
    var ata, mint := Ata(call, o), Mint(call, o);
    HoldsReceives(env, traded, ata, call.titan, mint);
    var payout := SatSub(At(traded, ata).amount, tracked[o].value);
    OutputSucceeds(env, call, traded);
    var readied := OpenOutput(env, call, traded).value;
    assert At(readied, ata) == At(traded, ata) && At(readied, mint) == At(traded, mint);
    HoldsStill(env, traded, readied, ata, call.titan, mint);
    TransferSucceeds(env, readied, ata, call.outputAccount, call.titan, mint, payout);
    var paid := TransferTokens(env, readied, ProgramForMint(env, traded, mint), ata, call.outputAccount, call.titan, mint, payout,
      At(start, mint).decimals).value;
    forall i: nat | i < call.mints ensures HoldsFor(env, paid, Ata(call, i), call.titan, Mint(call, i)) {
      assert HoldsFor(env, traded, Ata(call, i), call.titan, Mint(call, i));
      if i != o {
        assert Ata(call, i) != ata;
        HoldsStill(env, traded, paid, Ata(call, i), call.titan, Mint(call, i));
      }
    }
    ClosingSucceeds(env, call, created, paid, call.mints);
  }

  /** Why a leg stops a route: no accounts, too many, a source too short to hold a balance, or
      the venue; with nothing to spend the venue is not asked. */
  lemma LegStopsIff(env: Env, call: Call, tracked: Tracked, ledger: Ledger, k: nat)
    requires Reserved(call, tracked) && k < |call.swaps|
    ensures var swap, r := call.swaps[k], RunLeg(env, call, tracked, ledger, k);
            var short := At(ledger, Ata(call, swap.from)).dataLen < 72;
            var input := LegInput(Surplus(call, tracked, ledger, swap.from), swap.weightNanos);
            && (r == Err(InvalidSwapInput) <==> swap.nAccounts == 0)
            && (r == Err(MissingRemainingAccount) <==> swap.nAccounts > 0 && LegStart(call, k) + swap.nAccounts > |call.remaining|)
            && (r == Err(InvalidAccountData) <==> LegFits(call, k) && short)
            && (r == Err(CpiFailed) <==> LegFits(call, k) && !short && input > 0 && Invoke(env, call, ledger, k, input).None?)
            && (r.Ok? <==> LegFits(call, k) && !short && (input == 0 || Invoke(env, call, ledger, k, input).Some?))
  {
    hide LegInput;
    hide Invoke;
  }

  lemma {:induction false} CreationStops(env: Env, call: Call, ledger: Ledger, n: nat)
    requires WellFormed(call) && n <= call.mints
    ensures CreateMissing(env, call, ledger, n).Err? ==> CreateMissing(env, call, ledger, n) == Err(CpiFailed)
  {
    hide CreateAta;
    if n > 0 {
      CreationStops(env, call, ledger, n - 1);
    }
  }

  /** The input account is too short to hold a balance, or holds no more than a token ledger says
      it had. */
  predicate NothingGained(ledger: Ledger, key: Pubkey, stored: u64) {
    At(ledger, key).dataLen < 72 || At(ledger, key).amount <= stored
  }

  /** Why a route stops before its legs, in order: a token ledger that does not read or a mint too
      short; an ATA that cannot be opened; an ATA not the TitanPDA's or nothing gained; the deposit. */
  lemma PrepareStops(env: Env, call: Call, ledger: Ledger)
    requires WellFormed(call)
    ensures var r := Prepare(env, call, ledger);
            var stored := ReadTokenLedger(call);
            var creation := CreateMissing(env, call, ledger, call.mints);
            if stored.Err? || At(ledger, Mint(call, 0)).dataLen <= 44 || At(ledger, Mint(call, OutputIndex(call))).dataLen <= 44
            then r == Err(InvalidAccountData)
            else if creation.Err? then r == Err(CpiFailed)
            else
              var ready := creation.value.0;
              if (exists i: nat :: i < call.mints && !IsTitanAccount(env, ready, Key(call, i), call.titan))
                 || (stored.value.Some? && NothingGained(ready, call.inputAccount, stored.value.value))
              then r == Err(InvalidAccountData)
              else
                var amount := if stored.value.Some? then At(ready, call.inputAccount).amount - stored.value.value else call.amount;
                var deposit := Deposit(env, call, ready, stored.value, amount, At(ledger, Mint(call, 0)).decimals);
                if deposit.Err? then r == Err(deposit.error) else r.Ok? && r.value.3 == deposit.value && r.value.2 == amount
  {
    hide CreateMissing;
    hide Deposit;
    hide IsTitanAccount;
    hide Positions;
    CreationStops(env, call, ledger, call.mints);
    var stored := ReadTokenLedger(call);
    if stored.Err? {
      assert stored == Err(InvalidAccountData);
    }
  }

  /** A deposit fails over a wrapper too short to hold a balance, else only in a call it makes. */
  lemma DepositStops(env: Env, call: Call, ledger: Ledger, stored: Option<u64>, amount: u64, decimals: u8)
    requires WellFormed(call) && Deposit(env, call, ledger, stored, amount, decimals).Err?
    ensures var wraps := stored.None? && Mint(call, 0) == env.nativeMint && Exists(ledger, call.inputAccount);
            Deposit(env, call, ledger, stored, amount, decimals) ==
            Err(if wraps && At(ledger, call.inputAccount).dataLen < 72 then InvalidAccountData else CpiFailed)
  {
    hide TransferTokens;
    hide CloseAccount;
    hide FundNative;
    hide CreateAta;
  }

  /** After the legs, an output ATA too short to hold a balance stops a route. */
  lemma SettleStops(env: Env, call: Call, created: set<int>, tracked: Tracked, effective: u64, deposited: Ledger, traded: Ledger, decimals: u8)
    requires Reserved(call, tracked) && At(traded, Ata(call, OutputIndex(call))).dataLen < 72
    ensures Settle(env, call, created, tracked, effective, deposited, traded, decimals) == Err(InvalidAccountData)
  {
  }

  // ---- The whole route ------------------------------------------------------------

  /** What a route needs of the ledger it finds. */
  ghost predicate RouteReady(env: Env, call: Call, ledger: Ledger, amount: u64)
    requires WellFormed(call)
  {
    var o := OutputIndex(call);
    && Requested(call, ledger, amount)
    && (forall j: nat :: j < call.mints ==> MintReady(env, ledger, Mint(call, j)))
    && (forall i: nat :: i < call.mints ==> AtaReady(env, call, ledger, i))
    && InputReady(env, call, ledger, amount) && HeldAt(ledger, Ata(call, 0)) + amount <= U64_MAX
    && OutputUsable(env, call, ledger)
    && HeldAt(ledger, call.outputAccount) + HeldAt(ledger, Ata(call, o)) + (if o == 0 then amount else 0) <= U64_MAX
  }

  /** Creation leaves a ledger ready for the deposit, and all but the ATAs as it was. */
  lemma CreatedReady(env: Env, call: Call, ledger: Ledger, amount: u64) returns (ready: Ledger)
    requires Separate(env, call) && WellFormed(call) && RolesApart(call) && RouteReady(env, call, ledger, amount)
    ensures CreateMissing(env, call, ledger, call.mints).Ok? && CreateMissing(env, call, ledger, call.mints).value.0 == ready
    ensures DepositReady(env, call, ready, amount) && OutputUsable(env, call, ready) && Requested(call, ready, amount)
    ensures At(ready, call.outputAccount) == At(ledger, call.outputAccount)
    ensures forall j: nat :: j < call.mints ==> At(ready, Mint(call, j)) == At(ledger, Mint(call, j))
    ensures forall i: nat :: i < call.mints ==> At(ready, Ata(call, i)).amount <= HeldAt(ledger, Ata(call, i))
  {
    hide HoldsFor;
    hide Receives;
    hide Openable;
    hide CreateMissing;
    hide ReadTokenLedger;
    CreationSucceeds(env, call, ledger, call.mints);
    ready := CreateMissing(env, call, ledger, call.mints).value.0;
    forall j: nat | j < call.mints ensures At(ready, Mint(call, j)) == At(ledger, Mint(call, j)) {
      assert MintReady(env, ledger, Mint(call, j));
    }
    assert At(ready, call.inputAccount) == At(ledger, call.inputAccount) && At(ready, call.user) == At(ledger, call.user);
    HoldsStill(env, ledger, ready, call.inputAccount, call.user, Mint(call, 0));
    HoldsStill(env, ledger, ready, call.outputAccount, call.user, Mint(call, OutputIndex(call)));
  }

  lemma SnapshotSucceeds(env: Env, call: Call, ledger: Ledger)
    requires WellFormed(call)
    requires forall i: nat :: i < call.mints ==> HoldsFor(env, ledger, Ata(call, i), call.titan, Mint(call, i))
    ensures Snapshot(env, call, ledger).Ok?
  {
    hide HoldsFor;
    forall i: nat | i < call.mints ensures IsTitanAccount(env, ledger, Key(call, i), call.titan) {
      HoldsReceives(env, ledger, Ata(call, i), call.titan, Mint(call, i));
    }
  }

  /** And the deposit a ledger that can be settled. */
  lemma DepositedSettleable(env: Env, call: Call, start: Ledger, ready: Ledger, stored: Option<u64>, amount: u64)
    requires Separate(env, call) && WellFormed(call) && RolesApart(call) && RouteReady(env, call, start, amount)
    requires DepositReady(env, call, ready, amount) && OutputUsable(env, call, ready) && (stored.None? <==> call.tokenLedger.None?)
    requires At(ready, call.outputAccount) == At(start, call.outputAccount)
    requires forall j: nat :: j < call.mints ==> At(ready, Mint(call, j)) == At(start, Mint(call, j))
    requires forall i: nat :: i < call.mints ==> At(ready, Ata(call, i)).amount <= HeldAt(start, Ata(call, i))
    ensures Deposit(env, call, ready, stored, amount, At(start, Mint(call, 0)).decimals).Ok?
    ensures Settleable(env, call, start, Deposit(env, call, ready, stored, amount, At(start, Mint(call, 0)).decimals).value)
  {
    hide HoldsFor;
    hide Receives;
    hide Openable;
    hide InputReady;
    hide Deposit;
    hide Requested;
    hide AtaReady;
    DepositSucceeds(env, call, ready, stored, amount);
    var deposited := Deposit(env, call, ready, stored, amount, At(start, Mint(call, 0)).decimals).value;
    forall i: nat | i < call.mints ensures HoldsFor(env, deposited, Ata(call, i), call.titan, Mint(call, i)) {
      if i > 0 {
        assert Ata(call, i) != Ata(call, 0);
        HoldsStill(env, ready, deposited, Ata(call, i), call.titan, Mint(call, i));
      }
    }
    HoldsStill(env, ready, deposited, call.outputAccount, call.user, Mint(call, OutputIndex(call)));
  }

  lemma PrepareSucceeds(env: Env, call: Call, ledger: Ledger, amount: u64)
    requires Separate(env, call) && WellFormed(call) && RolesApart(call) && RouteReady(env, call, ledger, amount)
    ensures Prepare(env, call, ledger).Ok?
    ensures var (created, tracked, effective, deposited, decimals) := Prepare(env, call, ledger).value;
            && effective == amount && decimals == At(ledger, Mint(call, OutputIndex(call))).decimals
            && Settleable(env, call, ledger, deposited)
  {
    hide CreateMissing;
    hide Deposit;
    hide Snapshot;
    hide ReadTokenLedger;
    hide DepositReady;
    hide OutputUsable;
    hide RolesApart;
    hide Settleable;
    var ready := CreatedReady(env, call, ledger, amount);
    DepositReadyHolds(env, call, ready, amount);
    SnapshotSucceeds(env, call, ready);
    ReadsLedgerIff(call);
    assert MintReady(env, ledger, Mint(call, 0)) && MintReady(env, ledger, Mint(call, OutputIndex(call)));
    DepositedSettleable(env, call, ledger, ready, ReadTokenLedger(call).value, amount);
  }

  lemma DepositReadyHolds(env: Env, call: Call, ledger: Ledger, amount: u64)
    requires WellFormed(call) && DepositReady(env, call, ledger, amount)
    ensures forall i: nat :: i < call.mints ==> HoldsFor(env, ledger, Ata(call, i), call.titan, Mint(call, i))
  {
  }

  lemma ReadsLedgerIff(call: Call)
    ensures ReadTokenLedger(call).Ok? ==> (ReadTokenLedger(call).value.None? <==> call.tokenLedger.None?)
  {
  }

  /** A route goes through.  Up to twelve legs over up to twelve mints of either token program
      and whatever decimals, each leg's accounts there; ATAs and output account usable or
      openable, input funded, balances within a u64; and venues that trade without refusing.
      The amount spent is the amount requested. */
  lemma RouteSucceeds(env: Env, call: Call, ledger: Ledger, amount: u64, curve: VenueCurve)
    requires ArgumentsFit(call) && forall k :: 0 <= k < |call.swaps| ==> LegFits(call, k)
    requires Separate(env, call) && RolesApart(call)
    requires RouteReady(env, call, ledger, amount) && Cooperates(env, call, ledger, curve)
    ensures Route(env, call, ledger).Ok? && Route(env, call, ledger).value.effective == amount
  {
    hide Prepare;
    hide Settle;
    hide WellBehaved;
    hide RouteReady;
    hide RolesApart;
    hide Settleable;
    ArgumentsAcceptedIff(env, call, ledger);
    PrepareSucceeds(env, call, ledger, amount);
    var (created, tracked, effective, deposited, decimals) := Prepare(env, call, ledger).value;
    LegsSucceed(env, call, ledger, tracked, deposited, |call.swaps|, curve);
    var traded := RunLegs(env, call, tracked, deposited, |call.swaps|).value;
    SettlingSucceeds(env, call, ledger, created, tracked, effective, deposited, traded);
    ReservesNeverViolated(env, call, ledger, curve);
    Stages(env, call, ledger, Route(env, call, ledger).value);
  }
}
