/** What a route does to balances: the user's surplus under any venue whatever, and the
    reserves under venues that trade exactly what they are handed. */
module ReserveProofs {
  import opened Base
  import opened TradingVenue
  import opened RouteTypes
  import opened TokenLedger
  import opened RouteModel

  // ---- Any venue ------------------------------------------------------------------

  lemma ArgumentsWellFormed(call: Call)
    requires CheckArguments(call).Ok?
    ensures WellFormed(call) && call.swaps[0].from == 0
  {
  }

  lemma ReceiptFields(env: Env, call: Call, created: set<int>, tracked: Tracked, effective: u64, deposited: Ledger, traded: Ledger, decimals: u8)
    requires Reserved(call, tracked)
    requires Settle(env, call, created, tracked, effective, deposited, traded, decimals).Ok?
    ensures var rc := Settle(env, call, created, tracked, effective, deposited, traded, decimals).value;
            && rc.created == created && rc.tracked == tracked && rc.effective == effective
            && rc.deposited == deposited && rc.traded == traded && ReservesKept(call, tracked, rc.closed)
  {
    hide ReservesKept;
  }

  /** The stages of a successful route, named. */
  lemma Stages(env: Env, call: Call, ledger: Ledger, rc: Receipt)
    requires Route(env, call, ledger) == Ok(rc)
    ensures WellFormed(call) && call.swaps[0].from == 0 && Reserved(call, rc.tracked)
    ensures Prepare(env, call, ledger).Ok?
    ensures var (created, tracked, effective, deposited, decimals) := Prepare(env, call, ledger).value;
            && created == rc.created && tracked == rc.tracked && effective == rc.effective && deposited == rc.deposited
            && Settle(env, call, created, tracked, effective, deposited, rc.traded, decimals) == Ok(rc)
    ensures RunLegs(env, call, rc.tracked, rc.deposited, |call.swaps|) == Ok(rc.traded)
    ensures ReservesKept(call, rc.tracked, rc.closed)
  {
    ArgumentsWellFormed(call);
    var (created, tracked, effective, deposited, decimals) := Prepare(env, call, ledger).value;
    var traded := RunLegs(env, call, tracked, deposited, |call.swaps|).value;
    ReceiptFields(env, call, created, tracked, effective, deposited, traded, decimals);
  }

  /** Closing the created ATAs that are empty changes no token balance. */
  lemma {:induction false} CloseCreatedKeepsBalances(env: Env, call: Call, created: set<int>, ledger: Ledger, n: nat)
    requires WellFormed(call) && n <= call.mints
    requires CloseCreated(env, call, created, ledger, n).Ok?
    ensures forall key :: Balance(CloseCreated(env, call, created, ledger, n).value, key) == Balance(ledger, key)
  {
    if n > 0 {
      CloseCreatedKeepsBalances(env, call, created, ledger, n - 1);
      var before := CloseCreated(env, call, created, ledger, n - 1).value;
      if n - 1 in created && Balance(before, Ata(call, n - 1)) == 0 {
        CloseEmptyKeepsBalances(env, before, Ata(call, n - 1), call.payer, call.titan,
          ProgramForMint(env, before, Mint(call, n - 1)));
      }
    }
  }

  /** Between two different accounts a token transfer moves exactly its amount. */
  lemma TransferMovesExactly(env: Env, ledger: Ledger, program: Pubkey, from: Pubkey, to: Pubkey, authority: Pubkey,
                             mint: Pubkey, amount: u64, decimals: u8)
    requires from != to
    requires TransferTokens(env, ledger, program, from, to, authority, mint, amount, decimals).Some?
    ensures var after := TransferTokens(env, ledger, program, from, to, authority, mint, amount, decimals).value;
            && Balance(after, from) == Balance(ledger, from) - amount
            && Balance(after, to) == Balance(ledger, to) + amount
            && forall key :: key != from && key != to ==> At(after, key) == At(ledger, key)
  {
  }

  lemma OpenOutputChangesOutputOnly(env: Env, call: Call, ledger: Ledger)
    requires WellFormed(call) && OpenOutput(env, call, ledger).Ok?
    ensures forall key :: key != call.outputAccount ==> At(OpenOutput(env, call, ledger).value, key) == At(ledger, key)
  {
  }

  /** Whatever the venues did, a successful route has paid the user exactly the output
      surplus, left the output ATA exactly at its reserve, and only closed ATAs whose
      reserve was zero. */
  lemma UserReceivesSurplus(env: Env, call: Call, ledger: Ledger, rc: Receipt)
    requires Route(env, call, ledger) == Ok(rc)
    requires WellFormed(call) ==> call.outputAccount != Ata(call, OutputIndex(call))
    ensures WellFormed(call) && Reserved(call, rc.tracked)
    ensures var o := OutputIndex(call);
            && rc.payout + rc.tracked[o].value == Balance(rc.traded, Ata(call, o))
            && Balance(rc.closed, Ata(call, o)) == rc.tracked[o].value
            && Balance(rc.closed, call.outputAccount) == Balance(rc.readied, call.outputAccount) + rc.payout
    ensures forall i: nat :: i < call.mints && i in rc.created && Balance(rc.paid, Ata(call, i)) == 0 ==>
              rc.tracked[i].value == 0
  {
    hide Prepare;
    hide RunLegs;
    hide CloseCreated;
    hide TransferTokens;
    hide OpenOutput;
    Stages(env, call, ledger, rc);
    var decimals := Prepare(env, call, ledger).value.4;
    var o := OutputIndex(call);
    OpenOutputChangesOutputOnly(env, call, rc.traded);
    TransferMovesExactly(env, rc.readied, ProgramForMint(env, rc.traded, Mint(call, o)), Ata(call, o),
      call.outputAccount, call.titan, Mint(call, o), rc.payout, decimals);
    CloseCreatedKeepsBalances(env, call, rc.created, rc.paid, call.mints);
    assert Balance(rc.closed, Key(call, o)) >= rc.tracked[o].value;
    forall i: nat | i < call.mints && i in rc.created && Balance(rc.paid, Ata(call, i)) == 0
      ensures rc.tracked[i].value == 0
    {
      assert Balance(rc.closed, Key(call, i)) >= rc.tracked[i].value;
    }
  }

  // ---- Well-behaved venues --------------------------------------------------------

  /** A venue's trade, seen from the TitanPDA's token accounts: `from` pays `input`,
      `to` receives `output`, nothing else moves. */
  ghost predicate Trades(env: Env, titan: Pubkey, before: Ledger, after: Ledger, from: Pubkey, to: Pubkey, input: u64, output: u64) {
    forall key {:trigger At(after, key)} :: IsTitanAccount(env, before, key, titan) ==>
      && IsTitanAccount(env, after, key, titan)
      && At(after, key).amount ==
           At(before, key).amount - (if key == from then input else 0) + (if key == to then output else 0)
  }

  /** How much leg `k` pays out, given its input and the ledger it ran on. */
  type VenueCurve = (nat, Ledger, u64) -> u64

  predicate LegFits(call: Call, k: nat) {
    k < |call.swaps| && call.swaps[k].nAccounts > 0 && LegStart(call, k + 1) <= |call.remaining|
  }

  /** Every CPI that succeeds is a trade of its input for what the curve says. */
  ghost predicate WellBehaved(env: Env, call: Call, curve: VenueCurve)
    requires WellFormed(call)
  {
    forall k: nat, ledger, input: u64 {:trigger Invoke(env, call, ledger, k, input)} ::
      LegFits(call, k) && Invoke(env, call, ledger, k, input).Some? ==>
        Trades(env, call.titan, ledger, Invoke(env, call, ledger, k, input).value,
               Ata(call, call.swaps[k].from), Ata(call, call.swaps[k].to), input, curve(k, ledger, input))
  }

  /** Every tracked account is still the TitanPDA's, at or above its snapshot. */
  ghost predicate Covered(env: Env, call: Call, tracked: Tracked, ledger: Ledger)
    requires |tracked| == |call.remaining|
  {
    forall i: nat :: i < |tracked| && tracked[i].Some? ==>
      IsTitanAccount(env, ledger, Key(call, i), call.titan) && At(ledger, Key(call, i)).amount >= tracked[i].value
  }

  /** Positions naming the same account have the same snapshot. */
  ghost predicate AliasesAgree(call: Call, tracked: Tracked)
    requires |tracked| == |call.remaining|
  {
    forall i: nat, j: nat :: i < |tracked| && j < |tracked| && Key(call, i) == Key(call, j) ==> tracked[i] == tracked[j]
  }

  lemma SnapshotCovers(env: Env, call: Call, ledger: Ledger)
    requires WellFormed(call) && Snapshot(env, call, ledger).Ok?
    ensures var tracked := Snapshot(env, call, ledger).value;
            Reserved(call, tracked) && Covered(env, call, tracked, ledger) && AliasesAgree(call, tracked)
  {
  }

  /** Nothing the TitanPDA holds is touched, except possibly a credit at `credited`. */
  lemma CoveredCarries(env: Env, call: Call, tracked: Tracked, before: Ledger, after: Ledger)
    requires |tracked| == |call.remaining| && Covered(env, call, tracked, before)
    requires KeepsTitan(env, call.titan, before, after, {})
    ensures Covered(env, call, tracked, after)
  {
  }

  lemma MulMonotone(a: nat, x: int, y: int)
    requires x <= y
    ensures a * x <= a * y
  {
  }

  lemma DivBounded(product: nat, available: nat)
    requires product <= available * WEIGHT_ALL
    ensures 0 <= product / WEIGHT_ALL <= available
  {
  }

  /** The u128 product never saturates and the cast never truncates: a leg's input is the
      weighted share rounded down, and from full weight on all that is available. */
  lemma LegInputExact(available: u64, weightNanos: u32)
    ensures LegInput(available, weightNanos) == available * Min(weightNanos, WEIGHT_ALL) / WEIGHT_ALL
    ensures LegInput(available, weightNanos) <= available
    ensures weightNanos >= WEIGHT_ALL ==> LegInput(available, weightNanos) == available
  {
    var weight := Min(weightNanos, WEIGHT_ALL);
    MulMonotone(available, weight, WEIGHT_ALL);
    DivBounded(available * weight, available);
    MulMonotone(WEIGHT_ALL, available, U64_MAX);
  }

  /** What the route's signers must be: the user's signature is not the TitanPDA's. */
  ghost predicate Separate(env: Env, call: Call) {
    GenuinePrograms(env) && call.user != call.titan
  }

  lemma KeepsTitanTransitive(env: Env, titan: Pubkey, a: Ledger, b: Ledger, c: Ledger, except: set<Pubkey>)
    requires KeepsTitan(env, titan, a, b, {}) && KeepsTitan(env, titan, b, c, except)
    ensures KeepsTitan(env, titan, a, c, except)
    ensures forall key :: key in except && IsTitanAccount(env, a, key, titan) ==> IsTitanAccount(env, b, key, titan)
  {
    hide IsTitanAccount;
    forall key | IsTitanAccount(env, a, key, titan)
      ensures IsTitanAccount(env, b, key, titan) && At(b, key).amount == At(a, key).amount
      ensures key !in except ==> IsTitanAccount(env, c, key, titan) && At(c, key).amount == At(a, key).amount
    {
      var account := At(b, key);
      var last := At(c, key);
    }
  }

  lemma SyncNativeKeepsTitan(env: Env, ledger: Ledger, account: Pubkey, program: Pubkey, titan: Pubkey)
    requires SyncNative(env, ledger, account, program).Some?
    ensures var after := SyncNative(env, ledger, account, program).value;
            && KeepsTitan(env, titan, ledger, after, {account})
            && (IsTitanAccount(env, ledger, account, titan) ==> IsTitanAccount(env, after, account, titan))
  {
    var after := SyncNative(env, ledger, account, program).value;
    forall key | IsTitanAccount(env, ledger, key, titan) && key !in {account}
      ensures IsTitanAccount(env, after, key, titan) && At(after, key).amount == At(ledger, key).amount
    {
      assert At(after, key) == At(ledger, key);
    }
  }

  lemma SystemTransferKeepsTitan(env: Env, ledger: Ledger, from: Pubkey, to: Pubkey, lamports: u64, titan: Pubkey)
    requires GenuinePrograms(env) && SystemTransfer(ledger, from, to, lamports).Some?
    ensures KeepsTitan(env, titan, ledger, SystemTransfer(ledger, from, to, lamports).value, {})
  {
    var after := SystemTransfer(ledger, from, to, lamports).value;
    forall key | IsTitanAccount(env, ledger, key, titan)
      ensures IsTitanAccount(env, after, key, titan) && At(after, key).amount == At(ledger, key).amount
    {
      assert At(after, key) == At(ledger, key).(lamports := At(after, key).lamports);
    }
  }

  /** Funding a wrapper syncs only the wrapper's balance, and leaves it its owner. */
  lemma FundNativeKeepsTitan(env: Env, ledger: Ledger, from: Pubkey, account: Pubkey, program: Pubkey, amount: u64, titan: Pubkey)
    requires GenuinePrograms(env) && FundNative(env, ledger, from, account, program, amount).Some?
    ensures var after := FundNative(env, ledger, from, account, program, amount).value;
            && KeepsTitan(env, titan, ledger, after, {account})
            && (IsTitanAccount(env, ledger, account, titan) ==> IsTitanAccount(env, after, account, titan))
            && (amount == 0 ==> after == ledger)
  {
    if amount > 0 {
      var funded := SystemTransfer(ledger, from, account, amount).value;
      var after := SyncNative(env, funded, account, program).value;
      SystemTransferKeepsTitan(env, ledger, from, account, amount, titan);
      SyncNativeKeepsTitan(env, funded, account, program, titan);
      KeepsTitanTransitive(env, titan, ledger, funded, after, {account});
    }
  }

  lemma SetupWsolKeepsTitan(env: Env, call: Call, ledger: Ledger, mint: Pubkey, program: Pubkey, amount: u64)
    requires Separate(env, call) && SetupWsol(env, call, ledger, mint, program, amount).Ok?
    ensures var after := SetupWsol(env, call, ledger, mint, program, amount).value.0;
            && KeepsTitan(env, call.titan, ledger, after, {call.inputAccount})
            && (IsTitanAccount(env, ledger, call.inputAccount, call.titan) ==>
                 IsTitanAccount(env, after, call.inputAccount, call.titan))
            && (amount == 0 ==> KeepsTitan(env, call.titan, ledger, after, {}))
  {
    hide FundNative;
    if Exists(ledger, call.inputAccount) {
      var current := TokenAmount(ledger, call.inputAccount).value;
      if current < amount {
        FundNativeKeepsTitan(env, ledger, call.user, call.inputAccount, program, amount - current, call.titan);
      }
    } else {
      var created := CreateAta(env, ledger, call.user, mint, call.inputAccount, program).value;
      CreateAtaKeepsTitan(env, ledger, call.user, mint, call.inputAccount, program, call.titan);
      var after := FundNative(env, created, call.user, call.inputAccount, program, amount).value;
      FundNativeKeepsTitan(env, created, call.user, call.inputAccount, program, amount, call.titan);
      KeepsTitanTransitive(env, call.titan, ledger, created, after, {call.inputAccount});
    }
  }

  /** A transfer out of an account with another authority leaves that account out of it. */
  lemma TransferSourceNotTitan(env: Env, ledger: Ledger, program: Pubkey, from: Pubkey, to: Pubkey, authority: Pubkey,
                               mint: Pubkey, amount: u64, decimals: u8, titan: Pubkey)
    requires amount > 0 && authority != titan
    requires TransferTokens(env, ledger, program, from, to, authority, mint, amount, decimals).Some?
    ensures !IsTitanAccount(env, ledger, from, titan)
  {
  }

  /** The deposit credits the first ATA with the effective amount and leaves the rest of
      the TitanPDA's balances alone, wrapping or not. */
  lemma DepositCredits(env: Env, call: Call, ledger: Ledger, stored: Option<u64>, amount: u64, decimals: u8)
    requires Separate(env, call) && WellFormed(call)
    requires IsTitanAccount(env, ledger, Ata(call, 0), call.titan)
    requires Deposit(env, call, ledger, stored, amount, decimals).Ok?
    ensures Trades(env, call.titan, ledger, Deposit(env, call, ledger, stored, amount, decimals).value,
                   Ata(call, 0), Ata(call, 0), 0, amount)
  {
    hide SetupWsol;
    hide CreateAta;
    var mint := Mint(call, 0);
    var program := ProgramForMint(env, ledger, mint);
    var ready := ledger;
    if stored.None? && mint == env.nativeMint {
      SetupWsolKeepsTitan(env, call, ledger, mint, program, amount);
      ready := SetupWsol(env, call, ledger, mint, program, amount).value.0;
    }
    var ata := Ata(call, 0);
    if amount > 0 {
      TransferSourceNotTitan(env, ready, program, call.inputAccount, ata, call.user, mint, amount, decimals, call.titan);
    }
    TransferByOther(env, ready, program, call.inputAccount, ata, call.user, mint, amount, decimals, call.titan);
    var paid := TransferTokens(env, ready, program, call.inputAccount, ata, call.user, mint, amount, decimals).value;
    forall key | IsTitanAccount(env, ledger, key, call.titan)
      ensures IsTitanAccount(env, paid, key, call.titan)
      ensures At(paid, key).amount == At(ledger, key).amount + if key == ata then amount else 0
    {
      assert IsTitanAccount(env, ready, key, call.titan);
    }
    var after := Deposit(env, call, ledger, stored, amount, decimals).value;
    if after != paid {
      CloseByOtherKeepsTitan(env, paid, call.inputAccount, call.payer, call.user, program, call.titan);
    }
    forall key | IsTitanAccount(env, ledger, key, call.titan)
      ensures IsTitanAccount(env, after, key, call.titan)
      ensures At(after, key).amount == At(ledger, key).amount + if key == ata then amount else 0
    {
      assert IsTitanAccount(env, paid, key, call.titan);
    }
  }

  /** A trade that takes no more than the surplus keeps every reserve covered. */
  lemma TradeKeepsCovered(env: Env, call: Call, tracked: Tracked, before: Ledger, after: Ledger, from: nat, to: nat, input: u64, output: u64)
    requires Reserved(call, tracked) && from < call.mints && to < call.mints
    requires Covered(env, call, tracked, before) && AliasesAgree(call, tracked)
    requires input <= Surplus(call, tracked, before, from)
    requires Trades(env, call.titan, before, after, Ata(call, from), Ata(call, to), input, output)
    ensures Covered(env, call, tracked, after)
  {
    forall i: nat | i < |tracked| && tracked[i].Some?
      ensures IsTitanAccount(env, after, Key(call, i), call.titan)
      ensures At(after, Key(call, i)).amount >= tracked[i].value
    {
      if Key(call, i) == Ata(call, from) {
        assert tracked[i] == tracked[from];
      }
    }
  }

  /** Leg `k` run on a covered ledger: a trade of its input, or nothing at all. */
  lemma LegTrades(env: Env, call: Call, tracked: Tracked, ledger: Ledger, k: nat, curve: VenueCurve)
    requires Reserved(call, tracked) && k < |call.swaps| && WellBehaved(env, call, curve)
    requires RunLeg(env, call, tracked, ledger, k).Ok?
    ensures LegFits(call, k)
    ensures var swap := call.swaps[k];
            var input := LegInput(Surplus(call, tracked, ledger, swap.from), swap.weightNanos);
            Trades(env, call.titan, ledger, RunLeg(env, call, tracked, ledger, k).value,
                   Ata(call, swap.from), Ata(call, swap.to), input, if input == 0 then 0 else curve(k, ledger, input))
  {
    hide LegInput;
    hide Surplus;
    assert LegStart(call, k + 1) == LegStart(call, k) + call.swaps[k].nAccounts;
  }

  lemma LegKeepsCovered(env: Env, call: Call, tracked: Tracked, ledger: Ledger, k: nat, curve: VenueCurve)
    requires Reserved(call, tracked) && k < |call.swaps| && WellBehaved(env, call, curve)
    requires Covered(env, call, tracked, ledger) && AliasesAgree(call, tracked)
    requires RunLeg(env, call, tracked, ledger, k).Ok?
    ensures Covered(env, call, tracked, RunLeg(env, call, tracked, ledger, k).value)
  {
    hide RunLeg;
    LegTrades(env, call, tracked, ledger, k, curve);
    var swap := call.swaps[k];
    var available := Surplus(call, tracked, ledger, swap.from);
    var input := LegInput(available, swap.weightNanos);
    LegInputExact(available, swap.weightNanos);
    TradeKeepsCovered(env, call, tracked, ledger, RunLeg(env, call, tracked, ledger, k).value,
      swap.from, swap.to, input, if input == 0 then 0 else curve(k, ledger, input));
  }

  /** The reserves are covered after every leg. */
  lemma {:induction false} LegsKeepCovered(env: Env, call: Call, tracked: Tracked, ledger: Ledger, n: nat, curve: VenueCurve)
    requires Reserved(call, tracked) && n <= |call.swaps| && WellBehaved(env, call, curve)
    requires Covered(env, call, tracked, ledger) && AliasesAgree(call, tracked)
    requires RunLegs(env, call, tracked, ledger, n).Ok?
    ensures Covered(env, call, tracked, RunLegs(env, call, tracked, ledger, n).value)
  {
    hide RunLeg;
    hide WellBehaved;
    hide Covered;
    hide AliasesAgree;
    if n > 0 {
      LegsKeepCovered(env, call, tracked, ledger, n - 1, curve);
      LegKeepsCovered(env, call, tracked, RunLegs(env, call, tracked, ledger, n - 1).value, n - 1, curve);
    }
  }

  /** Opening the output account and paying the surplus out takes exactly the payout from
      the output ATA, and at most adds to anything else the TitanPDA holds. */
  lemma PayoutKeepsCovered(env: Env, call: Call, tracked: Tracked, traded: Ledger, readied: Ledger, paid: Ledger, program: Pubkey, decimals: u8)
    requires Separate(env, call) && Reserved(call, tracked) && AliasesAgree(call, tracked)
    requires Covered(env, call, tracked, traded)
    requires OpenOutput(env, call, traded) == Ok(readied)
    requires var o := OutputIndex(call);
             TransferTokens(env, readied, program, Ata(call, o), call.outputAccount, call.titan, Mint(call, o),
                            Surplus(call, tracked, traded, o), decimals) == Some(paid)
    ensures Covered(env, call, tracked, paid)
  {
    var o := OutputIndex(call);
    OpenOutputKeepsTitan(env, call, traded);
    CoveredCarries(env, call, tracked, traded, readied);
    assert At(readied, Ata(call, o)).amount == At(traded, Ata(call, o)).amount;
    var payout := Surplus(call, tracked, traded, o);
    forall i: nat | i < |tracked| && tracked[i].Some?
      ensures IsTitanAccount(env, paid, Key(call, i), call.titan)
      ensures At(paid, Key(call, i)).amount >= tracked[i].value
    {
      TransferTakesAtMost(env, readied, program, Ata(call, o), call.outputAccount, call.titan, Mint(call, o), payout, decimals, Key(call, i));
      assert Key(call, i) == Ata(call, o) ==> tracked[i] == tracked[o];
    }
  }

  /** No account but the source loses, the source loses at most the amount, and owners stay. */
  lemma TransferTakesAtMost(env: Env, ledger: Ledger, program: Pubkey, from: Pubkey, to: Pubkey, authority: Pubkey,
                            mint: Pubkey, amount: u64, decimals: u8, key: Pubkey)
    requires TransferTokens(env, ledger, program, from, to, authority, mint, amount, decimals).Some?
    ensures var after := TransferTokens(env, ledger, program, from, to, authority, mint, amount, decimals).value;
            && At(after, key).amount >= At(ledger, key).amount - (if key == from then amount else 0)
            && (IsTitanAccount(env, ledger, key, authority) ==> IsTitanAccount(env, after, key, authority))
  {
  }

  lemma OpenOutputKeepsTitan(env: Env, call: Call, ledger: Ledger)
    requires GenuinePrograms(env) && WellFormed(call) && OpenOutput(env, call, ledger).Ok?
    ensures KeepsTitan(env, call.titan, ledger, OpenOutput(env, call, ledger).value, {})
  {
    var mint := Mint(call, OutputIndex(call));
    if !Exists(ledger, call.outputAccount) {
      CreateAtaKeepsTitan(env, ledger, call.user, mint, call.outputAccount, ProgramForMint(env, ledger, mint), call.titan);
    }
  }

  lemma CoveredIsKept(env: Env, call: Call, tracked: Tracked, paid: Ledger, closed: Ledger)
    requires |tracked| == |call.remaining| && Covered(env, call, tracked, paid)
    requires forall key :: Balance(closed, key) == Balance(paid, key)
    ensures ReservesKept(call, tracked, closed)
  {
    forall i | 0 <= i < Min(|tracked|, 256) && tracked[i].Some?
      ensures Balance(closed, Key(call, i)) >= tracked[i].value
    {
      assert IsTitanAccount(env, paid, Key(call, i), call.titan);
    }
  }

  lemma {:induction false} CloseCreatedErrors(env: Env, call: Call, created: set<int>, ledger: Ledger, n: nat)
    requires WellFormed(call) && n <= call.mints
    ensures CloseCreated(env, call, created, ledger, n) != Err(ReservedBalanceViolation)
  {
    if n > 0 {
      CloseCreatedErrors(env, call, created, ledger, n - 1);
    }
  }

  /** Settling a covered ledger never trips the closing check. */
  lemma SettleNeverViolates(env: Env, call: Call, created: set<int>, tracked: Tracked, effective: u64, deposited: Ledger, traded: Ledger, decimals: u8)
    requires Separate(env, call) && Reserved(call, tracked) && AliasesAgree(call, tracked)
    requires Covered(env, call, tracked, traded)
    ensures Settle(env, call, created, tracked, effective, deposited, traded, decimals) != Err(ReservedBalanceViolation)
  {
    var o := OutputIndex(call);
    assert IsTitanAccount(env, traded, Key(call, o), call.titan);
    var payout := Surplus(call, tracked, traded, o);
    var program := ProgramForMint(env, traded, Mint(call, o));
    assert payout == SatSub(TokenAmount(traded, Ata(call, o)).value, tracked[o].value);
    if OpenOutput(env, call, traded).Ok? {
      var readied := OpenOutput(env, call, traded).value;
      var transfer := TransferTokens(env, readied, program, Ata(call, o), call.outputAccount, call.titan, Mint(call, o), payout, decimals);
      if transfer.Some? {
        PayoutKeepsCovered(env, call, tracked, traded, readied, transfer.value, program, decimals);
        CloseCreatedErrors(env, call, created, transfer.value, call.mints);
        if CloseCreated(env, call, created, transfer.value, call.mints).Ok? {
          CloseCreatedKeepsBalances(env, call, created, transfer.value, call.mints);
          CoveredIsKept(env, call, tracked, transfer.value, CloseCreated(env, call, created, transfer.value, call.mints).value);
        }
      }
    }
  }

  lemma {:induction false} CreateMissingErrors(env: Env, call: Call, ledger: Ledger, n: nat)
    requires WellFormed(call) && n <= call.mints
    ensures CreateMissing(env, call, ledger, n) != Err(ReservedBalanceViolation)
  {
    if n > 0 {
      CreateMissingErrors(env, call, ledger, n - 1);
    }
  }

  lemma DepositErrors(env: Env, call: Call, ledger: Ledger, stored: Option<u64>, amount: u64, decimals: u8)
    requires WellFormed(call)
    ensures Deposit(env, call, ledger, stored, amount, decimals) != Err(ReservedBalanceViolation)
  {
    hide TransferTokens;
    hide CloseAccount;
    hide FundNative;
    hide CreateAta;
  }

  lemma PrepareErrors(env: Env, call: Call, ledger: Ledger)
    requires WellFormed(call)
    ensures Prepare(env, call, ledger) != Err(ReservedBalanceViolation)
  {
    CreateMissingErrors(env, call, ledger, call.mints);
    var stored := ReadTokenLedger(call);
    var decimals := MintDecimals(ledger, Mint(call, 0));
    if stored.Ok? && decimals.Ok? {
      forall ready, amount ensures Deposit(env, call, ready, stored.value, amount, decimals.value) != Err(ReservedBalanceViolation) {
        DepositErrors(env, call, ready, stored.value, amount, decimals.value);
      }
    }
  }

  lemma {:induction false} RunLegsErrors(env: Env, call: Call, tracked: Tracked, ledger: Ledger, n: nat)
    requires Reserved(call, tracked) && n <= |call.swaps|
    ensures RunLegs(env, call, tracked, ledger, n) != Err(ReservedBalanceViolation)
  {
    hide Surplus;
    if n > 0 {
      RunLegsErrors(env, call, tracked, ledger, n - 1);
    }
  }

  /** What a prepared route looks like: balances as snapshotted, plus the deposit. */
  lemma Prepared(env: Env, call: Call, ledger: Ledger) returns (ready: Ledger)
    requires Separate(env, call) && WellFormed(call) && Prepare(env, call, ledger).Ok?
    ensures var (created, tracked, effective, deposited, decimals) := Prepare(env, call, ledger).value;
            && Snapshot(env, call, ready) == Ok(tracked)
            && AliasesAgree(call, tracked)
            && Trades(env, call.titan, ready, deposited, Ata(call, 0), Ata(call, 0), 0, effective)
            && Covered(env, call, tracked, deposited)
  {
    hide CreateMissing;
    hide Deposit;
    ready := CreateMissing(env, call, ledger, call.mints).value.0;
    var (created, tracked, effective, deposited, decimals) := Prepare(env, call, ledger).value;
    SnapshotCovers(env, call, ready);
    assert IsTitanAccount(env, ready, Key(call, 0), call.titan);
    DepositCredits(env, call, ready, ReadTokenLedger(call).value, effective, MintDecimals(ledger, Mint(call, 0)).value);
    TradeKeepsCovered(env, call, tracked, ready, deposited, 0, 0, 0, effective);
  }

  /** With venues that trade what they are handed, the closing check cannot fail: no
      route ends in `ReservedBalanceViolation`, however its accounts alias. */
  lemma ReservesNeverViolated(env: Env, call: Call, ledger: Ledger, curve: VenueCurve)
    requires Separate(env, call)
    requires WellFormed(call) ==> WellBehaved(env, call, curve)
    ensures Route(env, call, ledger) != Err(ReservedBalanceViolation)
  {
    if CheckArguments(call).Ok? {
      ArgumentsWellFormed(call);
      PrepareErrors(env, call, ledger);
      if Prepare(env, call, ledger).Ok? {
        var ready := Prepared(env, call, ledger);
        var (created, tracked, effective, deposited, decimals) := Prepare(env, call, ledger).value;
        RunLegsErrors(env, call, tracked, deposited, |call.swaps|);
        if RunLegs(env, call, tracked, deposited, |call.swaps|).Ok? {
          LegsKeepCovered(env, call, tracked, deposited, |call.swaps|, curve);
          SettleNeverViolates(env, call, created, tracked, effective, deposited,
            RunLegs(env, call, tracked, deposited, |call.swaps|).value, decimals);
        }
      }
    }
  }

  /** The payout and the close leave every reserve covered, at every position. */
  lemma SettledCovered(env: Env, call: Call, created: set<int>, tracked: Tracked, effective: u64, deposited: Ledger, decimals: u8, rc: Receipt)
    requires Separate(env, call) && Reserved(call, tracked) && AliasesAgree(call, tracked)
    requires Covered(env, call, tracked, rc.traded)
    requires Settle(env, call, created, tracked, effective, deposited, rc.traded, decimals) == Ok(rc)
    ensures Covered(env, call, tracked, rc.paid)
    ensures forall i: nat :: i < |tracked| && tracked[i].Some? ==> Balance(rc.closed, Key(call, i)) >= tracked[i].value
  {
    hide OpenOutput;
    hide TransferTokens;
    hide CloseCreated;
    hide ReservesKept;
    var o := OutputIndex(call);
    assert IsTitanAccount(env, rc.traded, Key(call, o), call.titan);
    assert rc.payout == Surplus(call, tracked, rc.traded, o);
    var program := ProgramForMint(env, rc.traded, Mint(call, o));
    PayoutKeepsCovered(env, call, tracked, rc.traded, rc.readied, rc.paid, program, decimals);
    CloseCreatedKeepsBalances(env, call, created, rc.paid, call.mints);
    forall i: nat | i < |tracked| && tracked[i].Some? ensures Balance(rc.closed, Key(call, i)) >= tracked[i].value {
      assert IsTitanAccount(env, rc.paid, Key(call, i), call.titan);
      assert Balance(rc.closed, Key(call, i)) == Balance(rc.paid, Key(call, i));
    }
  }

  /** And the reserves are covered at every point of a successful route, at every position
      and however they alias: after the deposit, after each leg, after the payout, and by
      balance once the created accounts are closed. */
  lemma ReservesCoveredThroughout(env: Env, call: Call, ledger: Ledger, rc: Receipt, curve: VenueCurve, n: nat)
    requires Separate(env, call) && Route(env, call, ledger) == Ok(rc)
    requires WellFormed(call) ==> WellBehaved(env, call, curve)
    requires n <= |call.swaps|
    ensures WellFormed(call) && Reserved(call, rc.tracked)
    ensures Covered(env, call, rc.tracked, rc.deposited)
    ensures RunLegs(env, call, rc.tracked, rc.deposited, n).Ok?
    ensures Covered(env, call, rc.tracked, RunLegs(env, call, rc.tracked, rc.deposited, n).value)
    ensures Covered(env, call, rc.tracked, rc.paid)
    ensures forall i: nat :: i < |rc.tracked| && rc.tracked[i].Some? ==> Balance(rc.closed, Key(call, i)) >= rc.tracked[i].value
  {
    hide Prepare;
    hide Settle;
    hide WellBehaved;
    hide Covered;
    hide AliasesAgree;
    Stages(env, call, ledger, rc);
    var ready := Prepared(env, call, ledger);
    EarlierLegsOk(env, call, rc.tracked, rc.deposited, n, |call.swaps|);
    LegsKeepCovered(env, call, rc.tracked, rc.deposited, n, curve);
    LegsKeepCovered(env, call, rc.tracked, rc.deposited, |call.swaps|, curve);
    SettledCovered(env, call, rc.created, rc.tracked, rc.effective, rc.deposited, Prepare(env, call, ledger).value.4, rc);
  }

  lemma {:induction false} EarlierLegsOk(env: Env, call: Call, tracked: Tracked, ledger: Ledger, n: nat, m: nat)
    requires Reserved(call, tracked) && n <= m <= |call.swaps|
    requires RunLegs(env, call, tracked, ledger, m).Ok?
    ensures RunLegs(env, call, tracked, ledger, n).Ok?
  {
    hide RunLeg;
    if n < m {
      EarlierLegsOk(env, call, tracked, ledger, n, m - 1);
    }
  }
}
