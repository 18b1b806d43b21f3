/** The ends of a route: accounts opened and closed, wrapped SOL, and the token ledger. */
module SetupProofs {
  import opened Base
  import opened Bytes
  import opened TradingVenue
  import opened TokenLedger
  import opened RouteModel
  import opened ReserveProofs

  /** The first of the route mints to name its ATA. */
  ghost predicate NamedFirst(call: Call, i: nat)
    requires WellFormed(call) && i < call.mints
  {
    forall j: nat :: j < i ==> Ata(call, j) != Ata(call, i)
  }

  /** Some of the first `n` route mints has this ATA. */
  ghost predicate NamedBelow(call: Call, n: nat, key: Pubkey)
    requires WellFormed(call) && n <= call.mints
  {
    exists j: nat :: j < n && Ata(call, j) == key
  }

  /** Runtime facts: rent is charged, and an account without lamports has no data. */
  ghost predicate Funded(env: Env, ledger: Ledger) {
    env.rent > 0 && forall key {:trigger At(ledger, key)} :: At(ledger, key).dataLen > 0 ==> At(ledger, key).lamports > 0
  }

  /** An account opened for the TitanPDA under a token program. */
  ghost predicate Opened(env: Env, call: Call, account: Account) {
    IsTokenProgram(env, account.program) && account.dataLen >= TOKEN_ACCOUNT_LEN && account.authority == call.titan
  }

  lemma CreateAtaOpens(env: Env, ledger: Ledger, owner: Pubkey, mint: Pubkey, ata: Pubkey, program: Pubkey)
    requires CreateAta(env, ledger, owner, mint, ata, program).Some?
    ensures var after := CreateAta(env, ledger, owner, mint, ata, program).value;
            && At(after, ata).program == program && At(after, ata).dataLen >= TOKEN_ACCOUNT_LEN && At(after, ata).authority == owner
            && (env.rent > 0 && At(ledger, ata).dataLen == 0 ==> Exists(after, ata))
            && forall key :: key != ata ==> At(after, key) == At(ledger, key)
  {
  }

  /** Creation touches exactly the missing accounts the route mints name: each is opened for
      the TitanPDA, everything else is left as it was. */
  lemma {:induction false} OpensExactlyMissing(env: Env, call: Call, ledger: Ledger, n: nat, key: Pubkey)
    requires WellFormed(call) && n <= call.mints && Funded(env, ledger)
    requires CreateMissing(env, call, ledger, n).Ok?
    ensures var after := CreateMissing(env, call, ledger, n).value.0;
            if NamedBelow(call, n, key) && !Exists(ledger, key) then Exists(after, key) && Opened(env, call, At(after, key))
            else At(after, key) == At(ledger, key)
  {
    hide CreateAta;
    if n > 0 {
      OpensExactlyMissing(env, call, ledger, n - 1, key);
      var before := CreateMissing(env, call, ledger, n - 1).value.0;
      var ata := Ata(call, n - 1);
      assert NamedBelow(call, n, key) <==> NamedBelow(call, n - 1, key) || key == ata;
      if !Exists(before, ata) {
        var mint := Mint(call, n - 1);
        CreateAtaOpens(env, before, call.titan, mint, ata, ProgramForMint(env, before, mint));
      }
    }
  }

  /** The created set is exactly the mints first to name a missing ATA, listed twice or not. */
  lemma {:induction false} CreatedExactlyMissing(env: Env, call: Call, ledger: Ledger, n: nat, i: nat)
    requires WellFormed(call) && n <= call.mints && i < call.mints && Funded(env, ledger)
    requires CreateMissing(env, call, ledger, n).Ok?
    ensures var created := CreateMissing(env, call, ledger, n).value.1;
            i in created <==> i < n && !Exists(ledger, Ata(call, i)) && NamedFirst(call, i)
  {
    hide CreateAta;
    if n > 0 {
      CreatedExactlyMissing(env, call, ledger, n - 1, i);
      CreatedExactlyMissing(env, call, ledger, n - 1, n - 1);
      OpensExactlyMissing(env, call, ledger, n - 1, Ata(call, n - 1));
      var before := CreateMissing(env, call, ledger, n - 1).value.0;
      assert NamedFirst(call, n - 1) <==> !NamedBelow(call, n - 1, Ata(call, n - 1));
    }
  }

  lemma CloseAccountEmpties(env: Env, ledger: Ledger, key: Pubkey, destination: Pubkey, authority: Pubkey, program: Pubkey)
    requires CloseAccount(env, ledger, key, destination, authority, program).Some?
    ensures var after := CloseAccount(env, ledger, key, destination, authority, program).value;
            && key != destination && At(after, key) == ABSENT
            && At(after, destination).lamports == At(ledger, destination).lamports + At(ledger, key).lamports
            && forall k :: k != key && k != destination ==> At(after, k) == At(ledger, k)
  {
  }

  /** One of the first `n` route mints with this ATA was opened for this route. */
  ghost predicate CreatedBelow(call: Call, created: set<int>, n: nat, key: Pubkey)
    requires WellFormed(call) && n <= call.mints
  {
    exists j: nat :: j < n && j in created && Ata(call, j) == key
  }

  /** The accounts gone at the end are exactly the created and empty ones; beside the payer,
      who takes their lamports, every other account is as the payout left it. */
  lemma {:induction false} ClosedExactlyEmpty(env: Env, call: Call, created: set<int>, ledger: Ledger, n: nat, key: Pubkey)
    requires WellFormed(call) && n <= call.mints && key != call.payer
    requires CloseCreated(env, call, created, ledger, n).Ok?
    ensures At(CloseCreated(env, call, created, ledger, n).value, key) ==
            if CreatedBelow(call, created, n, key) && Balance(ledger, key) == 0 then ABSENT else At(ledger, key)
  {
    hide CloseAccount;
    if n > 0 {
      ClosedExactlyEmpty(env, call, created, ledger, n - 1, key);
      var before := CloseCreated(env, call, created, ledger, n - 1).value;
      var ata := Ata(call, n - 1);
      assert CreatedBelow(call, created, n, key) <==>
             CreatedBelow(call, created, n - 1, key) || (n - 1 in created && key == ata);
      if n - 1 in created && Balance(before, ata) == 0 {
        CloseAccountEmpties(env, before, ata, call.payer, call.titan, ProgramForMint(env, before, Mint(call, n - 1)));
      }
    }
  }

  // ---- Wrapped SOL ----------------------------------------------------------------

  /** A native token account's balance is covered by its lamports above rent. */
  ghost predicate Backed(env: Env, account: Account) {
    account.lamports >= account.amount + env.rent
  }

  /** Funding adds exactly the lamports asked for, out of the user's. */
  lemma FundingAdds(env: Env, ledger: Ledger, user: Pubkey, account: Pubkey, program: Pubkey, amount: u64)
    requires user != account && Backed(env, At(ledger, account))
    requires FundNative(env, ledger, user, account, program, amount).Some?
    ensures var after := FundNative(env, ledger, user, account, program, amount).value;
            && At(after, account).amount >= At(ledger, account).amount + amount
            && At(after, user).lamports == At(ledger, user).lamports - amount
            && At(after, account).dataLen == At(ledger, account).dataLen
            && (At(ledger, account).lamports == At(ledger, account).amount + env.rent ==>
                 At(after, account).amount == At(ledger, account).amount + amount)
  {
  }

  /** Wrapping for an input: the account ends up holding at least the input, and the user
      pays just the shortfall, or the whole input into a new account. */
  lemma WrapCoversInput(env: Env, call: Call, ledger: Ledger, program: Pubkey, amount: u64)
    requires call.user != call.inputAccount && program != SYSTEM_PROGRAM
    requires Exists(ledger, call.inputAccount) ==> Backed(env, At(ledger, call.inputAccount))
    requires !Exists(ledger, call.inputAccount) ==> At(ledger, call.inputAccount).program == SYSTEM_PROGRAM
    requires SetupWsol(env, call, ledger, env.nativeMint, program, amount).Ok?
    ensures var (after, created) := SetupWsol(env, call, ledger, env.nativeMint, program, amount).value;
            && created == !Exists(ledger, call.inputAccount)
            && Balance(after, call.inputAccount) >= amount
            && At(after, call.user).lamports == At(ledger, call.user).lamports -
                 (if created then amount else Max(amount - Balance(ledger, call.inputAccount), 0))
  {
    if Exists(ledger, call.inputAccount) {
      var current := TokenAmount(ledger, call.inputAccount).value;
      if current < amount {
        FundingAdds(env, ledger, call.user, call.inputAccount, program, amount - current);
      }
    } else {
      var account := CreateAta(env, ledger, call.user, env.nativeMint, call.inputAccount, program).value;
      assert Backed(env, At(account, call.inputAccount));
      FundingAdds(env, account, call.user, call.inputAccount, program, amount);
    }
  }

  /** A wrapper made for the route is gone after the deposit, its rent with the payer and the
      input with the first ATA; the user paid the input and no more. */
  lemma WrapperGone(env: Env, call: Call, ledger: Ledger, amount: u64, decimals: u8)
    requires WellFormed(call) && Mint(call, 0) == env.nativeMint && !Exists(ledger, call.inputAccount)
    requires call.payer != call.user && call.payer != Ata(call, 0) && call.user != Ata(call, 0)
    requires call.inputAccount != call.user && call.inputAccount != Ata(call, 0)
    requires At(ledger, call.inputAccount).program == SYSTEM_PROGRAM
    requires GenuinePrograms(env) && Deposit(env, call, ledger, None, amount, decimals).Ok?
    ensures var after := Deposit(env, call, ledger, None, amount, decimals).value;
            && At(after, call.inputAccount) == ABSENT
            && At(after, call.payer).lamports == At(ledger, call.payer).lamports + Max(At(ledger, call.inputAccount).lamports, env.rent)
            && At(after, call.user).lamports == At(ledger, call.user).lamports - amount
            && At(after, Ata(call, 0)).amount == At(ledger, Ata(call, 0)).amount + amount
  {
  }

  /** A wrapper the user had is topped up by what it lacks and left with what is over. */
  lemma WrapperToppedUp(env: Env, call: Call, ledger: Ledger, amount: u64, decimals: u8)
    requires WellFormed(call) && Mint(call, 0) == env.nativeMint && Exists(ledger, call.inputAccount)
    requires call.user != Ata(call, 0) && call.inputAccount != call.user && call.inputAccount != Ata(call, 0)
    requires At(ledger, call.inputAccount).lamports == At(ledger, call.inputAccount).amount + env.rent
    requires Deposit(env, call, ledger, None, amount, decimals).Ok?
    ensures var after := Deposit(env, call, ledger, None, amount, decimals).value;
            var held := At(ledger, call.inputAccount).amount;
            && At(after, call.inputAccount).amount == Max(held - amount, 0)
            && At(after, call.user).lamports == At(ledger, call.user).lamports - Max(amount - held, 0)
            && At(after, Ata(call, 0)).amount == At(ledger, Ata(call, 0)).amount + amount
  {
  }

  /** Any other input is only transferred: the token account pays, no lamports of the user's. */
  lemma PlainDeposit(env: Env, call: Call, ledger: Ledger, stored: Option<u64>, amount: u64, decimals: u8)
    requires WellFormed(call) && (stored.Some? || Mint(call, 0) != env.nativeMint)
    requires call.user != Ata(call, 0) && call.inputAccount != call.user && call.inputAccount != Ata(call, 0)
    requires Deposit(env, call, ledger, stored, amount, decimals).Ok?
    ensures var after := Deposit(env, call, ledger, stored, amount, decimals).value;
            && At(after, call.inputAccount).amount == At(ledger, call.inputAccount).amount - amount
            && At(after, Ata(call, 0)).amount == At(ledger, Ata(call, 0)).amount + amount
            && At(after, call.user) == At(ledger, call.user)
  {
  }

  /** A missing output account is opened before the payout, for the user, on the output mint
      under the program that mint belongs to; one that exists is left to the payout. */
  lemma OutputOpened(env: Env, call: Call, ledger: Ledger, rc: Receipt)
    requires Route(env, call, ledger) == Ok(rc)
    ensures WellFormed(call)
    ensures var mint := Mint(call, OutputIndex(call));
            var account := At(rc.readied, call.outputAccount);
            var program := ProgramForMint(env, rc.traded, mint);
            if Exists(rc.traded, call.outputAccount) then rc.readied == rc.traded
            else account.authority == call.user && account.mint == mint && account.program == program
                 && account.dataLen >= TOKEN_ACCOUNT_LEN && call.outputAccount == env.ataOf(call.user, mint, program)
  {
    hide Prepare;
    hide RunLegs;
    hide CloseCreated;
    hide TransferTokens;
    hide ReservesKept;
    Stages(env, call, ledger, rc);
  }

  // ---- The token ledger -----------------------------------------------------------

  /** A ledger written as 8 bytes, a key, a balance and anything is read back just when it
      names the input account. */
  lemma TokenLedgerReadsIff(call: Call, head: bytes, key: Pubkey, stored: u64, tail: bytes)
    requires |head| == 8 && key < Pow256(32)
    requires call.tokenLedger == Some(head + LeBytes(key, 32) + LeBytes(stored, 8) + tail)
    ensures ReadTokenLedger(call) == if key == call.inputAccount then Ok(Some(stored)) else Err(InvalidAccountData)
  {
    hide LeBytes;
    hide LeValue;
    hide Pow256;
    var data := call.tokenLedger.value;
    assert data[8..40] == LeBytes(key, 32);
    assert data[40..48] == LeBytes(stored, 8);
    LeRoundTrip(key, 32);
    U64RoundTrip(stored);
  }

  /** No ledger, nothing to read; one of fewer than 48 bytes is refused. */
  lemma ShortLedgerRefused(call: Call)
    ensures call.tokenLedger.None? ==> ReadTokenLedger(call) == Ok(None)
    ensures call.tokenLedger.Some? && |call.tokenLedger.value| < 48 ==> ReadTokenLedger(call) == Err(InvalidAccountData)
  {
  }

  /** A successful route spends what was asked, or with a ledger exactly what the input
      account has gained since the ledger was written, never nothing. */
  lemma EffectiveIsRequestedOrGained(env: Env, call: Call, ledger: Ledger, rc: Receipt)
    requires Route(env, call, ledger) == Ok(rc)
    ensures call.tokenLedger.None? ==> rc.effective == call.amount
    ensures WellFormed(call) && CreateMissing(env, call, ledger, call.mints).Ok? && ReadTokenLedger(call).Ok?
    ensures ReadTokenLedger(call).value.Some? == call.tokenLedger.Some?
    ensures var ready := CreateMissing(env, call, ledger, call.mints).value.0;
            var stored := ReadTokenLedger(call).value;
            stored.Some? ==> 0 < rc.effective == Balance(ready, call.inputAccount) - stored.value
  {
    hide CreateMissing;
    hide Deposit;
    hide Snapshot;
    hide Settle;
    hide RunLegs;
    Stages(env, call, ledger, rc);
  }
}
