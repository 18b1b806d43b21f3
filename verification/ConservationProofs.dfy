/** Token accounting over whole routes with well-behaved venues and distinct ATAs:
    conservation per mint, full-weight chains, and split legs. */
module ConservationProofs {
  import opened Base
  import opened TokenLedger
  import opened RouteModel
  import opened ReserveProofs

  /** The route mints have one ATA each, and the user is not paid into one of them. */
  ghost predicate DistinctAtas(call: Call)
    requires WellFormed(call)
  {
    && (forall i: nat, j: nat :: i < j < call.mints ==> Ata(call, i) != Ata(call, j))
    && (forall i: nat :: i < call.mints ==> Ata(call, i) != call.outputAccount)
  }

  /** What route mint `i`'s ATA holds beyond its reserve. */
  function Held(call: Call, tracked: Tracked, ledger: Ledger, i: nat): int
    requires Reserved(call, tracked) && i < call.mints
  {
    At(ledger, Ata(call, i)).amount - tracked[i].value
  }

  /** What leg `k` spends, on the ledger the legs before it left. */
  function LegSpends(env: Env, call: Call, tracked: Tracked, ledger: Ledger, k: nat): nat
    requires Reserved(call, tracked) && k < |call.swaps| && RunLegs(env, call, tracked, ledger, k).Ok?
  {
    LegInput(Surplus(call, tracked, RunLegs(env, call, tracked, ledger, k).value, call.swaps[k].from), call.swaps[k].weightNanos)
  }

  /** What leg `k` brings in: nothing if it was skipped. */
  function LegReturns(env: Env, call: Call, tracked: Tracked, ledger: Ledger, k: nat, curve: VenueCurve): nat
    requires Reserved(call, tracked) && k < |call.swaps| && RunLegs(env, call, tracked, ledger, k).Ok?
  {
    var spent := LegSpends(env, call, tracked, ledger, k);
    if spent == 0 then 0 else curve(k, RunLegs(env, call, tracked, ledger, k).value, spent)
  }

  /** Total spent from mint `i` over the first `n` legs. */
  function Debits(env: Env, call: Call, tracked: Tracked, ledger: Ledger, i: nat, n: nat): nat
    requires Reserved(call, tracked) && n <= |call.swaps| && RunLegs(env, call, tracked, ledger, n).Ok?
  {
    if n == 0 then 0
    else Debits(env, call, tracked, ledger, i, n - 1)
         + if call.swaps[n - 1].from == i then LegSpends(env, call, tracked, ledger, n - 1) else 0
  }

  /** Total brought in on mint `i` over the first `n` legs. */
  function Credits(env: Env, call: Call, tracked: Tracked, ledger: Ledger, i: nat, n: nat, curve: VenueCurve): nat
    requires Reserved(call, tracked) && n <= |call.swaps| && RunLegs(env, call, tracked, ledger, n).Ok?
  {
    if n == 0 then 0
    else Credits(env, call, tracked, ledger, i, n - 1, curve)
         + if call.swaps[n - 1].to == i then LegReturns(env, call, tracked, ledger, n - 1, curve) else 0
  }

  /** One leg moves what it spends and returns, and only on its two mints. */
  lemma LegMoves(env: Env, call: Call, tracked: Tracked, ledger: Ledger, k: nat, curve: VenueCurve, i: nat)
    requires Reserved(call, tracked) && DistinctAtas(call) && WellBehaved(env, call, curve)
    requires k < |call.swaps| && i < call.mints
    requires RunLegs(env, call, tracked, ledger, k + 1).Ok? && RunLegs(env, call, tracked, ledger, k).Ok?
    requires Covered(env, call, tracked, RunLegs(env, call, tracked, ledger, k).value)
    ensures Held(call, tracked, RunLegs(env, call, tracked, ledger, k + 1).value, i) ==
            Held(call, tracked, RunLegs(env, call, tracked, ledger, k).value, i)
            - (if call.swaps[k].from == i then LegSpends(env, call, tracked, ledger, k) else 0)
            + (if call.swaps[k].to == i then LegReturns(env, call, tracked, ledger, k, curve) else 0)
  {
    var before := RunLegs(env, call, tracked, ledger, k).value;
    LegTrades(env, call, tracked, before, k, curve);
    assert IsTitanAccount(env, before, Key(call, i), call.titan);
    var from, to := call.swaps[k].from, call.swaps[k].to;
    assert Ata(call, i) == Ata(call, from) <==> i == from;
    assert Ata(call, i) == Ata(call, to) <==> i == to;
  }

  lemma {:induction false} LegsConserve(env: Env, call: Call, tracked: Tracked, ledger: Ledger, n: nat, curve: VenueCurve, i: nat)
    requires Reserved(call, tracked) && DistinctAtas(call) && WellBehaved(env, call, curve)
    requires n <= |call.swaps| && i < call.mints
    requires Covered(env, call, tracked, ledger) && AliasesAgree(call, tracked)
    requires RunLegs(env, call, tracked, ledger, n).Ok?
    ensures Held(call, tracked, RunLegs(env, call, tracked, ledger, n).value, i) ==
            Held(call, tracked, ledger, i) + Credits(env, call, tracked, ledger, i, n, curve)
            - Debits(env, call, tracked, ledger, i, n)
  {
    hide WellBehaved;
    hide RunLeg;
    hide Covered;
    hide AliasesAgree;
    hide DistinctAtas;
    if n > 0 {
      LegsConserve(env, call, tracked, ledger, n - 1, curve, i);
      LegsKeepCovered(env, call, tracked, ledger, n - 1, curve);
      LegMoves(env, call, tracked, ledger, n - 1, curve, i);
    }
  }

  /** After the deposit the first mint holds the effective amount over its reserve and
      every other mint holds nothing over it. */
  lemma DepositHeld(env: Env, call: Call, ledger: Ledger, rc: Receipt, i: nat)
    requires Separate(env, call) && Route(env, call, ledger) == Ok(rc)
    requires WellFormed(call) ==> DistinctAtas(call) && i < call.mints
    ensures Reserved(call, rc.tracked) && Covered(env, call, rc.tracked, rc.deposited) && AliasesAgree(call, rc.tracked)
    ensures Held(call, rc.tracked, rc.deposited, i) == if i == 0 then rc.effective else 0
  {
    Stages(env, call, ledger, rc);
    var ready := Prepared(env, call, ledger);
    SnapshotCovers(env, call, ready);
    assert IsTitanAccount(env, ready, Key(call, i), call.titan);
    assert Ata(call, i) == Ata(call, 0) <==> i == 0;
  }

  /** The payout comes out of the output mint alone. */
  lemma PayoutMoves(env: Env, call: Call, ledger: Ledger, rc: Receipt, i: nat)
    requires Separate(env, call) && Route(env, call, ledger) == Ok(rc)
    requires WellFormed(call) ==> DistinctAtas(call) && i < call.mints
    ensures WellFormed(call) && Reserved(call, rc.tracked)
    ensures IsTitanAccount(env, rc.traded, Ata(call, i), call.titan) ==>
            Balance(rc.closed, Ata(call, i)) - rc.tracked[i].value ==
            Held(call, rc.tracked, rc.traded, i) - if i == OutputIndex(call) then rc.payout else 0
  {
    hide Prepare;
    hide RunLegs;
    hide CloseCreated;
    hide TransferTokens;
    hide OpenOutput;
    hide ReservesKept;
    Stages(env, call, ledger, rc);
    var decimals := Prepare(env, call, ledger).value.4;
    var o := OutputIndex(call);
    OpenOutputChangesOutputOnly(env, call, rc.traded);
    TransferMovesExactly(env, rc.readied, ProgramForMint(env, rc.traded, Mint(call, o)), Ata(call, o),
      call.outputAccount, call.titan, Mint(call, o), rc.payout, decimals);
    CloseCreatedKeepsBalances(env, call, rc.created, rc.paid, call.mints);
    assert Ata(call, i) == Ata(call, o) <==> i == o;
    assert Ata(call, i) != call.outputAccount;
  }

  /** Conservation: over any route with well-behaved venues, on every mint, what came in
      (the deposit, the legs' proceeds) is what the legs spent, what the user was paid
      and what the TitanPDA is left holding over its reserve. */
  lemma RouteConserves(env: Env, call: Call, ledger: Ledger, rc: Receipt, curve: VenueCurve, i: nat)
    requires Separate(env, call) && Route(env, call, ledger) == Ok(rc)
    requires WellFormed(call) ==> DistinctAtas(call) && WellBehaved(env, call, curve) && i < call.mints
    ensures Reserved(call, rc.tracked) && RunLegs(env, call, rc.tracked, rc.deposited, |call.swaps|).Ok?
    ensures (if i == 0 then rc.effective else 0) + Credits(env, call, rc.tracked, rc.deposited, i, |call.swaps|, curve) ==
            Debits(env, call, rc.tracked, rc.deposited, i, |call.swaps|)
            + (Balance(rc.closed, Ata(call, i)) - rc.tracked[i].value)
            + (if i == OutputIndex(call) then rc.payout else 0)
  {
    Stages(env, call, ledger, rc);
    DepositHeld(env, call, ledger, rc, i);
    LegsConserve(env, call, rc.tracked, rc.deposited, |call.swaps|, curve, i);
    LegsKeepCovered(env, call, rc.tracked, rc.deposited, |call.swaps|, curve);
    PayoutMoves(env, call, ledger, rc, i);
    assert IsTitanAccount(env, rc.traded, Key(call, i), call.titan);
  }
}
