/** Two shapes of route: full-weight chains compose the venues' curves, and split legs
    leave a bounded residue. */
module ChainProofs {
  import opened Base
  import opened RouteTypes
  import opened TokenLedger
  import opened RouteModel
  import opened ReserveProofs
  import opened ConservationProofs
  import opened RealMath

  // ---- Full-weight chains ---------------------------------------------------------

  /** The legs walk `path`, spending everything at each stop, and never come back. */
  ghost predicate FullWeightChain(call: Call, path: seq<nat>)
    requires WellFormed(call)
  {
    && |path| == |call.swaps| + 1 && path[0] == 0
    && (forall k :: 0 <= k < |path| ==> path[k] < call.mints)
    && (forall k, j :: 0 <= k < j < |path| ==> path[k] != path[j])
    && (forall k :: 0 <= k < |call.swaps| ==>
         call.swaps[k].from == path[k] && call.swaps[k].to == path[k + 1] && call.swaps[k].weightNanos >= WEIGHT_ALL)
  }

  /** A venue curve that depends on its input alone. */
  type LegCurves = (nat, u64) -> u64

  function Pure(f: LegCurves): VenueCurve {
    (k: nat, ledger: Ledger, input: u64) => f(k, input)
  }

  /** `f_{n-1}(... f_0(amount))`, where a zero along the way stays zero. */
  function Compose(f: LegCurves, amount: u64, n: nat): u64 {
    if n == 0 then amount
    else
      var before := Compose(f, amount, n - 1);
      if before == 0 then 0 else f(n - 1, before)
  }

  lemma StopsDistinct(call: Call, path: seq<nat>, k: nat, j: nat)
    requires WellFormed(call) && FullWeightChain(call, path) && k < |call.swaps| && j < |path|
    ensures |path| == |call.swaps| + 1 && path[j] < call.mints && call.swaps[k].from == path[k] < call.mints
    ensures call.swaps[k].weightNanos >= WEIGHT_ALL
    ensures path[j] == call.swaps[k].from <==> j == k
    ensures path[j] == call.swaps[k].to <==> j == k + 1
  {
    assert call.swaps[k].to == path[k + 1];
  }

  lemma ChainStart(call: Call, path: seq<nat>, j: nat)
    requires WellFormed(call) && FullWeightChain(call, path) && j < |path|
    ensures path[j] < call.mints && (path[j] == 0 <==> j == 0)
  {
  }

  lemma SurplusIsHeld(env: Env, call: Call, tracked: Tracked, ledger: Ledger, i: nat)
    requires Reserved(call, tracked) && i < call.mints && Covered(env, call, tracked, ledger)
    ensures Surplus(call, tracked, ledger, i) == Held(call, tracked, ledger, i)
  {
    assert IsTitanAccount(env, ledger, Key(call, i), call.titan);
  }

  /** A full-weight leg spends all that is held and returns what its curve says. */
  lemma FullLeg(env: Env, call: Call, tracked: Tracked, ledger: Ledger, f: LegCurves, k: nat)
    requires Reserved(call, tracked) && k < |call.swaps| && RunLegs(env, call, tracked, ledger, k).Ok?
    requires Covered(env, call, tracked, RunLegs(env, call, tracked, ledger, k).value)
    requires call.swaps[k].weightNanos >= WEIGHT_ALL
    ensures var held := Held(call, tracked, RunLegs(env, call, tracked, ledger, k).value, call.swaps[k].from);
            && LegSpends(env, call, tracked, ledger, k) == held
            && 0 <= held <= U64_MAX
            && LegReturns(env, call, tracked, ledger, k, Pure(f)) == if held == 0 then 0 else f(k, held)
  {
    hide LegInput;
    hide RunLegs;
    hide Covered;
    var before := RunLegs(env, call, tracked, ledger, k).value;
    SurplusIsHeld(env, call, tracked, before, call.swaps[k].from);
    LegInputExact(Surplus(call, tracked, before, call.swaps[k].from), call.swaps[k].weightNanos);
  }

  /** After `n` legs everything above the reserves sits at stop `n`, and it is the composition. */
  lemma {:induction false} ChainStep(env: Env, call: Call, tracked: Tracked, ledger: Ledger, path: seq<nat>, f: LegCurves, amount: u64, n: nat, j: nat)
    requires Reserved(call, tracked) && DistinctAtas(call) && FullWeightChain(call, path)
    requires WellBehaved(env, call, Pure(f))
    requires Covered(env, call, tracked, ledger) && AliasesAgree(call, tracked)
    requires forall i: nat :: i < call.mints ==> Held(call, tracked, ledger, i) == if i == 0 then amount else 0
    requires n <= |call.swaps| && j < |path| && RunLegs(env, call, tracked, ledger, n).Ok?
    ensures Held(call, tracked, RunLegs(env, call, tracked, ledger, n).value, path[j]) ==
            if j == n then Compose(f, amount, n) else 0
    decreases n
  {
    hide FullWeightChain;
    hide DistinctAtas;
    hide WellBehaved;
    hide Covered;
    hide AliasesAgree;
    hide RunLeg;
    hide Held;
    hide LegSpends;
    hide LegReturns;
    if n == 0 {
      ChainStart(call, path, j);
    } else {
      var k := n - 1;
      StopsDistinct(call, path, k, j);
      ChainStep(env, call, tracked, ledger, path, f, amount, k, j);
      ChainStep(env, call, tracked, ledger, path, f, amount, k, k);
      LegsKeepCovered(env, call, tracked, ledger, k, Pure(f));
      FullLeg(env, call, tracked, ledger, f, k);
      LegMoves(env, call, tracked, ledger, k, Pure(f), path[j]);
    }
  }

  /** A full-weight chain pays the user the composition of its venues' curves on the
      effective amount, and leaves nothing over the reserve at any stop. */
  lemma ChainComposes(env: Env, call: Call, ledger: Ledger, rc: Receipt, path: seq<nat>, f: LegCurves)
    requires Separate(env, call) && Route(env, call, ledger) == Ok(rc)
    requires WellFormed(call) ==>
               DistinctAtas(call) && FullWeightChain(call, path) && WellBehaved(env, call, Pure(f))
    ensures Reserved(call, rc.tracked) && FullWeightChain(call, path)
    ensures rc.payout == Compose(f, rc.effective, |call.swaps|)
    ensures forall j :: 0 <= j < |path| ==> Balance(rc.closed, Ata(call, path[j])) == rc.tracked[path[j]].value
  {
    Stages(env, call, ledger, rc);
    var n := |call.swaps|;
    var o := OutputIndex(call);
    UserReceivesSurplus(env, call, ledger, rc);
    forall i: nat | i < call.mints
      ensures Covered(env, call, rc.tracked, rc.deposited) && AliasesAgree(call, rc.tracked)
      ensures Held(call, rc.tracked, rc.deposited, i) == if i == 0 then rc.effective else 0
    {
      DepositHeld(env, call, ledger, rc, i);
    }
    DepositHeld(env, call, ledger, rc, 0);
    LegsKeepCovered(env, call, rc.tracked, rc.deposited, n, Pure(f));
    forall j: nat | j < |path|
      ensures Held(call, rc.tracked, rc.traded, path[j]) == if j == n then Compose(f, rc.effective, n) else 0
      ensures IsTitanAccount(env, rc.traded, Ata(call, path[j]), call.titan)
      ensures Balance(rc.closed, Ata(call, path[j])) - rc.tracked[path[j]].value ==
              Held(call, rc.tracked, rc.traded, path[j]) - if path[j] == o then rc.payout else 0
    {
      ChainStep(env, call, rc.tracked, rc.deposited, path, f, rc.effective, n, j);
      PayoutMoves(env, call, ledger, rc, path[j]);
      assert IsTitanAccount(env, rc.traded, Key(call, path[j]), call.titan);
    }
    assert path[n] == o;
    assert Held(call, rc.tracked, rc.traded, path[n]) == Compose(f, rc.effective, n);
    forall j | 0 <= j < |path|
      ensures Balance(rc.closed, Ata(call, path[j])) == rc.tracked[path[j]].value
    {
      assert path[j] == o <==> j == n;
    }
  }

  // ---- Split legs -----------------------------------------------------------------

  /** What is left of a surplus after legs of these weights spent from it. */
  function Residual(available: u64, weights: seq<u32>): (left: u64)
    ensures left <= available
    decreases |weights|
  {
    if weights == [] then available
    else
      LegInputExact(available, weights[0]);
      Residual(available - LegInput(available, weights[0]), weights[1..])
  }

  /** The share of a surplus that exact arithmetic would leave. */
  function KeptShare(weights: seq<u32>): real {
    if weights == [] then 1.0
    else Kept(weights[0]) * KeptShare(weights[1..])
  }

  lemma {:induction false} KeptShareBounds(weights: seq<u32>)
    ensures 0.0 <= KeptShare(weights) <= 1.0
  {
    if weights != [] {
      KeptShareBounds(weights[1..]);
      ProductInUnit(Kept(weights[0]), KeptShare(weights[1..]));
    }
  }

  /** The share a leg of this weight leaves behind. */
  function Kept(weight: u32): real {
    1.0 - Min(weight, WEIGHT_ALL) as real / WEIGHT_ALL as real
  }

  lemma SharesScale(available: real, w: real)
    ensures available * (1.0 - w / 1_000_000_000.0) == available - available * w / 1_000_000_000.0
  {
    assert available * (w / 1_000_000_000.0) == available * w / 1_000_000_000.0;
  }

  /** One leg leaves the exact remainder, rounded up by less than one atom. */
  lemma OneLegKeeps(available: u64, weight: u32)
    ensures var left := available - LegInput(available, weight);
            available as real * Kept(weight) <= left as real < available as real * Kept(weight) + 1.0
  {
    LegInputExact(available, weight);
    var w := Min(weight, WEIGHT_ALL);
    var product := available * w;
    var spent := product / WEIGHT_ALL;
    assert WEIGHT_ALL * spent <= product < WEIGHT_ALL * spent + WEIGHT_ALL;
    SharesScale(available as real, w as real);
    assert available as real * w as real == product as real;
    assert spent as real <= product as real / 1_000_000_000.0 < spent as real + 1.0;
  }

  lemma ScaleBounds(exact: real, left: real, share: real)
    requires exact <= left < exact + 1.0 && 0.0 <= share <= 1.0
    ensures exact * share <= left * share <= exact * share + 1.0
  {
    Scale(exact, left, share);
    Scale(left, exact + 1.0, share);
    Distribute(exact, 1.0, share);
    TimesOne(share, 1.0);
  }

  /** What exact arithmetic would leave of a surplus. */
  function Fair(available: real, weights: seq<u32>): real {
    available * KeptShare(weights)
  }

  /** One leg's rounding moves what the others would leave by at most an atom. */
  lemma FairStep(available: real, weights: seq<u32>, left: real)
    requires weights != [] && available * Kept(weights[0]) <= left < available * Kept(weights[0]) + 1.0
    ensures Fair(available, weights) <= Fair(left, weights[1..]) <= Fair(available, weights) + 1.0
    ensures weights[1..] == [] ==> Fair(left, weights[1..]) == left < Fair(available, weights) + 1.0
  {
    var share := KeptShare(weights[1..]);
    assert KeptShare(weights) == Kept(weights[0]) * share;
    KeptShareBounds(weights[1..]);
    ScaleBounds(available * Kept(weights[0]), left, share);
    Reassociate(available, Kept(weights[0]), share);
    if weights[1..] == [] {
      TimesOne(available * Kept(weights[0]), share);
      TimesOne(left, share);
    }
  }

  lemma NoLegs(available: u64)
    ensures Fair(available as real, []) == available as real && Residual(available, []) == available
  {
    TimesOne(available as real, KeptShare([]));
  }

  lemma FirstLeg(available: u64, weights: seq<u32>)
    requires weights != []
    ensures LegInput(available, weights[0]) <= available
    ensures var left := available - LegInput(available, weights[0]);
            Residual(available, weights) == Residual(left, weights[1..]) &&
            (weights[1..] == [] ==> Residual(left, weights[1..]) == left)
  {
    LegInputExact(available, weights[0]);
  }

  /** Splitting a surplus over legs loses less than one atom a leg against exact shares. */
  lemma {:induction false} ResidualBounds(available: u64, weights: seq<u32>)
    ensures Fair(available as real, weights) <= Residual(available, weights) as real
    ensures weights != [] ==> Residual(available, weights) as real < Fair(available as real, weights) + |weights| as real
    decreases |weights|
  {
    hide Fair;
    hide Residual;
    hide LegInput;
    if weights == [] {
      NoLegs(available);
    } else {
      FirstLeg(available, weights);
      OneLegKeeps(available, weights[0]);
      var left: u64 := available - LegInput(available, weights[0]);
      FairStep(available as real, weights, left as real);
      ResidualBounds(left, weights[1..]);
    }
  }

  /** Any full-weight leg among them leaves nothing. */
  lemma {:induction false} FullWeightLeavesNothing(available: u64, weights: seq<u32>, at: nat)
    requires at < |weights| && weights[at] >= WEIGHT_ALL
    ensures Residual(available, weights) == 0
    decreases |weights|
  {
    LegInputExact(available, weights[0]);
    var left: u64 := available - LegInput(available, weights[0]);
    if at == 0 {
    } else {
      FullWeightLeavesNothing(left, weights[1..], at - 1);
    }
  }

  /** The weights of those of the legs `m..n` that spend from mint `i`. */
  function SpendWeights(call: Call, i: nat, m: nat, n: nat): seq<u32>
    requires m <= n <= |call.swaps|
  {
    if n == m then []
    else SpendWeights(call, i, m, n - 1) + if call.swaps[n - 1].from == i then [call.swaps[n - 1].weightNanos] else []
  }

  lemma {:induction false} ResidualSnoc(available: u64, weights: seq<u32>, weight: u32)
    ensures LegInput(Residual(available, weights), weight) <= Residual(available, weights)
    ensures Residual(available, weights + [weight]) ==
            Residual(available, weights) - LegInput(Residual(available, weights), weight)
    decreases |weights|
  {
    LegInputExact(Residual(available, weights), weight);
    if weights == [] {
      assert (weights + [weight])[1..] == [];
    } else {
      LegInputExact(available, weights[0]);
      ResidualSnoc(available - LegInput(available, weights[0]), weights[1..], weight);
      assert (weights + [weight])[1..] == weights[1..] + [weight];
    }
  }

  /** Over any stretch of legs that does not refill a mint, its surplus goes to the residue
      of the weights spent from it, whatever earlier legs brought in and whatever the legs in
      between do to other mints. */
  lemma {:induction false} SplitLegsLeaveResidual(env: Env, call: Call, tracked: Tracked, ledger: Ledger, m: nat, n: nat, curve: VenueCurve, i: nat)
    requires Reserved(call, tracked) && DistinctAtas(call) && WellBehaved(env, call, curve)
    requires m <= n <= |call.swaps| && i < call.mints
    requires Covered(env, call, tracked, ledger) && AliasesAgree(call, tracked)
    requires RunLegs(env, call, tracked, ledger, n).Ok?
    requires forall k :: m <= k < n ==> call.swaps[k].to != i
    ensures RunLegs(env, call, tracked, ledger, m).Ok?
    ensures Surplus(call, tracked, RunLegs(env, call, tracked, ledger, n).value, i) ==
            Residual(Surplus(call, tracked, RunLegs(env, call, tracked, ledger, m).value, i), SpendWeights(call, i, m, n))
    decreases n
  {
    hide WellBehaved;
    hide LegInput;
    hide RunLeg;
    if n > m {
      SplitLegsLeaveResidual(env, call, tracked, ledger, m, n - 1, curve, i);
      var before := RunLegs(env, call, tracked, ledger, n - 1).value;
      var after := RunLegs(env, call, tracked, ledger, n).value;
      var start := Surplus(call, tracked, RunLegs(env, call, tracked, ledger, m).value, i);
      LegsKeepCovered(env, call, tracked, ledger, n - 1, curve);
      LegsKeepCovered(env, call, tracked, ledger, n, curve);
      LegMoves(env, call, tracked, ledger, n - 1, curve, i);
      SurplusIsHeld(env, call, tracked, before, i);
      SurplusIsHeld(env, call, tracked, after, i);
      if call.swaps[n - 1].from == i {
        ResidualSnoc(start, SpendWeights(call, i, m, n - 1), call.swaps[n - 1].weightNanos);
      } else {
        assert SpendWeights(call, i, m, n) == SpendWeights(call, i, m, n - 1);
      }
    }
  }

  /** Over such a stretch nothing is credited, so what the legs spend is what goes missing. */
  lemma {:induction false} NoRefillNoCredits(env: Env, call: Call, tracked: Tracked, ledger: Ledger, m: nat, n: nat, curve: VenueCurve, i: nat)
    requires Reserved(call, tracked) && m <= n <= |call.swaps| && RunLegs(env, call, tracked, ledger, n).Ok?
    requires forall k :: m <= k < n ==> call.swaps[k].to != i
    ensures RunLegs(env, call, tracked, ledger, m).Ok?
    ensures Credits(env, call, tracked, ledger, i, n, curve) == Credits(env, call, tracked, ledger, i, m, curve)
    decreases n
  {
    hide RunLeg;
    if n > m {
      NoRefillNoCredits(env, call, tracked, ledger, m, n - 1, curve, i);
    }
  }

  /** So on any mint of a route, over any stretch of legs that does not refill it, the legs
      together spend no more than the surplus the stretch began with, leave exactly the rest,
      strand less than one atom a leg against exact shares, and with one full-weight leg
      among them strand nothing. */
  lemma SplitRouteBounds(env: Env, call: Call, ledger: Ledger, rc: Receipt, curve: VenueCurve, m: nat, n: nat, i: nat)
    requires Separate(env, call) && Route(env, call, ledger) == Ok(rc)
    requires WellFormed(call) ==> DistinctAtas(call) && WellBehaved(env, call, curve) && i < call.mints
    requires m <= n <= |call.swaps|
    requires forall k :: m <= k < n ==> call.swaps[k].to != i
    ensures Reserved(call, rc.tracked)
    ensures RunLegs(env, call, rc.tracked, rc.deposited, m).Ok? && RunLegs(env, call, rc.tracked, rc.deposited, n).Ok?
    ensures var weights := SpendWeights(call, i, m, n);
            var surplus := Surplus(call, rc.tracked, RunLegs(env, call, rc.tracked, rc.deposited, m).value, i);
            var left := Surplus(call, rc.tracked, RunLegs(env, call, rc.tracked, rc.deposited, n).value, i);
            && Fair(surplus as real, weights) <= left as real
            && (weights != [] ==> left as real < Fair(surplus as real, weights) + |weights| as real)
            && ((exists at :: 0 <= at < |weights| && weights[at] >= WEIGHT_ALL) ==> left == 0)
            && (weights == [] ==> left == surplus)
            && Debits(env, call, rc.tracked, rc.deposited, i, n) - Debits(env, call, rc.tracked, rc.deposited, i, m)
               == surplus - left <= surplus
            && (m == 0 ==> surplus == if i == 0 then rc.effective else 0)
  {
    hide Settle;
    hide Prepare;
    hide WellBehaved;
    hide Residual;
    hide Fair;
    hide LegInput;
    Stages(env, call, ledger, rc);
    DepositHeld(env, call, ledger, rc, i);
    EarlierLegsOk(env, call, rc.tracked, rc.deposited, n, |call.swaps|);
    SplitLegsLeaveResidual(env, call, rc.tracked, rc.deposited, m, n, curve, i);
    var weights := SpendWeights(call, i, m, n);
    var before := RunLegs(env, call, rc.tracked, rc.deposited, m).value;
    var after := RunLegs(env, call, rc.tracked, rc.deposited, n).value;
    ResidualBounds(Surplus(call, rc.tracked, before, i), weights);
    if at :| 0 <= at < |weights| && weights[at] >= WEIGHT_ALL {
      FullWeightLeavesNothing(Surplus(call, rc.tracked, before, i), weights, at);
    }
    NoLegs(Surplus(call, rc.tracked, before, i));
    NoRefillNoCredits(env, call, rc.tracked, rc.deposited, m, n, curve, i);
    LegsConserve(env, call, rc.tracked, rc.deposited, m, curve, i);
    LegsConserve(env, call, rc.tracked, rc.deposited, n, curve, i);
    LegsKeepCovered(env, call, rc.tracked, rc.deposited, m, curve);
    LegsKeepCovered(env, call, rc.tracked, rc.deposited, n, curve);
    SurplusIsHeld(env, call, rc.tracked, before, i);
    SurplusIsHeld(env, call, rc.tracked, after, i);
    SurplusIsHeld(env, call, rc.tracked, rc.deposited, i);
  }
}
