/** Marginal prices by finite difference over a black-box curve (src/quay/quote.rs), and
    the pricing contract they owe the router (src/trading_venue/mod.rs).  Prices are
    exact reals. */
module Pricing {
  import opened Base
  import opened RealMath

  /** Output for an input size, or a refusal. */
  type Sim = u64 -> Option<u64>

  /** The step is the market maker's probe size, at least one atom. */
  function Step(probe: u64): (h: u64)
    ensures h >= 1
  {
    Max(probe, 1)
  }

  /** The reported price of a filled size: forward difference, else backward, else average. */
  function MarginalPrice(sim: Sim, h: u64, a: u64, out: u64): real
    requires h >= 1 && a >= 1
  {
    var ahead := sim(SatAdd(a, h));
    var behind := sim(SatSub(a, h));
    if ahead.Some? && ahead.value > out then (ahead.value - out) as real / h as real
    else if behind.Some? && out > behind.value then (out - behind.value) as real / h as real
    else out as real / a as real
  }

  function Price(sim: Sim, h: u64, a: u64): real
    requires h >= 1 && a >= 1 && sim(a).Some?
  {
    MarginalPrice(sim, h, a, sim(a).value)
  }

  /** What the quote code assumes of the simulator: it refuses 0 and never fills with 0. */
  ghost predicate FillsSomething(sim: Sim) {
    sim(0).None? && forall x: u64 :: sim(x) != Some(0)
  }

  /** No valid quote is ever priced at zero, whatever the curve. */
  lemma PriceIsPositive(sim: Sim, h: u64, a: u64)
    requires FillsSomething(sim) && h >= 1 && a >= 1 && sim(a).Some?
    ensures Price(sim, h, a) > 0.0
  {
    var out := sim(a).value;
    var ahead, behind := sim(SatAdd(a, h)), sim(SatSub(a, h));
    assert out > 0;
    if ahead.Some? && ahead.value > out {
      QuotientBound((ahead.value - out) as real, h as real, 0.0);
    } else if behind.Some? && out > behind.value {
      QuotientBound((out - behind.value) as real, h as real, 0.0);
    } else {
      QuotientBound(out as real, a as real, 0.0);
    }
  }

  // ---- Concave curves -------------------------------------------------------------

  type Curve = int -> real

  function Gain(g: Curve, x: int): real { g(x + 1) - g(x) }

  /** Each further atom gains no more than the ones before it. */
  ghost predicate Concave(g: Curve, lower: int, upper: int) {
    forall x, y :: lower <= x <= y < upper ==> Gain(g, y) <= Gain(g, x)
  }

  function Slope(g: Curve, x: int, y: int): real
    requires x < y
  {
    (g(y) - g(x)) / (y - x) as real
  }

  /** A chord lies between its last and its first atom's gain. */
  lemma {:induction false} ChordBetweenGains(g: Curve, lower: int, upper: int, x: int, y: int)
    requires Concave(g, lower, upper) && lower <= x < y <= upper
    ensures Gain(g, y - 1) * (y - x) as real <= g(y) - g(x) <= Gain(g, x) * (y - x) as real
    decreases y - x
  {
    if x + 1 < y {
      ChordBetweenGains(g, lower, upper, x, y - 1);
      assert g(y) - g(x) == g(y - 1) - g(x) + Gain(g, y - 1);
      assert (y - x) as real == (y - 1 - x) as real + 1.0;
      OneMoreAtom(Gain(g, x), Gain(g, y - 2), Gain(g, y - 1), (y - 1 - x) as real, g(y - 1) - g(x));
    } else {
      TimesOne(Gain(g, x), (y - x) as real);
    }
  }

  /** The arithmetic of one more atom on a chord of `n` that gained `sum`. */
  lemma OneMoreAtom(first: real, previous: real, last: real, n: real, sum: real)
    requires last <= previous && last <= first && n >= 0.0
    requires previous * n <= sum <= first * n
    ensures last * (n + 1.0) <= sum + last <= first * (n + 1.0)
  {
    Scale(last, previous, n);
    SumOfParts(last, n, 1.0);
    SumOfParts(first, n, 1.0);
    TimesOne(last, 1.0);
    TimesOne(first, 1.0);
  }

  /** Adjacent chords: the later is no steeper. */
  lemma AdjacentSlopes(g: Curve, lower: int, upper: int, x: int, y: int, z: int)
    requires Concave(g, lower, upper) && lower <= x < y < z <= upper
    ensures Slope(g, y, z) <= Slope(g, x, y)
  {
    hide Gain;
    ChordBetweenGains(g, lower, upper, x, y);
    ChordBetweenGains(g, lower, upper, y, z);
    assert Gain(g, y) <= Gain(g, y - 1);
    QuotientBound(g(z) - g(y), (z - y) as real, Gain(g, y));
    QuotientBound(g(y) - g(x), (y - x) as real, Gain(g, y - 1));
  }

  /** A chord's slope lies between those of its two parts. */
  lemma SplitSlope(g: Curve, x: int, y: int, z: int)
    requires x < y < z && Slope(g, y, z) <= Slope(g, x, y)
    ensures Slope(g, y, z) <= Slope(g, x, z) <= Slope(g, x, y)
  {
    var first, second := Slope(g, x, y), Slope(g, y, z);
    Quotient(g(y) - g(x), (y - x) as real);
    Quotient(g(z) - g(y), (z - y) as real);
    Scale(second, first, (z - y) as real);
    Scale(second, first, (y - x) as real);
    SumOfParts(first, (y - x) as real, (z - y) as real);
    SumOfParts(second, (y - x) as real, (z - y) as real);
    assert (z - x) as real == (y - x) as real + (z - y) as real;
    QuotientBound(g(z) - g(x), (z - x) as real, first);
    QuotientBound(g(z) - g(x), (z - x) as real, second);
  }

  lemma SumOfParts(s: real, p: real, q: real)
    ensures s * (p + q) == s * p + s * q
  {
  }

  /** Slopes fall: a chord that starts and ends no later is no flatter. */
  lemma SlopesFall(g: Curve, lower: int, upper: int, a: int, b: int, c: int, d: int)
    requires Concave(g, lower, upper)
    requires lower <= a <= c && b <= d <= upper && a < b && c < d
    ensures Slope(g, c, d) <= Slope(g, a, b)
  {
    hide Gain;
    if b <= c {
      ChordBetweenGains(g, lower, upper, a, b);
      ChordBetweenGains(g, lower, upper, c, d);
      assert Gain(g, c) <= Gain(g, b - 1);
      QuotientBound(g(d) - g(c), (d - c) as real, Gain(g, c));
      QuotientBound(g(b) - g(a), (b - a) as real, Gain(g, b - 1));
    } else {
      if a < c {
        AdjacentSlopes(g, lower, upper, a, c, b);
        SplitSlope(g, a, c, b);
      }
      if b < d {
        AdjacentSlopes(g, lower, upper, c, b, d);
        SplitSlope(g, c, b, d);
      }
    }
  }

  // ---- Curves behind a simulator --------------------------------------------------

  /** The simulator fills exactly the sizes in `[lower, upper]`. */
  ghost predicate Accepts(sim: Sim, lower: int, upper: int) {
    1 <= lower <= upper <= U64_MAX && forall x: u64 :: sim(x).Some? <==> lower <= x <= upper
  }

  /** Its outputs follow the curve from at most `slack` atoms below: 0 for an exact curve,
      1 for one rounded down to atoms. */
  ghost predicate Follows(sim: Sim, g: Curve, slack: real) {
    0.0 <= slack <= 1.0 &&
    forall x: u64 :: sim(x).Some? ==> g(x) - slack <= sim(x).value as real <= g(x)
  }

  /** Every whole step gains at least an atom. */
  ghost predicate StepsGain(sim: Sim, h: int) {
    forall x: u64, y: u64 :: y == x + h && sim(x).Some? && sim(y).Some? ==> sim(x).value < sim(y).value
  }

  /** A curve as the contract wants it, seen through a simulator. */
  ghost predicate Sound(sim: Sim, g: Curve, slack: real, lower: int, upper: int, h: u64) {
    && h >= 1 && Accepts(sim, lower, upper) && Follows(sim, g, slack)
    && Concave(g, lower, upper) && StepsGain(sim, h)
  }

  /** Rounding a concave curve down to atoms, where it gains at least an atom a step, is a
      sound curve with a slack of one. */
  lemma FlooredCurveIsSound(sim: Sim, g: Curve, lower: int, upper: int, h: u64)
    requires h >= 1 && Accepts(sim, lower, upper) && Concave(g, lower, upper)
    requires forall x: u64 :: sim(x).Some? ==> sim(x).value == g(x).Floor
    requires forall x: int, y: int :: lower <= x && y == x + h && y <= upper ==> g(x) + 1.0 <= g(y)
    ensures Sound(sim, g, 1.0, lower, upper, h)
  {
    forall x: u64, y: u64 | y == x + h && sim(x).Some? && sim(y).Some? ensures sim(x).value < sim(y).value {
      assert g(x) + 1.0 <= g(y);
    }
  }

  /** The output difference over a step is within the slack of the curve's. */
  lemma DifferenceWithin(sim: Sim, g: Curve, slack: real, x: u64, y: u64)
    requires Follows(sim, g, slack) && sim(x).Some? && sim(y).Some?
    ensures g(y) - g(x) - slack <= (sim(y).value - sim(x).value) as real <= g(y) - g(x) + slack
  {
  }

  /** So its quotient over `n` is within `slack / n`. */
  lemma QuotientWithin(diff: real, exact: real, slack: real, n: real)
    requires n > 0.0 && exact - slack <= diff <= exact + slack
    ensures exact / n - slack / n <= diff / n <= exact / n + slack / n
  {
    QuotientOrder(exact - slack, diff, n);
    QuotientOrder(diff, exact + slack, n);
    QuotientSum(exact - slack, slack, n);
    QuotientSum(exact, slack, n);
  }

  /** Where a whole step fits ahead, the price is that step's slope, within the slack. */
  lemma ForwardPrice(sim: Sim, g: Curve, slack: real, lower: int, upper: int, h: u64, a: u64)
    requires Sound(sim, g, slack, lower, upper, h) && lower <= a && a + h <= upper
    ensures sim(a).Some? && a >= 1
    ensures Slope(g, a, a + h) - slack / h as real <= Price(sim, h, a) <= Slope(g, a, a + h) + slack / h as real
  {
    var ahead: u64 := a + h;
    assert sim(ahead).Some? && sim(a).value < sim(ahead).value;
    DifferenceWithin(sim, g, slack, a, ahead);
    QuotientWithin((sim(ahead).value - sim(a).value) as real, g(ahead) - g(a), slack, h as real);
  }

  /** Where it does not, and the step ahead is not cut short at the u64 maximum with
      something still to gain, the price is the slope of the step behind, within the slack. */
  lemma BackwardPrice(sim: Sim, g: Curve, slack: real, lower: int, upper: int, h: u64, a: u64)
    requires Sound(sim, g, slack, lower, upper, h) && lower + h <= a <= upper < a + h
    requires sim(a).Some? && !CutOff(sim, h, a)
    ensures Slope(g, a - h, a) - slack / h as real <= Price(sim, h, a) <= Slope(g, a - h, a) + slack / h as real
  {
    var behind: u64 := a - h;
    assert sim(behind).Some? && sim(behind).value < sim(a).value;
    DifferenceWithin(sim, g, slack, behind, a);
    QuotientWithin((sim(a).value - sim(behind).value) as real, g(a) - g(behind), slack, h as real);
  }

  /** The step ahead runs into the u64 maximum, which still fills for more. */
  predicate CutOff(sim: Sim, h: u64, a: u64)
    requires sim(a).Some?
  {
    a + h > U64_MAX && sim(U64_MAX).Some? && sim(U64_MAX).value > sim(a).value
  }

  /** Cut off at the u64 maximum, the gain is over fewer atoms than it is divided by. */
  lemma CutOffPrice(sim: Sim, g: Curve, slack: real, h: u64, a: u64)
    requires h >= 1 && a >= 1 && Follows(sim, g, slack) && sim(a).Some? && CutOff(sim, h, a)
    ensures (g(U64_MAX) - g(a)) / h as real - slack / h as real <= Price(sim, h, a) <= (g(U64_MAX) - g(a)) / h as real + slack / h as real
  {
    var last: u64 := U64_MAX;
    DifferenceWithin(sim, g, slack, a, last);
    QuotientWithin((sim(last).value - sim(a).value) as real, g(last) - g(a), slack, h as real);
  }

  /** What the price measures: the step ahead where it fits, the cut-off rest of it over a
      whole step at the u64 maximum, else the step behind. */
  ghost function Measured(sim: Sim, g: Curve, upper: int, h: u64, a: u64): real
    requires h >= 1 && sim(a).Some?
  {
    if a + h <= upper then Slope(g, a, a + h)
    else if CutOff(sim, h, a) then (g(U64_MAX) - g(a)) / h as real
    else Slope(g, a - h, a)
  }

  /** With room for two steps every price is within `slack / h` of what it measures; for
      `slack == 1` that is the rounding of the outputs to atoms. */
  lemma PriceIsStepSlope(sim: Sim, g: Curve, slack: real, lower: int, upper: int, h: u64, a: u64)
    requires Sound(sim, g, slack, lower, upper, h) && upper - lower >= 2 * h && lower <= a <= upper
    ensures sim(a).Some? && a >= 1
    ensures Measured(sim, g, upper, h, a) - slack / h as real <= Price(sim, h, a)
            <= Measured(sim, g, upper, h, a) + slack / h as real
  {
    if a + h <= upper {
      ForwardPrice(sim, g, slack, lower, upper, h, a);
    } else if CutOff(sim, h, a) {
      CutOffPrice(sim, g, slack, h, a);
    } else {
      BackwardPrice(sim, g, slack, lower, upper, h, a);
    }
  }

  /** Where no step fits on either side the price is the average rate. */
  lemma NarrowRangePrice(sim: Sim, lower: int, upper: int, h: u64, a: u64)
    requires h >= 1 && Accepts(sim, lower, upper) && upper < U64_MAX && lower <= a <= upper
    requires a - lower < h && upper - a < h
    ensures sim(a).Some? && a >= 1 && Price(sim, h, a) == sim(a).value as real / a as real
  {
  }

  // ---- The mean-value inequalities ------------------------------------------------

  /** At `b`, wherever the range ends, the price is at most the chord from any `a` a whole
      step or more below, within the slack.  At the u64 maximum the step ahead is cut
      short, which only lowers the price. */
  lemma PriceBelowChord(sim: Sim, g: Curve, slack: real, lower: int, upper: int, h: u64, a: u64, b: u64)
    requires Sound(sim, g, slack, lower, upper, h) && lower <= a && a + h <= b <= upper
    ensures sim(b).Some? && b >= 1 && Price(sim, h, b) <= Slope(g, a, b) + slack / h as real
  {
    if b + h <= upper {
      ForwardPrice(sim, g, slack, lower, upper, h, b);
      SlopesFall(g, lower, upper, a, b, b, b + h);
    } else if CutOff(sim, h, b) {
      CutShortPrice(sim, g, slack, lower, h, a, b);
    } else {
      BackwardPrice(sim, g, slack, lower, upper, h, b);
      SlopesFall(g, lower, upper, a, b, b - h, b);
    }
  }

  /** A gain measured over fewer atoms than it is divided by prices below its slope. */
  lemma CutShortPrice(sim: Sim, g: Curve, slack: real, lower: int, h: u64, a: u64, b: u64)
    requires Sound(sim, g, slack, lower, U64_MAX, h) && lower <= a < b && U64_MAX < b + h
    requires sim(b).Some? && sim(U64_MAX).Some? && sim(b).value < sim(U64_MAX).value
    ensures Price(sim, h, b) <= Slope(g, a, b) + slack / h as real
  {
    var last: u64 := U64_MAX;
    var diff := (sim(last).value - sim(b).value) as real;
    DifferenceWithin(sim, g, slack, b, last);
    AdjacentSlopes(g, lower, last, a, b, last);
    CutShort(diff, g(last) - g(b), slack, Slope(g, a, b), (last - b) as real, h as real);
  }

  lemma CutShort(diff: real, exact: real, slack: real, slope: real, rest: real, h: real)
    requires 0.0 < rest <= h && diff >= 1.0 && slack <= 1.0 && diff <= exact + slack
    requires exact / rest <= slope
    ensures diff / h <= slope + slack / h
  {
    QuotientBound(exact, rest, slope);
    FlatOrRising(slope, rest, diff, slack);
    Scale(rest, h, slope);
    QuotientBound(diff - slack, h, slope);
    QuotientSum(diff - slack, slack, h);
  }

  /** A whole atom gained rules a falling curve out. */
  lemma FlatOrRising(slope: real, rest: real, diff: real, slack: real)
    requires rest > 0.0 && diff >= 1.0 && slack <= 1.0 && diff - slack <= slope * rest
    ensures slope >= 0.0
  {
    if slope < 0.0 {
      Positive(-slope, rest);
    }
  }

  /** At `a` the price is at least the chord to any `b` a whole step or more above. */
  lemma PriceAboveChord(sim: Sim, g: Curve, slack: real, lower: int, upper: int, h: u64, a: u64, b: u64)
    requires Sound(sim, g, slack, lower, upper, h) && lower <= a && a + h <= b <= upper
    ensures sim(a).Some? && a >= 1 && Slope(g, a, b) - slack / h as real <= Price(sim, h, a)
  {
    ForwardPrice(sim, g, slack, lower, upper, h, a);
    SlopesFall(g, lower, upper, a, a + h, a, b);
  }

  /** The chord the router sees, in output atoms. */
  function QuotedChord(sim: Sim, a: u64, b: u64): real
    requires a < b && sim(a).Some? && sim(b).Some?
  {
    (sim(b).value - sim(a).value) as real / (b - a) as real
  }

  /** Rounded curves: the mean-value inequalities hold up to the rounding of the price's
      step and of the chord, `slack / h + slack / (b - a)`. */
  lemma MeanValueWithinRounding(sim: Sim, g: Curve, slack: real, lower: int, upper: int, h: u64, a: u64, b: u64)
    requires Sound(sim, g, slack, lower, upper, h) && lower <= a && a + h <= b <= upper
    ensures sim(a).Some? && sim(b).Some? && a >= 1
    ensures var tolerance := slack / h as real + slack / (b - a) as real;
            && Price(sim, h, b) <= QuotedChord(sim, a, b) + tolerance
            && QuotedChord(sim, a, b) <= Price(sim, h, a) + tolerance
  {
    PriceBelowChord(sim, g, slack, lower, upper, h, a, b);
    PriceAboveChord(sim, g, slack, lower, upper, h, a, b);
    DifferenceWithin(sim, g, slack, a, b);
    QuotientWithin((sim(b).value - sim(a).value) as real, g(b) - g(a), slack, (b - a) as real);
  }

  /** The simulator's own outputs, as a curve. */
  function Outputs(sim: Sim): Curve {
    (x: int) => if 0 <= x <= U64_MAX && sim(x).Some? then sim(x).value as real else 0.0
  }

  /** An exact concave curve: sound with respect to its own outputs. */
  ghost predicate ExactlyConcave(sim: Sim, lower: int, upper: int, h: u64) {
    Sound(sim, Outputs(sim), 0.0, lower, upper, h)
  }

  ghost predicate MeanValueHolds(sim: Sim, h: u64, a: u64, b: u64) {
    && 1 <= a < b && h >= 1 && sim(a).Some? && sim(b).Some?
    && Price(sim, h, b) <= QuotedChord(sim, a, b) <= Price(sim, h, a)
  }

  /** On exactly concave curves the contract's mean-value inequalities hold as written
      for amounts a whole step or more apart, up to the very ends of the range. */
  lemma MeanValue(sim: Sim, lower: int, upper: int, h: u64, a: u64, b: u64)
    requires ExactlyConcave(sim, lower, upper, h) && lower <= a && a + h <= b <= upper
    ensures MeanValueHolds(sim, h, a, b)
  {
    MeanValueWithinRounding(sim, Outputs(sim), 0.0, lower, upper, h, a, b);
    QuotientOrder(0.0, 0.0, h as real);
    QuotientBound(0.0, h as real, 0.0);
    QuotientBound(0.0, (b - a) as real, 0.0);
  }

  /** The curve that pays one for one up to `kink` and nothing beyond. */
  function Kinked(lower: int, upper: int, kink: u64): Sim {
    (x: u64) => if lower <= x <= upper then Some(Min(x, kink)) else None
  }

  lemma KinkedIsConcave(lower: int, upper: int, kink: u64, h: u64)
    requires 1 <= lower <= kink <= upper <= U64_MAX && h >= 1 && upper < kink + h
    ensures ExactlyConcave(Kinked(lower, upper, kink), lower, upper, h)
  {
    var sim := Kinked(lower, upper, kink);
    var g := Outputs(sim);
    forall x, y | lower <= x <= y < upper ensures Gain(g, y) <= Gain(g, x) {
      KinkedGain(lower, upper, kink, x);
      KinkedGain(lower, upper, kink, y);
    }
  }

  lemma KinkedGain(lower: int, upper: int, kink: u64, x: int)
    requires 1 <= lower <= kink <= upper <= U64_MAX && lower <= x < upper
    ensures Gain(Outputs(Kinked(lower, upper, kink)), x) == if x < kink then 1.0 else 0.0
  {
    var sim := Kinked(lower, upper, kink);
    var out: int, next: int := sim(x).value, sim(x + 1).value;
    assert Outputs(sim)(x) == out as real && Outputs(sim)(x + 1) == next as real;
    assert next - out == if x < kink then 1 else 0;
  }

  /** Exactly when the mean-value contract can be relied on whatever the range: the pair is
      a step apart or more.  Closer pairs are priced wrongly on some exactly concave curve. */
  lemma MeanValueOnAnyRangeIff(h: u64, a: u64, b: u64)
    requires 1 <= a < b && h >= 1
    ensures (forall sim: Sim, lower, upper ::
               ExactlyConcave(sim, lower, upper, h) && lower <= a && b <= upper ==> MeanValueHolds(sim, h, a, b))
            <==> a + h <= b
  {
    if a + h <= b {
      forall sim: Sim, lower, upper | ExactlyConcave(sim, lower, upper, h) && lower <= a && b <= upper
        ensures MeanValueHolds(sim, h, a, b)
      {
        MeanValue(sim, lower, upper, h, a, b);
      }
    } else {
      var upper := SatAdd(a, h);
      var sim := Kinked(a, upper, b);
      KinkedIsConcave(a, upper, b, h);
      CloserThanAStep(h, a, b);
      assert ExactlyConcave(sim, a, upper, h) && !MeanValueHolds(sim, h, a, b);
    }
  }

  /** Up to the kink the chord is one for one, but a step from `a` runs past the kink. */
  lemma CloserThanAStep(h: u64, a: u64, b: u64)
    requires 1 <= a < b < a + h && h >= 1
    ensures var sim := Kinked(a, SatAdd(a, h), b); !MeanValueHolds(sim, h, a, b)
  {
    var sim := Kinked(a, SatAdd(a, h), b);
    assert Price(sim, h, a) == (b - a) as real / h as real;
    QuotientBound((b - a) as real, h as real, 1.0);
    QuotientBound((b - a) as real, (b - a) as real, 1.0);
  }

  /** The range is so wide and `a` so high in it that a curve gaining two atoms up to `a`
      and one from there would not fit a u64; and the step from `a` ends where the curve must
      still gain.  Any curve then runs straight across that step. */
  predicate MustRunStraight(lower: int, upper: int, h: u64, a: u64) {
    upper - lower - h + (a - lower) + 3 > U64_MAX && a + 2 * h < upper + 2
  }

  /** On a given range: a pair can be relied on if it is a step apart or more, or its curve
      has no room to bend within the step; any other pair is priced wrongly on some curve. */
  lemma MeanValueReliableIff(lower: int, upper: int, h: u64, a: u64, b: u64)
    requires 1 <= lower && upper <= U64_MAX && h >= 1 && upper - lower >= 2 * h && lower <= a < b <= upper
    ensures (forall sim: Sim :: FillsSomething(sim) && ExactlyConcave(sim, lower, upper, h) ==> MeanValueHolds(sim, h, a, b))
            <==> a + h <= b || MustRunStraight(lower, upper, h, a)
  {
    if a + h <= b || MustRunStraight(lower, upper, h, a) {
      forall sim: Sim | FillsSomething(sim) && ExactlyConcave(sim, lower, upper, h)
        ensures MeanValueHolds(sim, h, a, b)
      {
        if a + h <= b {
          MeanValue(sim, lower, upper, h, a, b);
        } else {
          StraightMeanValue(sim, lower, upper, h, a, b);
        }
      }
    } else {
      var sim := CurveMissing(lower, upper, h, a, b);
      assert FillsSomething(sim) && ExactlyConcave(sim, lower, upper, h) && !MeanValueHolds(sim, h, a, b);
    }
  }

  lemma CurveMissing(lower: int, upper: int, h: u64, a: u64, b: u64) returns (sim: Sim)
    requires 1 <= lower && upper <= U64_MAX && upper - lower >= 2 * h && lower <= a < b <= upper
    requires b < a + h && !MustRunStraight(lower, upper, h, a)
    ensures FillsSomething(sim) && ExactlyConcave(sim, lower, upper, h) && !MeanValueHolds(sim, h, a, b)
  {
    hide ExactlyConcave;
    hide MeanValueHolds;
    var last: u64 := upper - h + 1;
    if a + 2 * h < upper + 2 {
      sim := Bent(lower, upper, a, last);
      BentIsConcave(lower, upper, a, h);
      BentMisses(lower, upper, a, b, h);
    } else {
      sim := Kinked(lower, upper, last);
      KinkedIsConcave(lower, upper, last, h);
      if a < last {
        KinkedAhead(lower, upper, last, a, b, h);
      } else {
        KinkedBehind(lower, upper, last, a, b, h);
      }
    }
  }

  /** Two atoms of output an atom up to and including `bend`, one up to `last`, none beyond. */
  function Bent(lower: int, upper: int, bend: u64, last: u64): Sim
    requires 1 <= lower <= bend < last <= upper && last - lower + bend - lower + 2 <= U64_MAX
  {
    (x: u64) => if lower <= x <= upper then Some(1 + (Min(x, last) - lower) + (Min(x, bend + 1) - lower)) else None
  }

  lemma BentIsConcave(lower: int, upper: int, bend: u64, h: u64)
    requires 1 <= lower <= bend && upper <= U64_MAX && h >= 1 && bend < upper - h + 1
    requires upper - lower - h + (bend - lower) + 3 <= U64_MAX
    ensures ExactlyConcave(Bent(lower, upper, bend, upper - h + 1), lower, upper, h)
  {
    var last: u64 := upper - h + 1;
    var sim := Bent(lower, upper, bend, last);
    var g := Outputs(sim);
    forall x, y | lower <= x <= y < upper ensures Gain(g, y) <= Gain(g, x) {
      BentGain(lower, upper, bend, last, x);
      BentGain(lower, upper, bend, last, y);
    }
  }

  lemma BentGain(lower: int, upper: int, bend: u64, last: u64, x: int)
    requires 1 <= lower <= bend < last <= upper <= U64_MAX && last - lower + bend - lower + 2 <= U64_MAX
    requires lower <= x < upper
    ensures Gain(Outputs(Bent(lower, upper, bend, last)), x) == if x <= bend then 2.0 else if x < last then 1.0 else 0.0
  {
    var sim := Bent(lower, upper, bend, last);
    BentAt(lower, upper, bend, last, x);
    BentAt(lower, upper, bend, last, x + 1);
  }

  lemma BentAt(lower: int, upper: int, bend: u64, last: u64, x: u64)
    requires 1 <= lower <= bend < last <= upper <= U64_MAX && last - lower + bend - lower + 2 <= U64_MAX
    requires lower <= x <= upper
    ensures Outputs(Bent(lower, upper, bend, last))(x) ==
            if x <= bend then (1 + 2 * (x - lower)) as real
            else if x <= last then (2 + (x - lower) + (bend - lower)) as real
            else (2 + (last - lower) + (bend - lower)) as real
  {
  }

  /** The chord from the bend starts with the last two-atom gain; the step averages it away. */
  lemma BentMisses(lower: int, upper: int, a: u64, b: u64, h: u64)
    requires 1 <= lower <= a < b <= upper <= U64_MAX && b < a + h && a + 2 * h < upper + 2
    requires upper - lower - h + (a - lower) + 3 <= U64_MAX
    ensures !MeanValueHolds(Bent(lower, upper, a, upper - h + 1), h, a, b)
  {
    var sim := Bent(lower, upper, a, upper - h + 1);
    var here: int, there: int, ahead: int := sim(a).value, sim(b).value, sim(a + h).value;
    assert there - here == b - a + 1 && ahead - here == h + 1;
    assert Price(sim, h, a) == (h + 1) as real / h as real;
    assert QuotedChord(sim, a, b) == (b - a + 1) as real / (b - a) as real;
    QuotientSum(h as real, 1.0, h as real);
    QuotientSum((b - a) as real, 1.0, (b - a) as real);
    OneOver((b - a) as real, h as real);
  }

  lemma OneOver(m: real, n: real)
    requires 0.0 < m < n
    ensures m / m == 1.0 && n / n == 1.0 && 1.0 / n < 1.0 / m
  {
  }

  /** Where the step from `a` runs past the kink, its own price averages over the flat part. */
  lemma KinkedAhead(lower: int, upper: int, last: u64, a: u64, b: u64, h: u64)
    requires 1 <= lower <= a < last < a + h <= upper <= U64_MAX && a < b < a + h
    ensures !MeanValueHolds(Kinked(lower, upper, last), h, a, b)
  {
    var sim := Kinked(lower, upper, last);
    var gained := (last - a) as real;
    assert Price(sim, h, a) == gained / h as real;
    if b <= last {
      QuotientBound((b - a) as real, (b - a) as real, 1.0);
      QuotientBound(gained, h as real, 1.0);
    } else {
      assert QuotedChord(sim, a, b) == gained / (b - a) as real;
      Divided(gained, (b - a) as real, h as real);
    }
  }

  /** On the flat part the chord is flat, but `b` is priced on the step behind. */
  lemma KinkedBehind(lower: int, upper: int, last: u64, a: u64, b: u64, h: u64)
    requires 1 <= lower < last <= a < b <= upper <= U64_MAX && upper < last + h && lower + h <= b < last + h
    ensures !MeanValueHolds(Kinked(lower, upper, last), h, a, b)
  {
    var sim := Kinked(lower, upper, last);
    assert QuotedChord(sim, a, b) == 0.0 / (b - a) as real;
    NoSlack((b - a) as real);
    assert Price(sim, h, b) == (last - (b - h)) as real / h as real;
    QuotientBound((last - (b - h)) as real, h as real, 0.0);
  }

  lemma Divided(x: real, m: real, n: real)
    requires x > 0.0 && 0.0 < m < n
    ensures x / n < x / m
  {
    Quotient(x, m);
    ScaleStrict(m, n, x / m);
    QuotientBound(x, n, x / m);
  }

  lemma WholeGain(sim: Sim, lower: int, upper: int, x: u64)
    requires Accepts(sim, lower, upper) && lower <= x < upper
    ensures sim(x).Some? && sim(x + 1).Some?
    ensures Gain(Outputs(sim), x) == (sim(x + 1).value - sim(x).value) as real
  {
  }

  /** A whole step below the end the curve still gains an atom. */
  lemma StillGains(sim: Sim, lower: int, upper: int, h: u64)
    requires ExactlyConcave(sim, lower, upper, h) && upper - lower >= h
    ensures Gain(Outputs(sim), upper - h) >= 1.0
  {
    hide Gain;
    hide Outputs;
    hide Concave;
    hide Follows;
    var g := Outputs(sim);
    var from: u64, to: u64 := upper - h, upper;
    ChordBetweenGains(g, lower, upper, from, to);
    assert sim(from).value < sim(to).value;
    OutputsAt(sim, lower, upper, from);
    OutputsAt(sim, lower, upper, to);
    WholeGain(sim, lower, upper, from);
    Rises(Gain(g, from), (to - from) as real);
  }

  lemma Rises(gain: real, n: real)
    requires n > 0.0 && gain * n > 0.0
    ensures gain > 0.0
  {
    if gain <= 0.0 {
      Scale(gain, 0.0, n);
    }
  }

  lemma WholeSum(m: int, n: int)
    ensures (2 * m + n) as real == 2.0 * (m as real) + 1.0 * (n as real)
  {
  }

  /** Two atoms an atom through `bend` and one through `last` add up. */
  lemma BendRises(g: Curve, lower: int, upper: int, bend: int, last: int)
    requires Concave(g, lower, upper) && lower <= bend < last < upper
    requires Gain(g, bend) >= 2.0 && Gain(g, last) >= 1.0
    ensures g(last + 1) >= g(lower) + (2 * (bend + 1 - lower) + (last - bend)) as real
  {
    hide Gain;
    hide Concave;
    var two, one := (bend + 1 - lower) as real, (last - bend) as real;
    ChordBetweenGains(g, lower, upper, lower, bend + 1);
    ChordBetweenGains(g, lower, upper, bend + 1, last + 1);
    assert last + 1 - (bend + 1) == last - bend;
    assert Gain(g, bend) * two <= g(bend + 1) - g(lower);
    assert Gain(g, last) * one <= g(last + 1) - g(bend + 1);
    Scale(2.0, Gain(g, bend), two);
    Scale(1.0, Gain(g, last), one);
    assert g(bend + 1) - g(lower) >= 2.0 * two;
    assert g(last + 1) - g(bend + 1) >= 1.0 * one;
    WholeSum(bend + 1 - lower, last - bend);
  }

  lemma NoRoomToBend(sim: Sim, lower: int, upper: int, h: u64, a: u64)
    requires FillsSomething(sim) && ExactlyConcave(sim, lower, upper, h) && h >= 2
    requires lower <= a && MustRunStraight(lower, upper, h, a)
    ensures Gain(Outputs(sim), a) == Gain(Outputs(sim), a + h - 1)
  {
    hide Gain;
    hide Follows;
    hide StepsGain;
    hide Outputs;
    var g := Outputs(sim);
    var last: u64 := upper - h;
    assert Concave(g, lower, upper);
    StillGains(sim, lower, upper, h);
    WholeGain(sim, lower, upper, a);
    WholeGain(sim, lower, upper, a + h - 1);
    assert Gain(g, a) >= Gain(g, a + h - 1) >= Gain(g, last);
    if Gain(g, a) > Gain(g, a + h - 1) {
      BendRises(g, lower, upper, a, last);
      OutputsAt(sim, lower, upper, lower);
      OutputsAt(sim, lower, upper, last + 1);
      assert false;
    }
  }

  lemma OutputsAt(sim: Sim, lower: int, upper: int, x: u64)
    requires Accepts(sim, lower, upper) && lower <= x <= upper
    ensures sim(x).Some? && Outputs(sim)(x) == sim(x).value as real
  {
  }

  /** Where the gains at both ends of a stretch agree, every chord from its start has that slope. */
  lemma StraightSlope(g: Curve, lower: int, upper: int, x: int, y: int, z: int)
    requires Concave(g, lower, upper) && lower <= x < y <= z <= upper && Gain(g, x) == Gain(g, z - 1)
    ensures Slope(g, x, y) == Gain(g, x)
  {
    ChordBetweenGains(g, lower, upper, x, y);
    assert Gain(g, z - 1) <= Gain(g, y - 1) <= Gain(g, x);
    QuotientBound(g(y) - g(x), (y - x) as real, Gain(g, x));
  }

  lemma StraightMeanValue(sim: Sim, lower: int, upper: int, h: u64, a: u64, b: u64)
    requires FillsSomething(sim) && ExactlyConcave(sim, lower, upper, h)
    requires lower <= a < b < a + h && MustRunStraight(lower, upper, h, a)
    ensures MeanValueHolds(sim, h, a, b)
  {
    hide Price;
    hide Gain;
    hide StepsGain;
    hide FillsSomething;
    var g := Outputs(sim);
    NoRoomToBend(sim, lower, upper, h, a);
    StraightSlope(g, lower, upper, a, b, a + h);
    StraightSlope(g, lower, upper, a, a + h, a + h);
    NoSlack(h as real);
    ForwardPrice(sim, g, 0.0, lower, upper, h, a);
    ForwardPrice(sim, g, 0.0, lower, upper, h, b);
    SlopesFall(g, lower, upper, a, b, b, b + h);
    assert QuotedChord(sim, a, b) == Slope(g, a, b);
  }

  // ---- Prices that fall with size -------------------------------------------------

  lemma NoSlack(n: real)
    requires n > 0.0
    ensures 0.0 / n == 0.0
  {
  }

  /** When two sizes are priced in comparable ways: both a step inside the range, a step
      apart, or both within a step of an end that is not the u64 maximum. */
  predicate Comparable(upper: int, h: u64, x: u64, y: u64) {
    y + h <= upper || x + h <= y || (upper < U64_MAX && x + h > upper)
  }

  /** Comparable sizes on a rounded curve: the larger is priced higher by the rounding of
      the two steps at most. */
  lemma PriceFallsWithinRounding(sim: Sim, g: Curve, slack: real, lower: int, upper: int, h: u64, x: u64, y: u64)
    requires Sound(sim, g, slack, lower, upper, h) && upper - lower >= 2 * h
    requires lower <= x < y <= upper && Comparable(upper, h, x, y)
    ensures sim(x).Some? && sim(y).Some? && x >= 1 && Price(sim, h, y) <= Price(sim, h, x) + 2.0 * (slack / h as real)
  {
    hide Price;
    hide Slope;
    hide Concave;
    hide Follows;
    hide StepsGain;
    if y + h <= upper {
      ForwardPrice(sim, g, slack, lower, upper, h, x);
      ForwardPrice(sim, g, slack, lower, upper, h, y);
      SlopesFall(g, lower, upper, x, x + h, y, y + h);
    } else if x + h <= y {
      PriceBelowChord(sim, g, slack, lower, upper, h, x, y);
      PriceAboveChord(sim, g, slack, lower, upper, h, x, y);
    } else {
      assert sim(x).Some? && sim(y).Some? && sim(U64_MAX).None?;
      BackwardPrice(sim, g, slack, lower, upper, h, x);
      BackwardPrice(sim, g, slack, lower, upper, h, y);
      SlopesFall(g, lower, upper, x - h, x, y - h, y);
    }
  }

  /** Comparable sizes on an exact curve: the larger is priced no higher. */
  lemma PriceFalls(sim: Sim, lower: int, upper: int, h: u64, x: u64, y: u64)
    requires ExactlyConcave(sim, lower, upper, h) && upper - lower >= 2 * h
    requires lower <= x < y <= upper && Comparable(upper, h, x, y)
    ensures sim(x).Some? && sim(y).Some? && x >= 1 && Price(sim, h, y) <= Price(sim, h, x)
  {
    hide Price;
    hide Concave;
    hide Follows;
    PriceFallsWithinRounding(sim, Outputs(sim), 0.0, lower, upper, h, x, y);
    NoSlack(h as real);
  }

  /** Exactly which pairs of sizes the price is sure not to rise between.  It can rise
      where it switches from the step ahead to the step behind: the later size then looks
      at gains the earlier one does not. */
  lemma PriceReliablyFallsIff(lower: int, upper: int, h: u64, x: u64, y: u64)
    requires 1 <= lower && upper <= U64_MAX && h >= 1 && upper - lower >= 2 * h && lower <= x < y <= upper
    ensures (forall sim: Sim :: ExactlyConcave(sim, lower, upper, h) ==>
               sim(x).Some? && sim(y).Some? && Price(sim, h, y) <= Price(sim, h, x))
            <==> Comparable(upper, h, x, y)
  {
    if Comparable(upper, h, x, y) {
      forall sim: Sim | ExactlyConcave(sim, lower, upper, h)
        ensures sim(x).Some? && sim(y).Some? && Price(sim, h, y) <= Price(sim, h, x)
      {
        PriceFalls(sim, lower, upper, h, x, y);
      }
    } else {
      KinkedIsConcave(lower, upper, y, h);
      PriceRisesAtKink(lower, upper, h, x, y);
      assert ExactlyConcave(Kinked(lower, upper, y), lower, upper, h);
    }
  }

  lemma PriceRisesAtKink(lower: int, upper: int, h: u64, x: u64, y: u64)
    requires 1 <= lower && upper <= U64_MAX && h >= 1 && upper - lower >= 2 * h && lower <= x < y <= upper
    requires !Comparable(upper, h, x, y)
    ensures var sim := Kinked(lower, upper, y);
            sim(x).Some? && sim(y).Some? && Price(sim, h, x) < Price(sim, h, y)
  {
    var sim := Kinked(lower, upper, y);
    assert Price(sim, h, x) == (y - x) as real / h as real;
    assert Price(sim, h, y) == (y - (y - h)) as real / h as real;
    QuotientOrder((y - x) as real, h as real, h as real);
  }

  // ---- The spot rate --------------------------------------------------------------

  /** The price reported for a zero amount: one probe, or 0.0 if it is refused. */
  function SpotPrice(sim: Sim, probe: u64): real
    requires FillsSomething(sim)
  {
    if sim(probe).Some? then sim(probe).value as real / probe as real else 0.0
  }

  /** The spot rate is a price at all just where the curve fills the probe. */
  lemma SpotIsPositiveIff(sim: Sim, probe: u64)
    requires FillsSomething(sim)
    ensures SpotPrice(sim, probe) >= 0.0
    ensures SpotPrice(sim, probe) > 0.0 <==> sim(probe).Some?
  {
    if sim(probe).Some? {
      QuotientBound(sim(probe).value as real, probe as real, 0.0);
    }
  }

  /** A curve the market maker sized the probe for, concave from a zero output for nothing. */
  ghost predicate SoundFromZero(sim: Sim, g: Curve, slack: real, lower: int, upper: int, probe: u64) {
    && FillsSomething(sim) && Sound(sim, g, slack, lower, upper, Step(probe)) && upper - lower >= 2 * Step(probe)
    && Concave(g, 0, upper) && g(0) == 0.0
  }

  /** Where the probe fills, the spot rate tops every marginal price, and every average rate a
      step or more out, up to rounding. */
  lemma SpotPriceTops(sim: Sim, g: Curve, slack: real, lower: int, upper: int, probe: u64, a: u64)
    requires SoundFromZero(sim, g, slack, lower, upper, probe) && sim(probe).Some? && lower <= a <= upper
    ensures probe >= 1 && sim(a).Some? && a >= 1
    ensures Price(sim, probe, a) <= SpotPrice(sim, probe) + 2.0 * (slack / probe as real)
    ensures probe <= a ==> sim(a).value as real / a as real <= SpotPrice(sim, probe) + slack / probe as real
  {
    hide Price;
    hide Concave;
    hide StepsGain;
    var h := probe;
    assert sim(a).Some? && h >= 1 && Step(probe) == h;
    QuotientWithin(sim(h).value as real, g(h), slack, h as real);
    assert Slope(g, 0, h) <= SpotPrice(sim, h) + slack / h as real;
    if a + h <= upper {
      ForwardPrice(sim, g, slack, lower, upper, h, a);
      SlopesFall(g, 0, upper, 0, h, a, a + h);
    } else {
      PriceBelowChord(sim, g, slack, lower, upper, h, a - h, a);
      SlopesFall(g, 0, upper, 0, h, a - h, a);
    }
    if h <= a {
      SlopesFall(g, 0, upper, 0, h, 0, a);
      QuotientOrder(sim(a).value as real, g(a), a as real);
    }
  }

  ghost predicate SpotTopsAll(sim: Sim, lower: int, upper: int, probe: u64)
    requires FillsSomething(sim)
  {
    forall a: u64 :: lower <= a <= upper ==> sim(a).Some? && a >= 1 && Price(sim, Step(probe), a) <= SpotPrice(sim, probe)
  }

  /** The spot rate heads the falling prices the contract asks for if and only if the probe is
      in the range; a probe of 0, or below the range, is reported as 0.0 under positive prices. */
  lemma SpotTopsIff(sim: Sim, g: Curve, lower: int, upper: int, probe: u64)
    requires SoundFromZero(sim, g, 0.0, lower, upper, probe)
    ensures SpotTopsAll(sim, lower, upper, probe) <==> lower <= probe <= upper
  {
    hide Price;
    hide SpotPrice;
    assert sim(probe).Some? <==> lower <= probe <= upper;
    if lower <= probe <= upper {
      forall a: u64 | lower <= a <= upper
        ensures sim(a).Some? && a >= 1 && Price(sim, Step(probe), a) <= SpotPrice(sim, probe)
      {
        SpotPriceTops(sim, g, 0.0, lower, upper, probe, a);
        NoSlack(probe as real);
      }
    } else {
      var a: u64 := lower;
      SpotIsPositiveIff(sim, probe);
      PriceIsPositive(sim, Step(probe), a);
    }
  }

  /** A probe of 0 on the curve that pays one for one: the spot rate is 0.0, every price 1.0. */
  lemma ZeroProbeFails(upper: u64)
    requires 3 <= upper < U64_MAX
    ensures var sim := Kinked(1, upper, upper);
            && SoundFromZero(sim, Outputs(sim), 0.0, 1, upper, 0)
            && SpotPrice(sim, 0) == 0.0
            && forall a: u64 :: 1 <= a <= upper ==> sim(a).Some? && Price(sim, 1, a) == 1.0
  {
    hide Gain;
    hide Price;
    hide StepsGain;
    hide Follows;
    var sim := Kinked(1, upper, upper);
    var g := Outputs(sim);
    KinkedIsConcave(1, upper, upper, 1);
    forall x, y | 0 <= x <= y < upper ensures Gain(g, y) <= Gain(g, x) {
      OneToOneGain(upper, x);
      OneToOneGain(upper, y);
    }
    forall a: u64 | 1 <= a <= upper ensures sim(a).Some? && Price(sim, 1, a) == 1.0 {
      OneToOnePrice(upper, a);
    }
  }

  lemma OneToOneGain(upper: u64, x: int)
    requires 0 <= x < upper
    ensures Gain(Outputs(Kinked(1, upper, upper)), x) == 1.0
  {
    if x > 0 {
      KinkedGain(1, upper, upper, x);
    }
  }

  lemma OneToOnePrice(upper: u64, a: u64)
    requires 1 <= a <= upper < U64_MAX
    ensures Kinked(1, upper, upper)(a).Some? && Price(Kinked(1, upper, upper), 1, a) == 1.0
  {
    QuotientBound(1.0, 1.0, 1.0);
    QuotientBound(a as real, a as real, 1.0);
  }
}
