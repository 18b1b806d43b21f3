/** Boundary search over a black-box quote function (src/trading_venue/bounds.rs).

    Each search loop is a method over the loop's own variables, proved equal to a
    recursive specification; `BoundsProofs` proves what the specification delivers.
    A ghost out-parameter records the amounts probed, in order. */
module Bounds {
  import opened Base
  import opened TradingVenue

  type QuoteFn = u64 -> Result<QuoteResult, VenueError>

  predicate ValidQuote(quote: QuoteResult) {
    !(quote.notEnoughLiquidity || quote.expectedOutput == 0)
  }

  /** The search treats an error as an invalid quote. */
  predicate ValidAt(f: QuoteFn, x: int) {
    0 <= x <= U64_MAX && f(x).Ok? && ValidQuote(f(x).value)
  }

  /** The least `j` in `[k, 63]` with `2^j` valid, or 64. */
  function FirstValid(f: QuoteFn, k: nat): (j: nat)
    requires k <= 64
    ensures k <= j <= 64
    ensures j < 64 ==> ValidAt(f, Pow2(j))
    ensures forall i: nat :: k <= i < j ==> !ValidAt(f, Pow2(i))
    decreases 64 - k
  {
    if k == 64 || ValidAt(f, Pow2(k)) then k else FirstValid(f, k + 1)
  }

  /** The least `j` in `[k, 63]` with `2^j` invalid, or 64. */
  function FirstInvalid(f: QuoteFn, k: nat): (j: nat)
    requires k <= 64
    ensures k <= j <= 64
    ensures j < 64 ==> !ValidAt(f, Pow2(j))
    ensures forall i: nat :: k <= i < j ==> ValidAt(f, Pow2(i))
    decreases 64 - k
  {
    if k == 64 || !ValidAt(f, Pow2(k)) then k else FirstInvalid(f, k + 1)
  }

  /** `2^k` as a u64, saturated at the u64 maximum from `2^64` on. */
  function SatPow2(k: nat): (p: u64)
    ensures p == if k <= 63 then Pow2(k) else U64_MAX
  {
    if k >= 64 then U64_MAX
    else
      Pow2Values();
      assert Pow2(k) <= Pow2(63) by { if k < 63 { Pow2Monotone(k, 63); } }
      Pow2(k)
  }

  lemma SatPow2Zero()
    ensures SatPow2(0) == 1
  {
  }

  lemma SatDoubleOfPow2(k: nat)
    requires k <= 63
    ensures SatDouble(SatPow2(k)) == SatPow2(k + 1) > SatPow2(k)
    ensures SatPow2(k + 1) == U64_MAX <==> k == 63
  {
    Pow2Values();
    if k < 62 {
      Pow2Monotone(k + 1, 63);
    }
  }

  /** Where the lower phase stops: below and at the first valid power of two. */
  function LowerBracket(f: QuoteFn): (u64, u64) {
    var k := FirstValid(f, 0);
    (if k == 0 then 0 else SatPow2(k - 1), SatPow2(k))
  }

  /** Where the upper phase stops, started from the valid power `2^k`.  Only from
      `2^63` itself is the u64 maximum probed; otherwise saturation ends the phase. */
  function UpperBracket(f: QuoteFn, k: nat): (u64, u64)
    requires k <= 64
  {
    if k == 64 || (k == 63 && ValidAt(f, U64_MAX)) then (U64_MAX, U64_MAX)
    else if k == 63 then (SatPow2(k), U64_MAX)
    else
      var j := FirstInvalid(f, k + 1);
      (SatPow2(j - 1), SatPow2(j))
  }

  lemma FirstValidStep(f: QuoteFn, k: nat)
    requires k <= 63
    ensures FirstValid(f, k) == if ValidAt(f, Pow2(k)) then k else FirstValid(f, k + 1)
    ensures FirstValid(f, 64) == 64
  {
  }

  method FindLowerBracket(f: QuoteFn) returns (lowerLow: u64, lowerHigh: u64, ghost probes: seq<u64>)
    ensures (lowerLow, lowerHigh) == LowerBracket(f)
    ensures |probes| == Min(FirstValid(f, 0) + 1, 64)
  {
    hide Pow2;
    hide SatPow2;
    hide FirstValid;
    SatPow2Zero();
    lowerLow, lowerHigh, probes := 0, 1, [];
    ghost var k := 0;
    while true
      invariant k <= 63 && lowerHigh == SatPow2(k)
      invariant lowerLow == if k == 0 then 0 else SatPow2(k - 1)
      invariant FirstValid(f, 0) == FirstValid(f, k)
      invariant |probes| == k
      decreases 63 - k
    {
      FirstValidStep(f, k);
      probes := probes + [lowerHigh];
      var quote := f(lowerHigh);
      if quote.Ok? && ValidQuote(quote.value) {
        break;
      }
      SatDoubleOfPow2(k);
      lowerLow := lowerHigh;
      lowerHigh := SatDouble(lowerHigh);
      k := k + 1;
      if lowerHigh <= lowerLow || lowerHigh == U64_MAX {
        lowerHigh := U64_MAX;
        break;
      }
    }
    assert k == FirstValid(f, 0);
  }

  method FindUpperBracket(f: QuoteFn, lowerHigh: u64, ghost k: nat)
    returns (upperLow: u64, upperHigh: u64, ghost probes: seq<u64>)
    requires k <= 64 && lowerHigh == SatPow2(k)
    ensures (upperLow, upperHigh) == UpperBracket(f, k)
    ensures |probes| <= if k == 63 then 1 else 64 - Min(k + 1, 64)
  {
    hide Pow2;
    upperLow, upperHigh, probes := lowerHigh, SatDouble(lowerHigh), [];
    if upperHigh <= upperLow {
      upperHigh := upperLow;
      if k < 64 { SatDoubleOfPow2(k); }
      return;
    }
    SatDoubleOfPow2(k);
    ghost var j := k + 1;
    while true
      invariant k < j <= 64 && upperHigh == SatPow2(j) && upperLow == SatPow2(j - 1)
      invariant j == 64 ==> k == 63
      invariant k < 63 ==> FirstInvalid(f, k + 1) == FirstInvalid(f, j)
      invariant |probes| == j - k - 1
      decreases 64 - j
    {
      probes := probes + [upperHigh];
      var quote := f(upperHigh);
      if quote.Err? || !ValidQuote(quote.value) {
        return;
      }
      upperLow := upperHigh;
      upperHigh := SatDouble(upperHigh);
      if j < 64 { SatDoubleOfPow2(j); }
      j := j + 1;
      if upperHigh <= upperLow || upperHigh == U64_MAX {
        upperHigh := U64_MAX;
        return;
      }
    }
  }

  /** At most 65 probes whatever the venue answers. */
  method FindBoundariesCoarse(f: QuoteFn)
    returns (lowerLow: u64, lowerHigh: u64, upperLow: u64, upperHigh: u64, ghost probes: seq<u64>)
    ensures (lowerLow, lowerHigh) == LowerBracket(f)
    ensures (upperLow, upperHigh) == UpperBracket(f, FirstValid(f, 0))
    ensures |probes| <= 65
  {
    ghost var lowerProbes, upperProbes;
    lowerLow, lowerHigh, lowerProbes := FindLowerBracket(f);
    upperLow, upperHigh, upperProbes := FindUpperBracket(f, lowerHigh, FirstValid(f, 0));
    probes := lowerProbes + upperProbes;
  }

  /** Halfway between, as `high / 2 + low / 2`: never overflows, may fall one short. */
  function Mid(low: u64, high: u64): (mid: u64)
    requires low + 100 < high
    ensures low < mid < high
  {
    high / 2 + low / 2
  }

  /** The value the lower bisection ends on. */
  function LowerEdge(f: QuoteFn, low: u64, high: u64): (edge: u64)
    requires low <= high
    ensures low <= edge <= high
    decreases high - low
  {
    if high - low <= 100 then high
    else
      var mid := Mid(low, high);
      if ValidAt(f, mid) then LowerEdge(f, low, mid) else LowerEdge(f, mid, high)
  }

  /** The value the upper bisection ends on. */
  function UpperEdge(f: QuoteFn, low: u64, high: u64): (edge: u64)
    requires low <= high
    ensures low <= edge <= high
    decreases high - low
  {
    if high - low <= 100 then low
    else
      var mid := Mid(low, high);
      if ValidAt(f, mid) then UpperEdge(f, mid, high) else UpperEdge(f, low, mid)
  }

  /** The interval's width is a power of two give or take one. */
  predicate Near(low: int, high: int, m: nat) {
    Pow2(m) - 1 <= high - low <= Pow2(m) + 1
  }

  /** Widths near `2^m` are above 100 exactly from `m = 7` on. */
  lemma NearStops(low: int, high: int, m: nat)
    requires Near(low, high, m)
    ensures if m <= 6 then high - low <= 65 else high - low > 100
  {
    Pow2Values();
    if m < 6 {
      Pow2Monotone(m, 6);
    } else if m > 7 {
      Pow2Monotone(7, m);
    }
  }

  /** Two sanity probes, then `m - 6` halvings from a width near `2^m`: the ghost
      parameter is that width's exponent where it has one. */
  method RefineLower(f: QuoteFn, low0: u64, high0: u64, ghost exponent: Option<nat>)
    returns (edge: u64, ghost probes: seq<u64>)
    requires low0 <= high0
    requires exponent.Some? ==> Near(low0, high0, exponent.value)
    ensures edge == LowerEdge(f, low0, high0)
    ensures exponent.Some? ==> |probes| == 2 + Max(exponent.value - 6, 0)
  {
    var low, high := low0, high0;
    probes := [low, high];
    ghost var left: nat := if exponent.Some? then exponent.value else 0;
    while high - low > 100
      invariant low0 <= low <= high <= high0
      invariant LowerEdge(f, low, high) == LowerEdge(f, low0, high0)
      invariant exponent.Some? ==> Near(low, high, left)
      invariant exponent.Some? ==> |probes| + Max(left - 6, 0) == 2 + Max(exponent.value - 6, 0)
      decreases high - low
    {
      if exponent.Some? {
        NearStops(low, high, left);
        left := left - 1;
      }
      var mid: u64 := Mid(low, high);
      probes := probes + [mid];
      var quote := f(mid);
      if quote.Ok? && ValidQuote(quote.value) {
        high := mid;
      } else {
        low := mid;
      }
    }
    if exponent.Some? {
      NearStops(low, high, left);
    }
    edge := high;
  }

  method RefineUpper(f: QuoteFn, low0: u64, high0: u64, ghost exponent: Option<nat>)
    returns (edge: u64, ghost probes: seq<u64>)
    requires low0 <= high0
    requires exponent.Some? ==> Near(low0, high0, exponent.value)
    ensures edge == UpperEdge(f, low0, high0)
    ensures exponent.Some? ==> |probes| == 2 + Max(exponent.value - 6, 0)
  {
    var low, high := low0, high0;
    probes := [low, high];
    ghost var left: nat := if exponent.Some? then exponent.value else 0;
    while high - low > 100
      invariant low0 <= low <= high <= high0
      invariant UpperEdge(f, low, high) == UpperEdge(f, low0, high0)
      invariant exponent.Some? ==> Near(low, high, left)
      invariant exponent.Some? ==> |probes| + Max(left - 6, 0) == 2 + Max(exponent.value - 6, 0)
      decreases high - low
    {
      if exponent.Some? {
        NearStops(low, high, left);
        left := left - 1;
      }
      var mid: u64 := Mid(low, high);
      probes := probes + [mid];
      var quote := f(mid);
      if quote.Ok? && ValidQuote(quote.value) {
        low := mid;
      } else {
        high := mid;
      }
    }
    if exponent.Some? {
      NearStops(low, high, left);
    }
    edge := low;
  }

  /** The whole search, as a function of the venue's answers. */
  function Boundaries(f: QuoteFn): Result<(u64, u64), VenueError> {
    var (lowerLow, lowerHigh) := LowerBracket(f);
    var (upperLow, upperHigh) := UpperBracket(f, FirstValid(f, 0));
    BracketsOrdered(f);
    if lowerLow == upperHigh then Err(BoundarySearchFailed)
    else if lowerHigh == U64_MAX then Err(NoQuotableValue)
    else Ok((LowerEdge(f, lowerLow, lowerHigh), UpperEdge(f, upperLow, upperHigh)))
  }

  function LowerExponent(f: QuoteFn): (m: nat)
    ensures m <= 63
  {
    if FirstValid(f, 0) == 0 then 0 else FirstValid(f, 0) - 1
  }

  lemma LowerBracketFacts(f: QuoteFn)
    ensures var (low, high) := LowerBracket(f);
            low < high && Near(low, high, LowerExponent(f))
  {
    var k := FirstValid(f, 0);
    if k == 0 {
    } else if k <= 63 {
      SatDoubleOfPow2(k - 1);
    } else {
      SatDoubleOfPow2(k - 1);
      Pow2Values();
    }
  }

  function UpperExponent(f: QuoteFn, k: nat): (m: nat)
    requires k <= 64
    ensures m <= 63
  {
    if k < 63 then FirstInvalid(f, k + 1) - 1
    else if k == 63 && !ValidAt(f, U64_MAX) then 63
    else 0
  }

  lemma UpperBracketFacts(f: QuoteFn, k: nat)
    requires k <= 64
    ensures var (low, high) := UpperBracket(f, k);
            SatPow2(k) <= low <= high && Near(low, high, UpperExponent(f, k))
  {
    if k < 63 {
      var j := FirstInvalid(f, k + 1);
      SatDoubleOfPow2(j - 1);
      if k < j - 1 {
        Pow2Monotone(k, j - 1);
      }
      if j == 64 {
        Pow2Values();
      }
    } else if k == 63 {
      Pow2Values();
    }
  }

  /** The brackets come in order, so no subtraction in the search can underflow. */
  lemma BracketsOrdered(f: QuoteFn)
    ensures var (lowerLow, lowerHigh) := LowerBracket(f);
            var (upperLow, upperHigh) := UpperBracket(f, FirstValid(f, 0));
            lowerLow < lowerHigh <= upperLow <= upperHigh
  {
    LowerBracketFacts(f);
    UpperBracketFacts(f, FirstValid(f, 0));
  }

  /** Every search ends within 65 + 2 * 59 quotes, and only ever probes amounts it can quote. */
  method FindBoundaries(f: QuoteFn) returns (r: Result<(u64, u64), VenueError>, ghost probes: seq<u64>)
    ensures r == Boundaries(f)
    ensures |probes| <= 65 + 59 + 59
  {
    hide LowerEdge;
    hide UpperEdge;
    hide FirstInvalid;
    hide Pow2;
    var lowerLow, lowerHigh, upperLow, upperHigh;
    lowerLow, lowerHigh, upperLow, upperHigh, probes := FindBoundariesCoarse(f);
    ghost var k := FirstValid(f, 0);
    LowerBracketFacts(f);
    UpperBracketFacts(f, k);
    assert lowerLow < lowerHigh <= upperLow <= upperHigh;
    if lowerLow == upperHigh {
      return Err(BoundarySearchFailed), probes;
    }
    if lowerHigh == U64_MAX {
      return Err(NoQuotableValue), probes;
    }
    ghost var lowerProbes, upperProbes;
    var lower, upper;
    lower, lowerProbes := RefineLower(f, lowerLow, lowerHigh, Some(LowerExponent(f)));
    upper, upperProbes := RefineUpper(f, upperLow, upperHigh, Some(UpperExponent(f, k)));
    probes := probes + lowerProbes + upperProbes;
    r := Ok((lower, upper));
  }
}
