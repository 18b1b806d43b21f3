/** What the boundary search delivers, for every quote function. */
module BoundsProofs {
  import opened Base
  import opened TradingVenue
  import opened Bounds

  // ---- Arbitrary quote functions --------------------------------------------------

  ghost predicate SomePowerValid(f: QuoteFn) {
    exists k: nat :: k <= 63 && ValidAt(f, Pow2(k))
  }

  /** The search succeeds exactly when some power of two is quotable; it has one error. */
  lemma SearchCompleteness(f: QuoteFn)
    ensures Boundaries(f).Ok? <==> SomePowerValid(f)
    ensures Boundaries(f).Err? ==> Boundaries(f).error == NoQuotableValue
  {
    hide LowerEdge;
    hide UpperEdge;
    BracketsOrdered(f);
    var k := FirstValid(f, 0);
    if k < 64 {
      assert ValidAt(f, Pow2(k));
      SatDoubleOfPow2(k);
    }
  }

  /** Whatever the venue answers, bisection keeps a valid upper end, and below it an
      invalid point or the original lower end, at most 65 away once it stops. */
  lemma {:induction false} LowerEdgeBracketed(f: QuoteFn, low: u64, high: u64, m: nat) returns (below: u64)
    requires low < high && Near(low, high, m) && ValidAt(f, high)
    ensures ValidAt(f, LowerEdge(f, low, high))
    ensures low <= below < LowerEdge(f, low, high) <= below + 65
    ensures below == low || !ValidAt(f, below)
    decreases m
  {
    NearStops(low, high, m);
    if m <= 6 {
      below := low;
    } else if ValidAt(f, Mid(low, high)) {
      below := LowerEdgeBracketed(f, low, Mid(low, high), m - 1);
    } else {
      below := LowerEdgeBracketed(f, Mid(low, high), high, m - 1);
    }
  }

  lemma {:induction false} UpperEdgeBracketed(f: QuoteFn, low: u64, high: u64, m: nat) returns (above: u64)
    requires low < high && Near(low, high, m) && ValidAt(f, low)
    ensures ValidAt(f, UpperEdge(f, low, high))
    ensures UpperEdge(f, low, high) < above <= high
    ensures above <= UpperEdge(f, low, high) + 65
    ensures above == high || !ValidAt(f, above)
    decreases m
  {
    NearStops(low, high, m);
    if m <= 6 {
      above := high;
    } else if ValidAt(f, Mid(low, high)) {
      above := UpperEdgeBracketed(f, Mid(low, high), high, m - 1);
    } else {
      above := UpperEdgeBracketed(f, low, Mid(low, high), m - 1);
    }
  }

  /** The lower end of the lower bracket is 0 or invalid; its upper end is valid. */
  lemma LowerBracketEnds(f: QuoteFn)
    requires FirstValid(f, 0) < 64
    ensures var (low, high) := LowerBracket(f);
            ValidAt(f, high) && (low == 0 || !ValidAt(f, low))
  {
    var k := FirstValid(f, 0);
    if k > 0 {
      assert !ValidAt(f, Pow2(k - 1));
    }
  }

  /** The upper bracket starts valid, and ends invalid or at the u64 maximum. */
  lemma UpperBracketEnds(f: QuoteFn)
    requires FirstValid(f, 0) < 64
    ensures var (low, high) := UpperBracket(f, FirstValid(f, 0));
            ValidAt(f, low) && (high == U64_MAX || !ValidAt(f, high))
  {
    hide Pow2;
    var k := FirstValid(f, 0);
    if k < 63 {
      var j := FirstInvalid(f, k + 1);
      if k < j - 1 {
        assert ValidAt(f, Pow2(j - 1));
      }
    }
  }

  /** For an arbitrary quote function, success means two valid ends in order, with an
      invalid point or 0 within 65 below, and an invalid point or the u64 maximum
      within 65 above. */
  lemma SuccessIsBracketed(f: QuoteFn) returns (below: u64, above: u64)
    requires Boundaries(f).Ok?
    ensures var (lower, upper) := Boundaries(f).value;
            && ValidAt(f, lower) && ValidAt(f, upper)
            && below < lower <= below + 65 && (below == 0 || !ValidAt(f, below))
            && lower <= upper <= above <= upper + 65
            && (above == U64_MAX || !ValidAt(f, above))
  {
    var k := FirstValid(f, 0);
    BracketsOrdered(f);
    LowerBracketFacts(f);
    UpperBracketFacts(f, k);
    LowerBracketEnds(f);
    UpperBracketEnds(f);
    var (lowerLow, lowerHigh) := LowerBracket(f);
    var (upperLow, upperHigh) := UpperBracket(f, k);
    below := LowerEdgeBracketed(f, lowerLow, lowerHigh, LowerExponent(f));
    if upperLow == upperHigh {
      above := upperHigh;
    } else {
      above := UpperEdgeBracketed(f, upperLow, upperHigh, UpperExponent(f, k));
    }
  }

  // ---- Interval-shaped validity ---------------------------------------------------

  /** The documented contract: valid on `[lower, upper]` and nowhere else. */
  ghost predicate ExactRange(f: QuoteFn, lower: int, upper: int) {
    0 <= lower <= upper <= U64_MAX && forall x: u64 :: ValidAt(f, x) <==> lower <= x <= upper
  }

  ghost predicate IsPow2(x: int) { exists k: nat :: x == Pow2(k) }

  /** Amounts the lower search can return: powers of two up to 64, then multiples of 64. */
  ghost predicate LowerGrid(x: int) {
    if x <= 64 then IsPow2(x) else x % 64 == 0
  }

  /** Offsets above `2^63` the upper search can stop on: its bracket there is `2^63 - 1`
      wide, so halves fall one short and the grid drifts off the multiples of 64. */
  ghost predicate TopGrid(y: int) {
    y == 0 || (y >= 63 && IsPow2(y + 1)) || (y % 64 == 62 && !IsPow2(y + 2))
  }

  /** Amounts the upper search can return for a range that starts at `lower`.  The u64
      maximum is only ever probed when the first valid power of two is `2^63`. */
  ghost predicate UpperGrid(lower: int, x: int) {
    if x == U64_MAX then lower > 0x4000_0000_0000_0000
    else if x >= 0x8000_0000_0000_0000 then TopGrid(x - 0x8000_0000_0000_0000)
    else if x < 64 then IsPow2(x)
    else x % 64 == 0
  }

  /** Whole cells of 64 apart, remainders agree. */
  lemma WholeCells(x: int, y: int, cells: int)
    requires x == y + 64 * cells
    ensures x % 64 == y % 64
  {
  }

  /** Where the midpoint of an even-start bracket of whole cells (or one over) falls. */
  lemma EvenHalf(low: u64, high: u64, half: nat)
    requires low % 2 == 0 && 4 * half <= high - low <= 4 * half + 1
    ensures low + 2 * half == high / 2 + low / 2 && (low + 2 * half) % 2 == 0
  {
  }

  /** From an odd start, whole cells or one short, the midpoint falls one short. */
  lemma OddHalf(low: u64, high: u64, half: nat)
    requires low % 2 == 1 && 4 * half - 1 <= high - low <= 4 * half
    ensures low + 2 * half - 1 == high / 2 + low / 2 && (low + 2 * half - 1) % 2 == 0
  {
  }

  /** One bisection step of the lower search against a threshold. */
  lemma LowerStep(f: QuoteFn, low: u64, high: u64, mid: int, lower: int)
    requires low + 100 < high && mid == high / 2 + low / 2 && low < lower <= high
    requires forall x: u64 :: low < x < high ==> (ValidAt(f, x) <==> lower <= x)
    ensures low < mid < high
    ensures LowerEdge(f, low, high) == if lower <= mid then LowerEdge(f, low, mid) else LowerEdge(f, mid, high)
  {
    assert Mid(low, high) == mid;
  }

  lemma LowerStop(f: QuoteFn, low: u64, high: u64)
    requires low <= high <= low + 100
    ensures LowerEdge(f, low, high) == high
  {
  }

  /** On an even bracket of `2^c` cells the lower search rounds up to 64s from `low`. */
  lemma {:induction false} LowerRoundsUp(f: QuoteFn, low: u64, high: u64, c: nat, lower: int) returns (n: nat)
    requires high - low == 64 * Pow2(c) && low % 2 == 0
    requires low < lower <= high
    requires forall x: u64 :: low < x < high ==> (ValidAt(f, x) <==> lower <= x)
    ensures LowerEdge(f, low, high) == low + 64 * n && lower <= low + 64 * n < lower + 64
    decreases c
  {
    hide LowerEdge;
    if c == 0 {
      LowerStop(f, low, high);
      n := 1;
    } else {
      EvenHalf(low, high, 32 * Pow2(c - 1));
      var mid: u64 := low + 64 * Pow2(c - 1);
      LowerStep(f, low, high, mid, lower);
      if lower <= mid {
        n := LowerRoundsUp(f, low, mid, c - 1, lower);
      } else {
        n := LowerRoundsUp(f, mid, high, c - 1, lower);
        n := n + Pow2(c - 1);
      }
    }
  }

  /** `upper` cuts the open bracket `(low, high)` into a valid and an invalid part. */
  ghost predicate Cut(f: QuoteFn, low: u64, high: u64, upper: int) {
    low <= upper < high && forall x: u64 :: low < x < high ==> (ValidAt(f, x) <==> x <= upper)
  }

  /** One bisection step against a cut keeps the half the cut lies in. */
  lemma UpperStep(f: QuoteFn, low: u64, high: u64, mid: int, upper: int)
    requires low + 100 < high && mid == high / 2 + low / 2 && Cut(f, low, high, upper)
    ensures low < mid < high
    ensures mid <= upper ==> Cut(f, mid, high, upper) && UpperEdge(f, low, high) == UpperEdge(f, mid, high)
    ensures mid > upper ==> Cut(f, low, mid, upper) && UpperEdge(f, low, high) == UpperEdge(f, low, mid)
  {
    assert Mid(low, high) == mid;
  }

  lemma UpperStop(f: QuoteFn, low: u64, high: u64, upper: int)
    requires high - low <= 100 && Cut(f, low, high, upper)
    ensures UpperEdge(f, low, high) == low <= upper < high
  {
  }

  /** Even bracket of `2^c` cells: the upper search rounds down to 64s from `low`. */
  lemma {:induction false} UpperRoundsDown(f: QuoteFn, low: u64, high: u64, c: nat, upper: int) returns (n: nat)
    requires high - low == 64 * Pow2(c) && low % 2 == 0 && Cut(f, low, high, upper)
    ensures UpperEdge(f, low, high) == low + 64 * n && low + 64 * n <= upper < low + 64 * n + 64
    decreases c
  {
    hide UpperEdge;
    hide Cut;
    if c == 0 {
      UpperStop(f, low, high, upper);
      n := 0;
    } else {
      EvenHalf(low, high, 32 * Pow2(c - 1));
      var mid: u64 := low + 64 * Pow2(c - 1);
      UpperStep(f, low, high, mid, upper);
      if mid <= upper {
        n := UpperRoundsDown(f, mid, high, c - 1, upper);
        n := n + Pow2(c - 1);
      } else {
        n := UpperRoundsDown(f, low, mid, c - 1, upper);
      }
    }
  }

  /** The `n`-th stop of a bracket with an odd start: `low`, then one short of each cell. */
  function OddStop(low: int, n: nat): int {
    if n == 0 then low else low + 64 * n - 1
  }

  /** Odd start, one short of `2^c` cells. */
  lemma {:induction false} OddStart(f: QuoteFn, low: u64, high: u64, c: nat, upper: int) returns (n: nat)
    requires high - low == 64 * Pow2(c) - 1 && low % 2 == 1 && Cut(f, low, high, upper)
    ensures UpperEdge(f, low, high) == OddStop(low, n) <= upper < low + 64 * n + 63
    ensures n < Pow2(c)
    decreases c
  {
    hide UpperEdge;
    hide Cut;
    if c == 0 {
      UpperStop(f, low, high, upper);
      n := 0;
    } else {
      OddHalf(low, high, 32 * Pow2(c - 1));
      var mid: u64 := low + 64 * Pow2(c - 1) - 1;
      UpperStep(f, low, high, mid, upper);
      if mid <= upper {
        n := UpperRoundsDown(f, mid, high, c - 1, upper);
        n := n + Pow2(c - 1);
      } else {
        n := OddStart(f, low, mid, c - 1, upper);
      }
    }
  }

  /** Even start, odd end, one over `2^c` cells: cells from `low`, the last one 65 wide. */
  lemma {:induction false} LongCell(f: QuoteFn, low: u64, high: u64, c: nat, upper: int) returns (n: nat)
    requires high - low == 64 * Pow2(c) + 1 && low % 2 == 0 && Cut(f, low, high, upper)
    ensures UpperEdge(f, low, high) == low + 64 * n <= upper
    ensures upper < low + 64 * n + 64 || upper == high - 1
    ensures n < Pow2(c)
    decreases c
  {
    hide UpperEdge;
    hide Cut;
    if c == 0 {
      UpperStop(f, low, high, upper);
      n := 0;
    } else {
      EvenHalf(low, high, 32 * Pow2(c - 1));
      var mid: u64 := low + 64 * Pow2(c - 1);
      UpperStep(f, low, high, mid, upper);
      if mid <= upper {
        n := LongCell(f, mid, high, c - 1, upper);
        n := n + Pow2(c - 1);
      } else {
        n := UpperRoundsDown(f, low, mid, c - 1, upper);
      }
    }
  }

  /** Odd bracket of `2^c` cells: the halves come out one short and one long. */
  lemma OddCell(f: QuoteFn, low: u64, high: u64, c: nat, upper: int) returns (n: nat)
    requires high - low == 64 * Pow2(c) && low % 2 == 1 && Cut(f, low, high, upper)
    ensures UpperEdge(f, low, high) == OddStop(low, n) <= upper
    ensures upper < low + 64 * n + 63 || upper == high - 1
    ensures n < Pow2(c)
  {
    hide UpperEdge;
    hide Cut;
    if c == 0 {
      UpperStop(f, low, high, upper);
      n := 0;
    } else {
      OddHalf(low, high, 32 * Pow2(c - 1));
      var mid: u64 := low + 64 * Pow2(c - 1) - 1;
      UpperStep(f, low, high, mid, upper);
      if mid <= upper {
        n := LongCell(f, mid, high, c - 1, upper);
        n := n + Pow2(c - 1);
      } else {
        n := OddStart(f, low, mid, c - 1, upper);
      }
    }
  }

  lemma {:induction false} CellsArePowers(c: nat)
    ensures 64 * Pow2(c) == Pow2(c + 6)
  {
    if c == 0 {
      Pow2Values();
    } else {
      CellsArePowers(c - 1);
    }
  }

  /** A number between consecutive powers of two is one of them or none at all. */
  lemma BetweenPowers(x: int, m: nat)
    requires Pow2(m) <= x <= Pow2(m + 1)
    ensures IsPow2(x) <==> x == Pow2(m) || x == Pow2(m + 1)
  {
    if k: nat :| x == Pow2(k) {
      if k < m {
        Pow2Monotone(k, m);
      } else if k > m + 1 {
        Pow2Monotone(m + 1, k);
      }
    }
  }

  lemma BelowTopGrid(y: int)
    requires 0 <= y < 63
    ensures TopGrid(y) <==> y == 0
  {
    CellsArePowers(0);
    assert IsPow2(64);
  }

  /** From `2^c` cells less one up to twice that less one, the top grid is: the start,
      and 62 modulo 64 except the very last offset. */
  lemma TopGridOctave(y: int, c: nat)
    requires 64 * Pow2(c) - 1 <= y < 64 * Pow2(c + 1) - 1
    ensures TopGrid(y) <==>
            y == 64 * Pow2(c) - 1 || (y % 64 == 62 && y != 64 * Pow2(c + 1) - 2)
  {
    CellsArePowers(c);
    CellsArePowers(c + 1);
    BetweenPowers(y + 1, c + 6);
    BetweenPowers(y + 2, c + 6);
    WholeCells(64 * Pow2(c) - 1, -1, Pow2(c));
  }

  /** The topmost bracket, one short of `2^c` cells from an even start: the drifting grid. */
  lemma {:induction false} TopBracket(f: QuoteFn, low: u64, high: u64, c: nat, upper: int)
    requires high - low == 64 * Pow2(c) - 1 && low % 2 == 0 && Cut(f, low, high, upper)
    ensures UpperEdge(f, low, high) == upper <==> TopGrid(upper - low)
    decreases c
  {
    hide UpperEdge;
    hide Cut;
    hide TopGrid;
    if c == 0 {
      UpperStop(f, low, high, upper);
      BelowTopGrid(upper - low);
    } else {
      var mid: u64 := low + 64 * Pow2(c - 1) - 1;
      UpperStep(f, low, high, mid, upper);
      if mid > upper {
        TopBracket(f, low, mid, c - 1, upper);
      } else {
        TopBracketUpper(f, low, mid, high, c - 1, upper);
      }
    }
  }

  lemma TopBracketUpper(f: QuoteFn, low: u64, mid: u64, high: u64, c: nat, upper: int)
    requires mid == low + 64 * Pow2(c) - 1 && high == mid + 64 * Pow2(c)
    requires low % 2 == 0 && Cut(f, mid, high, upper)
    ensures UpperEdge(f, mid, high) == upper <==> TopGrid(upper - low)
  {
    hide UpperEdge;
    hide Cut;
    hide TopGrid;
    var n := OddCell(f, mid, high, c, upper);
    TopGridOctave(upper - low, c);
    OddStopMod(upper - low, upper - mid, Pow2(c), n);
  }

  /** An offset between two odd stops is 62 modulo 64, seen from `cells` cells below
      less one, only at the first of them. */
  lemma OddStopMod(y: int, d: int, cells: nat, n: nat)
    requires y == d + 64 * cells - 1
    ensures 64 * n - 1 <= d < 64 * n + 63 ==> (y % 64 == 62 <==> d == 64 * n - 1)
  {
    WholeCells(y, d - 1 - 64 * n, cells + n);
  }

  /** The first valid power of a valid range `[lower, upper]`. */
  lemma FirstPowerOfRange(f: QuoteFn, lower: int, upper: int)
    requires 1 <= lower && ExactRange(f, lower, upper) && FirstValid(f, 0) < 64
    ensures var k := FirstValid(f, 0);
            lower <= Pow2(k) <= upper && (k > 0 ==> Pow2(k - 1) < lower)
  {
    var k := FirstValid(f, 0);
    if k > 0 {
      assert !ValidAt(f, Pow2(k - 1));
      SatDoubleOfPow2(k - 1);
    }
  }

  /** The lower edge for a valid range `[lower, upper]`: rounded up by at most 63, and
      exact just on the lower grid. */
  lemma LowerEdgeOfRange(f: QuoteFn, lower: int, upper: int)
    requires 1 <= lower && ExactRange(f, lower, upper) && FirstValid(f, 0) < 64
    ensures var (low, high) := LowerBracket(f);
            var edge := LowerEdge(f, low, high);
            lower <= edge <= lower + 63 && (edge == lower <==> LowerGrid(lower))
  {
    hide LowerEdge;
    hide FirstValid;
    var k := FirstValid(f, 0);
    LowerBracketFacts(f);
    FirstPowerOfRange(f, lower, upper);
    if k == 0 {
      LowerStop(f, 0, 1);
      assert lower == Pow2(0);
    } else if k <= 6 {
      LowerEdgeBelow64(f, k, lower);
    } else {
      LowerEdgeAbove64(f, SatPow2(k - 1), SatPow2(k), k - 7, lower);
    }
  }

  lemma LowerEdgeBelow64(f: QuoteFn, k: nat, lower: int)
    requires 1 <= k <= 6 && Pow2(k - 1) < lower <= Pow2(k)
    ensures SatPow2(k - 1) <= SatPow2(k)
    ensures var edge := LowerEdge(f, SatPow2(k - 1), SatPow2(k));
            lower <= edge <= lower + 63 && (edge == lower <==> LowerGrid(lower))
  {
    hide LowerEdge;
    hide Pow2;
    hide IsPow2;
    LowPower(k);
    SatDoubleOfPow2(k - 1);
    LowPower(k - 1);
    LowerStop(f, SatPow2(k - 1), SatPow2(k));
    assert Pow2(k) == 2 * Pow2(k - 1);
    BetweenPowers(lower, k - 1);
  }

  lemma LowerEdgeAbove64(f: QuoteFn, low: u64, high: u64, c: nat, lower: int)
    requires low == Pow2(c + 6) && high == Pow2(c + 7) && low < lower <= high
    requires forall x: u64 :: low < x < high ==> (ValidAt(f, x) <==> lower <= x)
    ensures var edge := LowerEdge(f, low, high);
            lower <= edge <= lower + 63 && (edge == lower <==> LowerGrid(lower))
  {
    CellsArePowers(c);
    var n := LowerRoundsUp(f, low, high, c, lower);
    WholeCells(lower, lower - low - 64 * n, Pow2(c) + n);
  }

  lemma LowPower(k: nat)
    requires k <= 6
    ensures Pow2(k) <= 64
  {
    CellsArePowers(0);
    if k < 6 {
      Pow2Monotone(k, 6);
    }
  }

  /** The upper edge below `2^63`: rounded down by at most 63, exact on the grid. */
  lemma UpperEdgeOfLowRange(f: QuoteFn, low: u64, high: u64, m: nat, upper: int)
    requires m <= 62 && low == Pow2(m) && high == Pow2(m + 1) && Cut(f, low, high, upper)
    ensures var edge := UpperEdge(f, low, high);
            edge <= upper <= edge + 63 &&
            (edge == upper <==> if upper < 64 then IsPow2(upper) else upper % 64 == 0)
  {
    if m <= 5 {
      LowPower(m + 1);
      BetweenPowers(upper, m);
    } else {
      UpperEdgeAbove64(f, low, high, m - 6, upper);
    }
  }

  lemma UpperEdgeAbove64(f: QuoteFn, low: u64, high: u64, c: nat, upper: int)
    requires low == Pow2(c + 6) && high == Pow2(c + 7) && Cut(f, low, high, upper)
    ensures var edge := UpperEdge(f, low, high);
            64 <= edge <= upper <= edge + 63 && (edge == upper <==> upper % 64 == 0)
  {
    CellsArePowers(c);
    var n := UpperRoundsDown(f, low, high, c, upper);
    WholeCells(upper, upper - low - 64 * n, Pow2(c) + n);
  }

  /** The upper edge from `2^63` up, short of the u64 maximum. */
  lemma UpperEdgeOfHighRange(f: QuoteFn, low: u64, upper: int)
    requires low == 0x8000_0000_0000_0000 && Cut(f, low, U64_MAX, upper)
    ensures UpperEdge(f, low, U64_MAX) == upper <==> TopGrid(upper - low)
  {
    CellsArePowers(57);
    Pow2Values();
    TopBracket(f, low, U64_MAX, 57, upper);
  }

  /** The exponent the upper phase stops on is the first above the range's upper end. */
  lemma UpperPowerOfRange(f: QuoteFn, lower: int, upper: int)
    requires 1 <= lower && ExactRange(f, lower, upper) && FirstValid(f, 0) < 63
    ensures var j := FirstInvalid(f, FirstValid(f, 0) + 1);
            Pow2(j - 1) <= upper && (j <= 63 ==> upper < Pow2(j))
  {
    var k := FirstValid(f, 0);
    var j := FirstInvalid(f, k + 1);
    FirstPowerOfRange(f, lower, upper);
    if k < j - 1 {
      assert ValidAt(f, Pow2(j - 1));
    }
    if j <= 63 {
      Pow2Monotone(k, j);
      BelowTop(j);
      var x: u64 := Pow2(j);
      assert !ValidAt(f, x);
    }
  }

  /** The upper edge is exact just on the upper grid, and below `2^63` at most 63 short. */
  lemma UpperEdgeOfRange(f: QuoteFn, lower: int, upper: int)
    requires 1 <= lower && ExactRange(f, lower, upper) && FirstValid(f, 0) < 64
    ensures var (low, high) := UpperBracket(f, FirstValid(f, 0));
            low <= high && (UpperEdge(f, low, high) == upper <==> UpperGrid(lower, upper))
    ensures var (low, high) := UpperBracket(f, FirstValid(f, 0));
            upper < 0x8000_0000_0000_0000 ==> upper - 63 <= UpperEdge(f, low, high) <= upper
  {
    hide UpperEdge;
    hide UpperGrid;
    hide Pow2;
    hide ExactRange;
    hide FirstValid;
    hide FirstInvalid;
    var k := FirstValid(f, 0);
    UpperBracketFacts(f, k);
    FirstPowerOfRange(f, lower, upper);
    if k < 63 {
      LowStart(k);
      UpperPowerOfRange(f, lower, upper);
      if k < FirstInvalid(f, k + 1) - 1 {
        Pow2Monotone(k, FirstInvalid(f, k + 1) - 1);
      }
      UpperEdgeFromLowStart(f, lower, upper, FirstInvalid(f, k + 1));
    } else {
      UpperEdgeFromTopStart(f, lower, upper);
    }
  }

  lemma UpperEdgeFromTopStart(f: QuoteFn, lower: int, upper: int)
    requires 1 <= lower && ExactRange(f, lower, upper)
    requires Pow2(62) < lower <= Pow2(63) <= upper
    ensures var (low, high) := UpperBracket(f, 63);
            low <= high && (UpperEdge(f, low, high) == upper <==> UpperGrid(lower, upper))
    ensures upper >= 0x8000_0000_0000_0000
  {
    Pow2Values();
    if upper < U64_MAX {
      UpperEdgeOfHighRange(f, SatPow2(63), upper);
    } else {
      assert ValidAt(f, upper);
    }
  }

  lemma UpperEdgeFromLowStart(f: QuoteFn, lower: int, upper: int, j: nat)
    requires ExactRange(f, lower, upper) && 1 <= j <= 64
    requires lower <= Pow2(j - 1) <= upper && (j <= 63 ==> upper < Pow2(j))
    requires lower <= 0x4000_0000_0000_0000
    ensures var low, high := SatPow2(j - 1), SatPow2(j);
            low < high && (UpperEdge(f, low, high) == upper <==> UpperGrid(lower, upper))
    ensures upper < 0x8000_0000_0000_0000 ==> upper - 63 <= UpperEdge(f, SatPow2(j - 1), SatPow2(j)) <= upper
  {
    hide UpperEdge;
    hide Pow2;
    hide TopGrid;
    hide IsPow2;
    SatDoubleOfPow2(j - 1);
    if j <= 63 {
      BelowTop(j);
      var low, high := SatPow2(j - 1), SatPow2(j);
      assert low == Pow2(j - 1) && high == Pow2(j);
      assert Cut(f, low, high, upper);
      UpperEdgeOfLowRange(f, low, high, j - 1, upper);
    } else {
      Pow2Values();
      if upper < U64_MAX {
        UpperEdgeOfHighRange(f, SatPow2(63), upper);
      } else {
        UpperEdgeShortOfMax(f, SatPow2(63), U64_MAX);
      }
    }
  }

  lemma BelowTop(j: nat)
    requires j <= 63
    ensures Pow2(j) <= 0x8000_0000_0000_0000
  {
    Pow2Values();
    if j < 63 {
      Pow2Monotone(j, 63);
    }
  }

  lemma LowStart(k: nat)
    requires k <= 62
    ensures Pow2(k) <= 0x4000_0000_0000_0000
  {
    Pow2Values();
    if k < 62 {
      Pow2Monotone(k, 62);
    }
  }

  lemma {:induction false} UpperEdgeShortOfMax(f: QuoteFn, low: u64, high: u64)
    requires low < high
    ensures UpperEdge(f, low, high) < high
    decreases high - low
  {
    if high - low > 100 {
      if ValidAt(f, Mid(low, high)) {
        UpperEdgeShortOfMax(f, Mid(low, high), high);
      } else {
        UpperEdgeShortOfMax(f, low, Mid(low, high));
      }
    }
  }

  /** For a valid range, the upper end is never above it and at most 65 below its top. */
  lemma UpperEndNear(f: QuoteFn, lower: int, upper: int)
    requires ExactRange(f, lower, upper) && Boundaries(f).Ok?
    ensures upper - 65 <= Boundaries(f).value.1 <= upper
  {
    var below, above := SuccessIsBracketed(f);
    assert ValidAt(f, Boundaries(f).value.1);
    assert above == U64_MAX || !ValidAt(f, above);
  }

  lemma SuccessfulEdges(f: QuoteFn)
    requires Boundaries(f).Ok?
    ensures FirstValid(f, 0) < 64
    ensures var (lowerLow, lowerHigh) := LowerBracket(f);
            var (upperLow, upperHigh) := UpperBracket(f, FirstValid(f, 0));
            && lowerLow <= lowerHigh && upperLow <= upperHigh
            && Boundaries(f).value == (LowerEdge(f, lowerLow, lowerHigh), UpperEdge(f, upperLow, upperHigh))
  {
    hide LowerEdge;
    hide UpperEdge;
    BracketsOrdered(f);
  }

  /** Both ends for a valid range: how far off they can be, and when they are exact. */
  lemma EdgesOfRange(f: QuoteFn, lower: int, upper: int)
    requires 1 <= lower && ExactRange(f, lower, upper) && Boundaries(f).Ok?
    ensures var (lo, hi) := Boundaries(f).value;
            && lower <= lo <= lower + 63 && upper - 65 <= hi <= upper
            && (upper < 0x8000_0000_0000_0000 ==> upper - 63 <= hi)
            && (lo == lower <==> LowerGrid(lower))
            && (hi == upper <==> UpperGrid(lower, upper))
  {
    SuccessfulEdges(f);
    LowerEdgeOfRange(f, lower, upper);
    UpperEdgeOfRange(f, lower, upper);
    UpperEndNear(f, lower, upper);
  }

  /** The documented contract, decided: for every quote function the search succeeds
      on, the returned range is exact if and only if the true range exists and has
      both its ends on the search's grids. */
  lemma ContractHoldsIff(f: QuoteFn)
    requires Boundaries(f).Ok?
    ensures var (lo, hi) := Boundaries(f).value;
            ExactRange(f, lo, hi) <==>
            exists lower, upper :: ExactRange(f, lower, upper) && 1 <= lower
                                   && LowerGrid(lower) && UpperGrid(lower, upper)
  {
    var (lo, hi) := Boundaries(f).value;
    var below, above := SuccessIsBracketed(f);
    if ExactRange(f, lo, hi) {
      EdgesOfRange(f, lo, hi);
    }
    if lower, upper :| ExactRange(f, lower, upper) && 1 <= lower
                       && LowerGrid(lower) && UpperGrid(lower, upper) {
      EdgesOfRange(f, lower, upper);
    }
  }

  /** A venue that quotes exactly the amounts in `[lower, upper]`. */
  function RangeVenue(lower: int, upper: int): QuoteFn {
    (x: u64) => Ok(QuoteResult(0, 1, x, if lower <= x <= upper then 1 else 0, false, 1.0))
  }

  /** A venue that quotes all of `[65, 190]` is reported to quote 128 alone. */
  lemma ContractFails()
    ensures ExactRange(RangeVenue(65, 190), 65, 190)
    ensures Boundaries(RangeVenue(65, 190)) == Ok((128, 128))
  {
    hide LowerEdge;
    hide UpperEdge;
    var f := RangeVenue(65, 190);
    assert ExactRange(f, 65, 190);
    NarrowPowers();
    NarrowEdges();
    Pow2Values();
    assert Pow2(8) == 256;
  }

  lemma NarrowPowers()
    ensures FirstValid(RangeVenue(65, 190), 0) == 7 && FirstInvalid(RangeVenue(65, 190), 8) == 8
  {
    hide FirstValid;
    hide FirstInvalid;
    hide ValidAt;
    hide Pow2;
    var f := RangeVenue(65, 190);
    SmallPowers();
    Pow2Values();
    NarrowProbes();
    var k := FirstValid(f, 0);
    assert k < 7 ==> !ValidAt(f, Pow2(k));
  }

  lemma NarrowProbes()
    ensures var f := RangeVenue(65, 190);
            ValidAt(f, Pow2(7)) && !ValidAt(f, Pow2(8)) && forall i: nat :: i < 7 ==> !ValidAt(f, Pow2(i))
  {
    SmallPowers();
    Pow2Values();
    assert Pow2(8) == 256;
  }

  lemma NarrowEdges()
    ensures LowerEdge(RangeVenue(65, 190), 64, 128) == 128 == UpperEdge(RangeVenue(65, 190), 128, 256)
  {
    var f := RangeVenue(65, 190);
    assert UpperEdge(f, 128, 256) == UpperEdge(f, 128, 192) == 128;
  }

  lemma SmallPowers()
    ensures forall i: nat :: i < 7 ==> Pow2(i) <= 64
  {
    forall i: nat | i < 7 ensures Pow2(i) <= 64 { LowPower(i); }
  }

  /** A venue that quotes all of `[65, 127]`, but no power of two, is reported unquotable. */
  lemma QuotableMissed()
    ensures ExactRange(RangeVenue(65, 127), 65, 127)
    ensures Boundaries(RangeVenue(65, 127)) == Err(NoQuotableValue)
  {
    hide Boundaries;
    hide Pow2;
    var f := RangeVenue(65, 127);
    Pow2Values();
    SmallPowers();
    forall k: nat ensures !ValidAt(f, Pow2(k)) {
      if k > 7 {
        Pow2Monotone(7, k);
      }
    }
    SearchCompleteness(f);
  }

  /** Quotes flagged short of liquidity are invalid even where they report an output: a venue
      that fills what it can beyond its range is searched as if it refused there. */
  lemma PartialFillsAreInvalid(f: QuoteFn, lower: int, upper: int)
    requires 0 <= lower <= upper <= U64_MAX
    requires forall x: u64 :: f(x).Ok? && f(x).value.expectedOutput > 0 && (f(x).value.notEnoughLiquidity <==> x < lower || upper < x)
    ensures ExactRange(f, lower, upper)
  {
    forall x: u64 ensures ValidAt(f, x) <==> lower <= x <= upper {
      assert f(x).Ok?;
    }
  }

  /** A valid range twice as wide as it is high above 0 always contains a probed power. */
  lemma WideRangesSucceed(f: QuoteFn, lower: int, upper: int)
    requires 1 <= lower <= 0x8000_0000_0000_0000 && 2 * lower <= upper + 1
    requires ExactRange(f, lower, upper)
    ensures Boundaries(f).Ok?
  {
    Pow2Values();
    var k := PowerAtLeast(lower, 63);
    assert ValidAt(f, Pow2(k));
    SearchCompleteness(f);
  }

  lemma {:induction false} PowerAtLeast(x: int, m: nat) returns (k: nat)
    requires 1 <= x <= Pow2(m)
    ensures k <= m && x <= Pow2(k) <= 2 * x - 1
  {
    if m == 0 || x > Pow2(m - 1) {
      k := m;
    } else {
      k := PowerAtLeast(x, m - 1);
    }
  }
}
