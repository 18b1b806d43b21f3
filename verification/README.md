# Titan venue template: a verified model

A Dafny model of the Titan venue template: the on-chain route executor, the boundary
search, the Quay venue's lifecycle and pricing, the off-chain leg builder and the account
cache. `dafny verify dfyconfig.toml` checks all of it.

**The route.** A route deposits a user's input into the TitanPDA's token accounts and walks
weighted legs, each spending only what lies above the balance held before the route. What
is above it on the output mint goes to the user. `RouteModel` is the specification, a
partial function from ledger to receipt; `SwapRoute.SwapRouteV3` is the imperative handler
with its `u16` flags, four-word bitmap, packed balances, reserve array and account cursor,
and is proved equal to it. Balances belong to keys while the handler works on positions, so
the same account may stand at many positions. Venues appear in two ways: as an arbitrary
function on the ledger (`Env.venue`, used by `UserReceivesSurplus` and
`KeptIffStillOwned`), and as one that trades exactly its input for what a curve returns
(`WellBehaved`, used by the reserve, conservation and chain results; the curve may depend on
the whole ledger except in `ChainComposes`). `Separate` says that the token programs are not
the system program and that the user is not the TitanPDA; `Funded` that rent is charged and
an account without lamports has no data. `SampleRoute` shows these hypotheses met together.
`SuccessProofs` says when a route goes through and, step by step, why one stops;
`SampleSuccess` meets its hypotheses.
`BeyondBitmap` says what the closing check is worth against other venues: it sees amounts at
256 positions, not owners and not the positions above. The 257-account route there is an
input of the handler; the runtime's own limit on instruction accounts is not modelled, and
today it is lower.

**Bounds.** `Bounds` holds the doubling and bisection loops, `BoundsProofs` what they find.
The documentation at src/trading_venue/bounds.rs:245-250 promises the exact valid range;
the bisections stop at a width of 100, so the code meets that promise only for ranges whose
ends lie on certain grids. `ContractHoldsIff` gives the exact condition, `ContractFails` a
venue that misses it, `EdgesOfRange` the distance in general. `NoQuotableValue` is documented
as no valid quote at any input (src/trading_venue/bounds.rs:257); it means no valid power of
two, and `QuotableMissed` is a venue that shows the difference.

**Prices.** `Pricing` is the finite difference of src/quay/quote.rs over exact reals. The
documentation at src/trading_venue/mod.rs:255-268 asks for falling prices and mean-value
inequalities on all of the range. On concave curves the code delivers these for all sizes a
probe step or more apart, and the `Iff` results say exactly which closer pairs are safe.
`Sound` is the hypothesis the probe size is documented to meet. The same documentation asks
for a spot price at zero (src/trading_venue/mod.rs:109-118); the code reports 0.0 there when
the probe is refused, and `SpotTopsIff` says when the promise holds.

**Venue, legs and cache.** `QuayVenue` and `VenueProofs` are the atomic refresh and what
holds over any run of refreshes, and when one succeeds. `QuoteProofs` follows quotes and
swaps back to the accounts they were made of. A venue works with any deploy of the Quay program
(src/quay/state.rs:20-22) while the on-chain adapter calls one fixed id;
`DispatchedLegIsQuotedSwap` says when these are the same program, and `SampleVenue` gives a
venue where they are not. `QuayQuote` is the quote path, `LegBuilder` and `DispatchProofs`
the off-chain assembler, its wire format and the on-chain walk that undoes them, and
`RpcCache` the account cache. A comment in src/account_caching/rpc_cache.rs says that
known-missing accounts are not asked for again; `get_multiple` does not tell them from
unknown ones, so batch reads do ask again, and the model follows the code.

Foreign code enters as parameters: the simulator, the account decoders and the SDK's
instruction builder are functions, an RPC is a function from keys to a reply of the same
length, token and system programs are the partial functions of `TokenLedger`.

## Model

| member | source | states |
|---|---|---|
| `ReserveProofs.ReservesNeverViolated` | program-template/programs/titan-v3-venue-template/src/instructions/swap_route_v3.rs:131-332 | with venues that trade what they are handed, no route ends in `ReservedBalanceViolation`, on any ledger and however ATAs and leg accounts alias |
| `ReserveProofs.ReservesCoveredThroughout` | program-template/programs/titan-v3-venue-template/src/instructions/swap_route_v3.rs:131-332 | in a successful route every account snapshotted as the TitanPDA's, at whatever position and however it aliases, is at or above its snapshot after the deposit, after each leg, after the payout and after the close |
| `ReserveProofs.UserReceivesSurplus` | program-template/programs/titan-v3-venue-template/src/instructions/swap_route_v3.rs:253-332 | for arbitrary venues: success leaves the output ATA exactly at its reserve, the user gains exactly what was above it, and an ATA that was created and ends empty had reserve 0 |
| `BeyondBitmap.AllReservesKeptIff` | program-template/programs/titan-v3-venue-template/src/instructions/swap_route_v3.rs:131-332 | for venues that leave the TitanPDA its token accounts but are free otherwise: every successful route over at most `n` remaining accounts leaves each tracked account the TitanPDA's with its reserve, or had reserve 0, if and only if `n <= 256` |
| `BeyondBitmap.KeptIffStillOwned` | program-template/programs/titan-v3-venue-template/src/instructions/swap_route_v3.rs:322-332 | for arbitrary venues: below position 256 a successful route has kept a reserve above 0 if and only if the account was still the TitanPDA's after the legs; the closing check compares amounts only |
| `BeyondBitmap.ReserveGivenAway` | program-template/programs/titan-v3-venue-template/src/instructions/swap_route_v3.rs:134-145 | a venue that hands an ATA to another authority: a route of seven accounts succeeds, and the first reserve is not the TitanPDA's any more |
| `BeyondBitmap.TradesKeepReserves` | program-template/programs/titan-v3-venue-template/src/instructions/swap_route_v3.rs:131-332 | with trading venues, any number of accounts: each tracked account ends the TitanPDA's with its reserve, or had reserve 0 |
| `ConservationProofs.RouteConserves` | program-template/programs/titan-v3-venue-template/src/instructions/swap_route_v3.rs:186-288 | per mint: deposit (first mint only) + credits from legs = debits by legs + what is left above the reserve + payout (output mint only) |
| `ConservationProofs.LegsConserve` | program-template/programs/titan-v3-venue-template/src/instructions/swap_route_v3.rs:207-251 | after any number of legs a mint holds what it started with plus credits minus debits |
| `ConservationProofs.LegMoves` | program-template/programs/titan-v3-venue-template/src/instructions/swap_route_v3.rs:208-251 | one leg moves only its `from` and `to` mints, by what it spends and returns |
| `ChainProofs.ChainComposes` | program-template/programs/titan-v3-venue-template/src/instructions/swap_route_v3.rs:207-288 | a full-weight chain over distinct mints pays the user the composition of the venue curves on the effective amount, zero propagating, and leaves every stop at its reserve |
| `ChainProofs.ChainStep` | program-template/programs/titan-v3-venue-template/src/instructions/swap_route_v3.rs:207-251 | after `n` legs all of the surplus sits at stop `n` and equals the composition of the first `n` curves |
| `ChainProofs.SplitRouteBounds` | program-template/programs/titan-v3-venue-template/src/instructions/swap_route_v3.rs:207-251 | on any mint and any stretch of legs that does not refill it, the legs spend at most the surplus the stretch began with and leave exactly the rest: at least the exact unspent share, less than one atom a leg more, 0 after a full-weight leg |
| `ChainProofs.SplitLegsLeaveResidual` | program-template/programs/titan-v3-venue-template/src/instructions/swap_route_v3.rs:207-251 | the surplus after legs `m..n` is the residue, of the surplus after the first `m`, of the weights spent from that mint alone; legs on other mints in between do not matter |
| `ChainProofs.ResidualBounds` | program-template/programs/titan-v3-venue-template/src/instructions/swap_route_v3.rs:221-227 | `n` roundings of weighted shares stay within `[exact, exact + n)` of the real product of unspent weights |
| `ChainProofs.FullWeightLeavesNothing` | program-template/programs/titan-v3-venue-template/src/instructions/swap_route_v3.rs:221-227 | any leg of weight 1e9 or more among them leaves exactly 0 |
| `SuccessProofs.RouteSucceeds` | program-template/programs/titan-v3-venue-template/src/instructions/swap_route_v3.rs:52-335 | a route goes through: up to 12 legs over up to 12 mints of either token program and any decimals, ATAs and output account usable or openable, input funded (wrapped SOL and token ledgers included), balances within a u64, venues that trade without refusing; and it spends the amount requested |
| `SuccessProofs.ArgumentsAcceptedIff` | program-template/programs/titan-v3-venue-template/src/instructions/swap_route_v3.rs:58-77 | arguments are taken if and only if there are 2 to 12 mints with two accounts each, 1 to 12 legs among them, the first from mint 0; otherwise the route ends in the error for it |
| `SuccessProofs.PrepareStops` | program-template/programs/titan-v3-venue-template/src/instructions/swap_route_v3.rs:79-160 | why a route stops before its legs, error by error in order, and the deposit it makes otherwise, with the input mint's own decimals |
| `SuccessProofs.DepositStops` | program-template/programs/titan-v3-venue-template/src/instructions/swap_route_v3.rs:172-205 | a deposit fails over a wrapper too short to hold a balance, else only in a call it makes |
| `SuccessProofs.LegStopsIff` | program-template/programs/titan-v3-venue-template/src/instructions/swap_route_v3.rs:208-249 | each of a leg's four errors, if and only if; with nothing to spend the venue is not asked |
| `SampleSuccess.ManyLegsSucceed` | program-template/programs/titan-v3-venue-template/src/instructions/swap_route_v3.rs:52-335 | the hypotheses of success met: 1 to 12 legs, SPL Token or Token-2022 on either side, any decimals, output side yet to be opened |
| `ReserveProofs.LegInputExact` | program-template/programs/titan-v3-venue-template/src/instructions/swap_route_v3.rs:221-227 | the u128 product never saturates and the u64 cast never truncates: a leg spends the rounded-down share, never more than is available, all of it at full weight |
| `ReserveProofs.DepositCredits` | program-template/programs/titan-v3-venue-template/src/instructions/swap_route_v3.rs:162-205 | wrapping or not, the deposit credits the first ATA with exactly the effective amount and changes no other TitanPDA balance |
| `ReserveProofs.TransferMovesExactly` | program-template/programs/titan-v3-venue-template/src/instructions/swap_route_v3.rs:402-456 | between different accounts a transfer debits and credits exactly the amount and touches nothing else |
| `ReserveProofs.LegKeepsCovered` | program-template/programs/titan-v3-venue-template/src/instructions/swap_route_v3.rs:208-251 | a leg of a trading venue keeps every reserve covered, aliases included |
| `SetupProofs.CreatedExactlyMissing` | program-template/programs/titan-v3-venue-template/src/instructions/swap_route_v3.rs:101-129 | the created set is exactly the mints that are first to name an ATA that did not exist, ATAs listed twice included |
| `SetupProofs.OpensExactlyMissing` | program-template/programs/titan-v3-venue-template/src/instructions/swap_route_v3.rs:101-129 | exactly the missing ATAs come into being, as the TitanPDA's token accounts; every other account is untouched |
| `SetupProofs.ClosedExactlyEmpty` | program-template/programs/titan-v3-venue-template/src/instructions/swap_route_v3.rs:290-320 | the accounts gone at the end are exactly the created and empty ATAs; every account but the payer's is otherwise as the payout left it |
| `SetupProofs.EffectiveIsRequestedOrGained` | program-template/programs/titan-v3-venue-template/src/instructions/swap_route_v3.rs:150-160 | a route spends the requested amount, or with a token ledger exactly what the input account gained since, never 0 |
| `SetupProofs.TokenLedgerReadsIff` | program-template/programs/titan-v3-venue-template/src/instructions/swap_route_v3.rs:356-388 | a written ledger yields its stored balance if and only if it names the input account |
| `SetupProofs.ShortLedgerRefused` | program-template/programs/titan-v3-venue-template/src/instructions/swap_route_v3.rs:360-367 | without a ledger nothing is read; one of fewer than 48 bytes is refused |
| `SetupProofs.WrapCoversInput` | program-template/programs/titan-v3-venue-template/src/instructions/swap_route_v3.rs:557-596 | after wrapping, the input account covers the input and the user paid the shortfall only, or all of it into a new account (rent aside) |
| `SetupProofs.WrapperGone` | program-template/programs/titan-v3-venue-template/src/instructions/swap_route_v3.rs:174-205 | a wrapper made for the route is gone after the deposit, its lamports with the payer; the user paid the input, the first ATA has it |
| `SetupProofs.WrapperToppedUp` | program-template/programs/titan-v3-venue-template/src/instructions/swap_route_v3.rs:557-574 | a wrapper the user had is topped up by what it lacks and left with what is over |
| `SetupProofs.PlainDeposit` | program-template/programs/titan-v3-venue-template/src/instructions/swap_route_v3.rs:174-195 | any other input is only transferred, and none of the user's lamports move |
| `SetupProofs.OutputOpened` | program-template/programs/titan-v3-venue-template/src/instructions/swap_route_v3.rs:268-277 | a missing output account is opened for the user, on the output mint under its own program; an existing one is left to the payout |
| `SetupProofs.FundingAdds` | program-template/programs/titan-v3-venue-template/src/instructions/swap_route_v3.rs:598-618 | transfer and sync add at least the amount to a backed wrapper, exactly the amount when it had no surplus |
| `SetupProofs.CreateAtaOpens` | program-template/programs/titan-v3-venue-template/src/instructions/swap_route_v3.rs:458-485 | creation leaves a token account of the owner under the mint's program and changes no other account |
| `SetupProofs.CloseAccountEmpties` | program-template/programs/titan-v3-venue-template/src/instructions/swap_route_v3.rs:516-555 | closing hands the lamports to the destination and removes the account |
| `SampleRoute.SampleRouteSucceeds` | program-template/programs/titan-v3-venue-template/src/instructions/swap_route_v3.rs:52-335 | the hypotheses of the reserve, conservation and chain results can be met together: for every amount and whatever the TitanPDA held before, a one-leg route through a one-for-one venue succeeds and pays the amount back |
| `SwapRoute.SwapRouteV3.Execute` | program-template/programs/titan-v3-venue-template/src/instructions/swap_route_v3.rs:52-335 | the imperative handler, bitmap, packed balances and reserve array included, computes the `Route` specification the theorems above are about, same errors in the same order |
| `SwapRoute.SwapRouteV3.Process` | program-template/programs/titan-v3-venue-template/src/instructions/swap_route_v3.rs:52-335 | under the runtime a failed route leaves the ledger unchanged |
| `SwapRoute.SwapRouteV3.PrepareRoute` | program-template/programs/titan-v3-venue-template/src/instructions/swap_route_v3.rs:79-205 | the stages up to the deposit; bitmap, vector and array all describe the one snapshot |
| `SwapRoute.SwapRouteV3.SettleRoute` | program-template/programs/titan-v3-venue-template/src/instructions/swap_route_v3.rs:253-334 | the stages after the legs, from payout to closing check |
| `SwapRoute.SwapRouteV3.CreateMissingAtas` | program-template/programs/titan-v3-venue-template/src/instructions/swap_route_v3.rs:101-129 | opens the missing ATAs; the `u16` flags stand for exactly the created set |
| `SwapRoute.SwapRouteV3.SnapshotBalances` | program-template/programs/titan-v3-venue-template/src/instructions/swap_route_v3.rs:131-148 | bitmap = tracked positions below 256, vector = all tracked balances in order, array = the route mints' balances; fails iff a route ATA is not the TitanPDA's |
| `SwapRoute.SwapRouteV3.DepositInput` | program-template/programs/titan-v3-venue-template/src/instructions/swap_route_v3.rs:162-205 | wrap if needed, transfer, close a wrapper made for the route |
| `SwapRoute.SwapRouteV3.SetupWsolInputAccount` | program-template/programs/titan-v3-venue-template/src/instructions/swap_route_v3.rs:557-596 | tops an existing wrapper up or creates and funds one, reporting which |
| `SwapRoute.SwapRouteV3.TransferSolAndSync` | program-template/programs/titan-v3-venue-template/src/instructions/swap_route_v3.rs:598-618 | lamport transfer then sync, nothing for 0 |
| `SwapRoute.SwapRouteV3.RunSwapLegs` | program-template/programs/titan-v3-venue-template/src/instructions/swap_route_v3.rs:207-251 | the leg loop and its account cursor |
| `SwapRoute.SwapRouteV3.RunSwapLeg` | program-template/programs/titan-v3-venue-template/src/instructions/swap_route_v3.rs:208-251 | one pass: its checks, its surplus, and a CPI unless the input is 0 |
| `SwapRoute.SwapRouteV3.PerformCpiSwap` | program-template/programs/titan-v3-venue-template/src/instructions/swap_route_v3.rs:338-354 | issues the adapter's instructions on the leg's accounts |
| `SwapRoute.SwapRouteV3.CloseCreatedAtas` | program-template/programs/titan-v3-venue-template/src/instructions/swap_route_v3.rs:290-320 | closes just the flagged and empty ATAs, in order |
| `SwapRoute.SwapRouteV3.CheckReserves` | program-template/programs/titan-v3-venue-template/src/instructions/swap_route_v3.rs:322-332 | walking bitmap and packed vector decides exactly: every tracked position below 256 is at or above its own snapshot |
| `Bitmap.PackAligned` | program-template/programs/titan-v3-venue-template/src/instructions/swap_route_v3.rs:131-148 | a set index's snapshot sits at its rank among the set indices, although positions from 256 on are pushed without a bit |
| `Bitmap.PackRank` | program-template/programs/titan-v3-venue-template/src/instructions/swap_route_v3.rs:322-332 | the running index equals the number of set bits below |
| `Bitmap.TitanPdaBitmap.constructor` | program-template/programs/titan-v3-venue-template/src/instructions/swap_route_v3.rs:673-676 | four zero words stand for the empty set |
| `Bitmap.TitanPdaBitmap.Set` | program-template/programs/titan-v3-venue-template/src/instructions/swap_route_v3.rs:678-682 | adds the index below 256, ignores others, keeps all other members |
| `Bitmap.TitanPdaBitmap.IsSet` | program-template/programs/titan-v3-venue-template/src/instructions/swap_route_v3.rs:684-686 | membership, both directions, false from 256 on |
| `Bitmap.RaisingOne` | program-template/programs/titan-v3-venue-template/src/instructions/swap_route_v3.rs:101-127 | or-ing `1 << i` adds exactly `i` to the set the `u16` stands for |
| `BoundsProofs.ContractHoldsIff` | src/trading_venue/bounds.rs:245-281 | the documented contract (valid exactly on the returned range) holds if and only if the valid range starts on the lower grid and ends on the upper grid |
| `BoundsProofs.ContractFails` | src/trading_venue/bounds.rs:245-281 | a venue valid on exactly `[65, 190]` is reported as `(128, 128)` |
| `BoundsProofs.EdgesOfRange` | src/trading_venue/bounds.rs:258-281 | for a valid range `[L, U]`: lower end in `[L, L+63]`, upper in `[U-65, U]` (`[U-63, U]` below 2^63); each exact if and only if on its grid |
| `BoundsProofs.LowerEdgeOfRange` | src/trading_venue/bounds.rs:134-180 | the lower edge rounds up by at most 63; exact iff a power of two up to 64 or a multiple of 64 |
| `BoundsProofs.UpperEdgeOfRange` | src/trading_venue/bounds.rs:196-243 | the upper edge is exact iff on the upper grid, which drifts above 2^63 |
| `BoundsProofs.TopBracket` | src/trading_venue/bounds.rs:196-243 | in the bracket ending at the u64 maximum, whose halves come out odd, the stops are exactly the drifting grid |
| `BoundsProofs.SuccessIsBracketed` | src/trading_venue/bounds.rs:66-281 | any quote function: both ends valid and in order, 0 or an invalid point at most 65 below the lower, the u64 maximum or an invalid point at most 65 above the upper |
| `BoundsProofs.SearchCompleteness` | src/trading_venue/bounds.rs:258-281 | success if and only if some `2^k`, `k <= 63`, is valid; `BoundarySearchFailed` never |
| `BoundsProofs.QuotableMissed` | src/trading_venue/bounds.rs:255-275 | a venue valid on exactly `[65, 127]` gets `NoQuotableValue` |
| `BoundsProofs.PartialFillsAreInvalid` | src/trading_venue/bounds.rs:31-38 | quotes flagged short of liquidity bound the range even where they report an output |
| `BoundsProofs.WideRangesSucceed` | src/trading_venue/bounds.rs:258-281 | a valid `[L, U]` with `2L <= U + 1` and `1 <= L <= 2^63` is always found |
| `Bounds.FindBoundaries` | src/trading_venue/bounds.rs:258-281 | the whole search equals its specification, within 183 quotes, for any function |
| `Bounds.FindBoundariesCoarse` | src/trading_venue/bounds.rs:66-117 | both brackets, within 65 quotes |
| `Bounds.FindLowerBracket` | src/trading_venue/bounds.rs:66-90 | doubling stops at the first valid power, or at the u64 maximum; exact probe count |
| `Bounds.FindUpperBracket` | src/trading_venue/bounds.rs:92-116 | doubling stops at the first invalid power or saturates at the u64 maximum |
| `Bounds.BracketsOrdered` | src/trading_venue/bounds.rs:66-116 | lower bracket below upper bracket, so no subtraction underflows |
| `Bounds.RefineLower` | src/trading_venue/bounds.rs:134-180 | the bisection equals its specification; from a width near `2^m` exactly `m - 6` halvings |
| `Bounds.RefineUpper` | src/trading_venue/bounds.rs:196-243 | the same above |
| `Pricing.MeanValueReliableIff` | src/trading_venue/mod.rs:259-268 | on a given range, `p(b) <= chord <= p(a)` holds on every exactly concave curve if and only if `a + h <= b`, or the range is so wide that no curve in u64 has room to bend within the step from `a` |
| `Pricing.MeanValueOnAnyRangeIff` | src/trading_venue/mod.rs:259-268 | with the range left open, if and only if `a + h <= b` |
| `Pricing.MeanValueWithinRounding` | src/quay/quote.rs:119-173 | on a concave curve rounded to atoms the mean-value inequalities hold up to `1/h + 1/(b-a)` |
| `Pricing.MeanValue` | src/quay/quote.rs:162-173 | and without tolerance on an exact curve, up to both ends of the range, backward differences and steps cut off at the u64 maximum included |
| `Pricing.FlooredCurveIsSound` | src/quay/quote.rs:119-127 | flooring a concave curve that gains an atom a step meets the hypotheses with a slack of one |
| `Pricing.PriceReliablyFallsIff` | src/trading_venue/mod.rs:255-257 | the price is non-increasing between two sizes on every exactly concave curve if and only if they are `Comparable` |
| `Pricing.PriceFallsWithinRounding` | src/quay/quote.rs:119-173 | comparable sizes on a curve rounded to atoms: the larger is priced at most `2/h` higher |
| `Pricing.PriceFalls` | src/quay/quote.rs:162-173 | on an exact curve: no higher |
| `Pricing.PriceIsStepSlope` | src/quay/quote.rs:162-173 | the price is within `slack/h` of what it measures: the slope of the step ahead where it fits, else of the step behind, or at the u64 maximum the cut-off gain over a whole step |
| `Pricing.NarrowRangePrice` | src/quay/quote.rs:167-173 | where no step fits on either side the price is the average rate |
| `Pricing.CutOffPrice` | src/quay/quote.rs:162-173 | where saturation cuts the step ahead short, the shorter gain is still divided by the whole step |
| `Pricing.PriceBelowChord` | src/quay/quote.rs:162-173 | the price at `b` is at most the chord from anywhere a step or more below |
| `Pricing.PriceAboveChord` | src/quay/quote.rs:162-173 | the price at `a` is at least the chord to anywhere a step or more above |
| `Pricing.SlopesFall` | src/trading_venue/mod.rs:255-257 | concavity over atoms: later chords are no steeper |
| `Pricing.PriceIsPositive` | src/quay/quote.rs:162-173 | no valid quote is priced 0 on any curve |
| `Pricing.SpotTopsIff` | src/trading_venue/mod.rs:109-118 | on exact curves concave from 0, with room for two probe steps: the zero-amount spot rate tops every marginal price of the range, as the price field promises, if and only if the probe lies in the range |
| `Pricing.SpotPriceTops` | src/quay/quote.rs:132-173 | where the probe fills, the spot rate is at least every marginal price, and every average rate a step or more out, up to the rounding of the steps |
| `Pricing.SpotIsPositiveIff` | src/quay/quote.rs:129-136 | on any curve the spot rate is positive if and only if the curve fills the probe |
| `Pricing.ZeroProbeFails` | src/quay/quote.rs:132-136 | a probe of 0 on a one-for-one curve: the spot rate is 0.0 and every marginal price is 1.0 |
| `VenueProofs.InitializedMeansOneBatch` | src/quay/state.rs:41-229 | after any run of failed, partial, rebinding or successful refreshes, an initialized venue is exactly what one successful batch published, and every later refresh failed |
| `VenueProofs.RefreshIsOneBatch` | src/quay/state.rs:109-229 | a successful refresh publishes headers, halts, tokens, clock and external data that all decode from that one reply |
| `VenueProofs.RebindGoesDark` | src/quay/state.rs:178-205 | rebinding to different accounts leaves the venue uninitialized |
| `VenueProofs.CoveredIff` | src/quay/state.rs:178-205 | external data covers the binding iff it is empty, or unchanged with every slot present |
| `QuayVenue.QuayVenue.RefreshState` | src/quay/state.rs:109-229 | atomic: the new state, or on any error every field as before; errors in source order |
| `QuayVenue.QuayVenue.CollectExtData` | src/quay/state.rs:178-205 | all external data under an unchanged binding, or none |
| `VenueProofs.FetchesSameNine` | src/quay/state.rs:15-97 | over any run of refreshes every fetch asks first for the same nine accounts: the strategy, the ones derived from its header under its owner, and the clock |
| `VenueProofs.RefreshSucceedsIff` | src/quay/state.rs:113-189 | a refresh succeeds if and only if the reply has an account slot for every key and sixteen checks on it hold (presence, decoding, clock length, binding); otherwise it fails with the error of the first that does not |
| `VenueProofs.HaltTakesEffect` | src/quay/state.rs:207-228 | a reply that passes with any freeze or halt set, or not opted in, leaves the venue uninitialized whatever it was before |
| `VenueProofs.WarmupIsHalted` | src/quay/state.rs:61-69 | a new venue fails closed on its halt bytes alone |
| `VenueProofs.InitializedAfterIff` | src/quay/mod.rs:151-177 | after a successful refresh the venue is initialized if and only if the accounts read are opted in with all seven halt bytes clear, no blob is empty, and nothing is bound, or just the external accounts fetched with them and none missing |
| `QuayVenue.ClockFields` | src/quay/mod.rs:55-71 | the clock decoder reads slot and signed seconds back whatever surrounds them |
| `DispatchProofs.MissingStateUnreachable` | src/quay/quote.rs:44-64 | for a venue any run of refreshes can produce, neither quoting nor, once initialized, building fails with `MissingState` |
| `DispatchProofs.InitializedTokens` | src/quay/state.rs:224 | past the gate the tokens are the pair, base first |
| `QuayQuote.ComputeQuote` | src/quay/quote.rs:21-185 | the quote path computes the quote specification: same gates in the same order, side, simulator inputs, spot rate and price branches |
| `QuoteProofs.QuoteAnswers` | src/quay/quote.rs:51-185 | a quote, back to the reply it stands on: the simulator is given that reply's four blobs, clock, decimals and bound accounts, side 0 just when the input is the base mint, the amount and no minimum; its answer is the output, and the price is taken over the strategy's probe for that side |
| `QuoteProofs.QuotesIff` | src/quay/quote.rs:25-49 | a venue quotes if and only if it is initialized and asked for a trade of its pair with an exact input; each refusal has its own error, in order |
| `QuayQuote.FillExtBuffer` | src/quay/quote.rs:77-88 | the first four bound keys, each with its data |
| `DispatchProofs.DispatchedLegIsQuotedSwap` | src/swap_route/mod.rs:123-171 | end to end: a leg built for a quoted request is dispatched with the SDK's own metas, the leg's input and the side the quote priced; the program called is the one the swap was built for, and the one closing the leg, if and only if the venue belongs to the deploy the adapter names |
| `SampleVenue.OtherDeployMisses` | src/quay/state.rs:20-22 | a venue of any other deploy does get to quote, and its leg is dispatched to the adapter's program instead |
| `DispatchProofs.DirectionsAgree` | src/swap_route/mod.rs:88-107 | the only side the simulator is asked about, the side built and the side byte the adapter writes coincide for every quoted request: 0 just when base is sold |
| `QuoteProofs.SwapNames` | src/quay/swap.rs:31-88 | the swap a venue builds names the venue's own accounts, the taker's account of each mint under the program the mint belongs to, the amount asked for, no minimum, and external accounts that were fetched |
| `QuoteProofs.SwapUsesRouteAtas` | src/quay/swap.rs:55-66 | built for a leg between two route mints, the taker's accounts are the route's own ATAs: the one the leg spends from for the input mint, the one it fills for the output mint |
| `QuoteProofs.BuildsIff` | src/quay/swap.rs:31-57 | a swap is built if and only if some refresh has succeeded and the request is a trade of the pair with an exact input |
| `DispatchProofs.BuiltLeg` | src/swap_route/mod.rs:123-171 | a built leg carries the ends and weight asked for, its own account count as a byte, and the swap's accounts with the program id last |
| `DispatchProofs.WalkRecoversIff` | program-template/programs/titan-v3-venue-template/src/instructions/swap_route_v3.rs:207-251 | the on-chain walk finds every built leg in its own slice if and only if no leg has more than 254 venue accounts |
| `DispatchProofs.LegRecovered` | program-template/programs/titan-v3-venue-template/src/instructions/swap_route_v3.rs:209-231 | the slice of leg `k` is exactly what was assembled for it |
| `DispatchProofs.SignersRestoredIff` | src/swap_route/mod.rs:148-171 | dispatch undoes the builder's signer clearing if and only if the TitanPDA signed wherever it appeared; others are untouched, the program id is last |
| `LegBuilder.RouteRoundTripIff` | src/swap_route/mod.rs:177-188 | the program decodes what was encoded if and only if the leg count fits four bytes |
| `LegBuilder.AcceptedIff` | src/swap_route/mod.rs:177-188 | the program accepts data as a given route if and only if the data starts with that route's encoding and its legs number fewer than 2^32; bytes after it are ignored |
| `LegBuilder.EncodeSwapRouteV3Data` | src/swap_route/mod.rs:177-188 | the append loop writes the specified encoding, `14 + 9n` bytes |
| `LegBuilder.RouteLayout` | src/swap_route/mod.rs:177-188 | where every field of every leg stands in the encoding |
| `QuayAdapter.Swap` | program-template/programs/titan-v3-venue-template/src/instructions/venues/quay.rs:22-40 | one instruction of 18 bytes carrying discriminator, input, no minimum, and side |
| `QuayAdapter.SwapDataFields` | program-template/programs/titan-v3-venue-template/src/instructions/venues/quay.rs:22-40 | those fields are read back at their offsets |
| `DispatchProofs.VenueBounds` | src/trading_venue/mod.rs:286-308 | an initialized venue's `bounds` are its curve's range to within 63 and 65 atoms, exact iff on the grids |
| `DispatchProofs.QuotedMeanValue` | src/trading_venue/mod.rs:259-268 | for an initialized venue and amounts a probe step apart inside its reported bounds, the quoted prices bracket the average rate of the quoted outputs, up to rounding |
| `DispatchProofs.QuotedPricesFall` | src/trading_venue/mod.rs:255-257 | inside the reported bounds quoted prices are positive, rise by rounding at most between comparable amounts, and are topped by the zero-amount quote where the probe is in range |
| `DispatchProofs.ValidWhereFilled` | src/trading_venue/bounds.rs:36-38 | a quote counts as valid exactly where the curve fills |
| `RpcCache.AlwaysTransparent` | src/account_caching/rpc_cache.rs:41-160 | after any uses of the cache against one snapshot, a batch read that succeeds equals reading the chain |
| `RpcCache.BatchIsTransparent` | src/account_caching/rpc_cache.rs:114-160 | one batch: each key, repeats included, answered as the chain has it and cached; agreement is kept; no fetch, no failure |
| `RpcCache.SingleReadIff` | src/account_caching/rpc_cache.rs:89-104 | a single read equals the chain lookup if and only if the key is cached, even as missing, or the fetch answers; so a key the chain lacks is an error until a batch has asked for it, and `None` afterwards |
| `RpcCache.MissingCounts` | src/account_caching/rpc_cache.rs:121-134 | the keys sent are those without a present entry, as often as asked |
| `RpcCache.MissingInOrder` | src/account_caching/rpc_cache.rs:121-134 | and in the order asked |
| `RpcCache.BatchAsksOnlyMissing` | src/account_caching/rpc_cache.rs:136-142 | of the RPC only its answer to the list of missing keys matters, and with nothing missing not even that |
| `RpcCache.BatchAnswers` | src/account_caching/rpc_cache.rs:114-160 | with any RPC: a batch fails just when its one call does and then changes nothing; an account held is the answer and stays; every other key asked for is answered and cached as the reply has it |
| `RpcCache.SingleReadStays` | src/account_caching/rpc_cache.rs:89-104 | a single read that succeeds is given again by the next without a fetch; one that fails leaves nothing; no other key changes |
| `RpcCache.KnownMissingIsSent` | src/account_caching/rpc_cache.rs:67-78 | a key cached as missing is sent again |
| `RpcCache.RpcClientCache.GetAccounts` | src/account_caching/rpc_cache.rs:114-160 | cache and answer are the batch specification's; the last lookup never fails |
| `RpcCache.RpcClientCache.SplitHits` | src/account_caching/rpc_cache.rs:121-134 | every asked key is a hit or goes to the fetch list |
| `RpcCache.RpcClientCache.StoreReply` | src/account_caching/rpc_cache.rs:136-149 | the reply is recorded in order, and the result map agrees with the cache |
| `RpcCache.RpcClientCache.GetMultiple` | src/account_caching/rpc_cache.rs:67-78 | key by key what the cache holds, nothing for unknown and known-missing alike |
| `RpcCache.RpcClientCache.GetAccount` | src/account_caching/rpc_cache.rs:89-104 | a cached entry is returned as is, a fetched account is kept, a failed fetch changes nothing |
| `RpcCache.RpcClientCache.ResetCache` | src/account_caching/rpc_cache.rs:56-58 | empties the cache |
| `DispatchProofs.RefreshedFromChain` | src/quay/state.rs:109-229 | a refresh through an honest cache stores blobs, clock and external data as the chain has them at their keys, and tokens decoded from the chain's two mints |

## Left out

- The Quay simulator, header decoders, PDA derivation and SDK instruction builder: code of other crates, taken as parameters; the simulator is only assumed to refuse 0 and never to fill with 0, as src/quay/quote.rs assumes.
- Floating-point rounding of prices: reals stand for `f64`.
- The token programs beyond exact transfers, creation, closing and native sync: freezing, delegates, close authorities, transfer fees, and the payer's rent debits.
- Raw account bytes: a token or mint account is the fields at the offsets the route reads, while instruction data, the token ledger and the clock are bytes.
- The transaction context passed to the simulator (router id, depth, flags): constants that no branch depends on.
- The runtime's limits on what a venue may write: an arbitrary venue is any function of the ledger, also of accounts it was not passed.
- Privilege merging of duplicate account metas, compute budgets, logging and allocation.
- `RpcClientCache` concurrency: each cache call is one atomic step, and its RPC replies do not interleave with other calls.
- `get_lookup_table_keys`, `parse_pool_creations`, protocol labels, error texts, `directions_num` and `TokenInfo` extension parsing: simple mappings; errors are compared by variant.
