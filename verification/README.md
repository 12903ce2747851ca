# Lending-market indexer: derived state and the kinked borrow rate

A Dafny model of the derived-state engine of the PuLend indexer, a Graph
subgraph that turns lending-pool and interest-rate-model events into
`Market`, `InterestRateModelConfig` and `UserLiquidity` records.

- `bigint_math.dfy` (`BigIntMath`): graph-ts `BigInt` on `int`. `TDiv` is
  `BigInt.div`, which truncates toward zero. Its contract determines the
  quotient completely (`TDivUnique`).
- `schema.dfy` (`Schema`): the three entity kinds and the store. The store is
  one immutable map per kind, from id to record.
- `rate_curve.dfy` (`RateCurve`): the two-segment curve of `updateBorrowRate`
  as a pure function (`Utilization`, `RateAt`, `Kinked`). The lemmas cover its
  anchor points (zero, kink, full utilization), its bounds, its monotonicity
  and the two worked examples. "Ordered parameters" (`Ordered`) means
  `0 <= baseRate <= rateAtOptimal <= scale` and `optimalUtilization <= scale`.
- `utils.dfy` (`Utils`): `BIGINT_ZERO`, `BIGINT_WAD`, the two get-or-create
  accessors, and `updateBorrowRate` as a store transformer, including the
  config it may create. `Consistent`/`AllConsistent` say that cached rates
  agree with their inputs.
- `interest_rate_model.dfy` (`InterestRateModel`): the four curve-parameter
  setters and the scale setter.
- `lending_pool.dfy` (`LendingPool`): the link setter, the market refresh
  behind borrow, repay and liquidation, and the liquidity supply and
  withdraw updates.
- `indexer.dfy` (`Indexer`): the events applied in order. Every event except
  the scale and liquidity events keeps all cached rates consistent.

Every handler is a function `Store -> Store`. The handlers that are not
purely about markets take the answers of their external collaborators as
parameters.

Three behaviours of the code that a reader might not expect:
- `getOrCreateMarket` sets no `users` and no `depositCap` on a new market, and
  the position accessor is not part of this model, so `Market` has neither
  field.
- `handleScaledPercentageSet` recomputes no market. A market linked to that
  config keeps the rate it had at the old scale until another event
  recomputes it (`ScaleSetCanLeaveLinkedMarketStale`).
- `BigInt` is signed and the liquidity withdraw subtracts without a guard, so
  a balance can go negative (`WithdrawCanGoNegative`).

## Model

| member | source | states |
|---|---|---|
| `BigIntMath.TDiv` | src/utils.ts:48-69 | `BigInt.div` truncates toward zero: `q * b` is no larger than `a` in magnitude, is on the same side of zero as `a`, and is less than one divisor away from it |
| `BigIntMath.TDivUnique` | src/utils.ts:48-69 | any quotient meeting that contract equals `TDiv`, so the contract is a full description of truncating division |
| `BigIntMath.TDivExact` | src/utils.ts:57 | dividing `k * b` by `b` gives back exactly `k`, for any signs |
| `RateCurve.Utilization` | src/utils.ts:48 | utilization is `borrow * scale / supply` under truncating division: the product `u * supply` is within one `supply` of `borrow * scale` in magnitude, and for non-negative operands it equals Euclidean division |
| `RateCurve.RateAt` | src/utils.ts:51-72 | zero `optimalUtilization` in the normal regime gives `baseRate`; zero `scale - optimalUtilization` in the excess regime gives `rateAtOptimal` |
| `RateCurve.Kinked` | src/utils.ts:35-72 | zero supply or zero borrow gives utilization 0 and `baseRate`, whatever the other inputs; otherwise the rate is the curve at `borrow * scale / supply` |
| `RateCurve.RateAtZero` | src/utils.ts:51-59 | with `optimalUtilization >= 0`, the curve gives `baseRate` at zero utilization |
| `RateCurve.RateAtKink` | src/utils.ts:51-59 | at `utilization == optimalUtilization > 0` the rate is exactly `rateAtOptimal`, with no rounding loss |
| `RateCurve.RateAtFull` | src/utils.ts:60-72 | at `utilization == scale > optimalUtilization` the rate is exactly `scale` |
| `RateCurve.NormalSegment` | src/utils.ts:51-59 | with ordered parameters, the normal segment stays within `[baseRate, rateAtOptimal]`, and truncation agrees with Euclidean division there |
| `RateCurve.ExcessSegment` | src/utils.ts:60-72 | with ordered parameters, the excess segment starts at `rateAtOptimal` or above, stays at most `scale` up to full utilization, and truncation agrees with Euclidean division; a kink at the scale gives `rateAtOptimal` (the `maxExcessUtilization == 0` fallback) |
| `RateCurve.ExcessBelowScale` | src/utils.ts:60-72 | with the kink strictly below the scale and `rateAtOptimal <= scale`, the excess rate is at least `rateAtOptimal`, at most `scale` up to full utilization, and equals the Euclidean formula |
| `RateCurve.RateAtBounds` | src/utils.ts:51-72 | if `0 <= baseRate <= rateAtOptimal <= scale`, `optimalUtilization <= scale` and `0 <= u <= scale`, then `baseRate <= rate <= scale` |
| `RateCurve.RateAtMonotone` | src/utils.ts:51-72 | with `0 <= baseRate <= rateAtOptimal <= scale` and `optimalUtilization <= scale`, the rate never decreases as utilization grows, for every `u >= 0`, across the kink and through the `maxExcessUtilization == 0` fallback |
| `RateCurve.NormalMonotone` | src/utils.ts:51-59 | with `baseRate <= rateAtOptimal`, the normal segment never decreases and stays within `[baseRate, rateAtOptimal]` |
| `RateCurve.ExcessMonotone` | src/utils.ts:60-72 | with the kink below the scale and `rateAtOptimal <= scale`, the excess segment never decreases and starts at `rateAtOptimal` or above |
| `RateCurve.RateAtMonotoneOnScale` | src/utils.ts:51-72 | with `baseRate <= rateAtOptimal <= scale`, the rate never decreases on `[0, scale]`, wherever the kink lies (below zero, inside, at or above the scale) |
| `RateCurve.RateAboveScaleCanFall` | src/utils.ts:60-70 | above the scale with a kink past the scale the excess divisor is negative and the rate falls: 50 at utilization 200, 0 at 300 |
| `RateCurve.UtilizationBounds` | src/utils.ts:48 | with `0 <= borrow <= supply`, utilization lies in `[0, scale]` |
| `RateCurve.UtilizationMonotone` | src/utils.ts:48 | utilization never decreases as the borrowed total grows |
| `RateCurve.KinkedBounds` | src/utils.ts:35-72 | with ordered parameters and `0 <= borrow <= supply`, the computed rate lies in `[baseRate, scale]` and utilization lies in `[0, scale]` |
| `RateCurve.KinkedMonotoneInBorrow` | src/utils.ts:35-72 | with ordered parameters and a fixed positive supply, the rate never decreases in `totalBorrowAssets`, including the step out of the zero-borrow fallback |
| `RateCurve.TruncationExample` | src/utils.ts:56-58 | on a falling curve the negative slope term rounds toward zero (rate 7), not down (6) |
| `RateCurve.NormalRegimeExample` | src/utils.ts:48-58 | base 0, 8% at an 80% kink, scale 1.0, 50 of 100 borrowed: utilization 50%, rate 5% |
| `RateCurve.ExcessRegimeExample` | src/utils.ts:60-70 | the same market with 90 of 100 borrowed: utilization 90%, rate 54% |
| `Utils.GetOrCreateMarket` | src/utils.ts:7-22 | an existing market is returned and the store is unchanged; an unseen id gets a market with all eight numeric fields 0 and no link; afterwards exactly the returned record is stored under the id and nothing else differs |
| `Utils.GetOrCreateConfig` | src/utils.ts:24-32 | an existing config is returned and the store is unchanged; an unseen id gets `scaledPercentage == WAD`; nothing else differs |
| `Utils.GetOrCreateMarketIdempotent` | src/utils.ts:7-22 | a second lookup of the same id returns the same record and changes nothing |
| `Utils.GetOrCreateConfigIdempotent` | src/utils.ts:24-32 | a second lookup of the same id returns the same record and changes nothing |
| `Utils.ResolveScale` | src/utils.ts:42-46 | the scale is the linked config's `scaledPercentage`, or `WAD` with no link or a missing config; at most that missing config is created |
| `Utils.GrowthKeepsScales` | src/utils.ts:42-46 | creating a missing config with the `WAD` default changes no link's resolved scale |
| `Utils.Recompute` | src/utils.ts:34-72 | only `utilization` and `borrowRate` change, and they equal the curve over the market's fields; with a zero total, no config is read and the store is unchanged |
| `Utils.UpdateBorrowRate` | src/utils.ts:34-75 | after the save the market is consistent, only its two derived fields differ from the input, other markets and all positions are untouched, and no link's scale changes |
| `Utils.UpdateBorrowRateKeepsOthersConsistent` | src/utils.ts:34-75 | recomputing one market keeps every market's cached rate consistent |
| `Utils.RecomputeIgnoresMaxUtilization` | src/utils.ts:34-75 | markets that differ only in `maxUtilization` recompute to the same store and derived fields |
| `Utils.ZeroAssetsReadNoConfig` | src/utils.ts:35-40 | with a zero total, the config table is untouched, utilization is 0 and the rate is `baseRate` |
| `Utils.MissingLinkedConfigIsCreated` | src/utils.ts:42-49 | with non-zero totals and a link to a missing config, that config is created with `WAD` and utilization is `borrow * WAD / supply` |
| `InterestRateModel.SetCurveParam` | src/interest-rate-model.ts:55-58 | the written parameter holds the new value; the other parameters, totals and link are as before or as created; the market is consistent; other markets and positions are unchanged; at most the linked config is created |
| `InterestRateModel.HandleLendingPoolBaseRateSet` | src/interest-rate-model.ts:55-58 | the market of the event's `lendingPool` changes `baseRate := rate` plus the recomputed derived fields; the rate equals the curve over the new base rate; nothing else changes except a possibly created linked config |
| `InterestRateModel.HandleLendingPoolMaxUtilizationSet` | src/interest-rate-model.ts:76-79 | `maxUtilization := utilization`; the derived fields equal the curve over the market before the write |
| `InterestRateModel.HandleLendingPoolOptimalUtilizationSet` | src/interest-rate-model.ts:97-100 | `optimalUtilization := utilization`; the derived fields equal the curve over the new kink |
| `InterestRateModel.HandleLendingPoolRateAtOptimalSet` | src/interest-rate-model.ts:118-121 | `rateAtOptimal := rate`; the derived fields equal the curve over the new rate |
| `InterestRateModel.HandleScaledPercentageSet` | src/interest-rate-model.ts:183-185 | the emitter's config holds the new percentage and is created if absent; other configs, every market and every position are unchanged |
| `InterestRateModel.SetterOnUnseenPool` | src/interest-rate-model.ts:55-58 | on an unseen pool the result is the zero market with the one field written, utilization 0, the rate equal to the new base rate (or 0), and no config created |
| `InterestRateModel.MaxUtilizationSetIsPlainRecompute` | src/interest-rate-model.ts:76-79 | the max-utilization event gives the store a plain recompute gives, except for `maxUtilization` on that one market |
| `InterestRateModel.SetCurveParamKeepsConsistency` | src/interest-rate-model.ts:55-121 | if every market was consistent before a setter, every market is consistent after it |
| `InterestRateModel.ScaleSetKeepsUnlinkedConsistent` | src/interest-rate-model.ts:183-185 | a market not linked to the emitter stays consistent |
| `InterestRateModel.ScaleSetCanLeaveLinkedMarketStale` | src/interest-rate-model.ts:183-185 | a linked market consistent before the scale event can be stale after it, because nothing recomputes it |
| `LendingPool.UpdateMarketData` | src/lending-pool.ts:61 | each total that was read is overwritten and a failed read keeps the prior value; no other field changes except the derived ones; the market is consistent; other markets and positions are untouched |
| `LendingPool.UpdateMarketDataKeepsConsistency` | src/lending-pool.ts:61 | the refresh keeps every market's cached rate consistent |
| `LendingPool.HandleInterestRateModelSet` | src/lending-pool.ts:117-120 | the emitter's market gets `interestRateModel := Some(irm)` and derived fields equal to the curve at the scale that link resolves to; nothing else changes except a possibly created config for `irm` |
| `LendingPool.InterestRateModelSetKeepsConsistency` | src/lending-pool.ts:117-120 | the link event keeps every market's cached rate consistent |
| `LendingPool.InterestRateModelSetScale` | src/lending-pool.ts:117-120 | with non-zero totals, utilization uses the linked config's percentage if it exists; otherwise the config is created and `WAD` is used |
| `LendingPool.HandleBorrow` | src/lending-pool.ts:61 | no position changes; the emitter's market is refreshed and consistent; other markets are untouched |
| `LendingPool.HandleRepay` | src/lending-pool.ts:198 | no position changes; the emitter's market is refreshed and consistent; other markets are untouched |
| `LendingPool.HandleLiquidation` | src/lending-pool.ts:141 | no position changes; the emitter's market is refreshed and consistent; other markets are untouched |
| `LendingPool.Deposit` | src/lending-pool.ts:301-303 | deposited and balance each grow by exactly `amount`, withdrawn is kept, the token is overwritten, and the drift `balance - (deposited - withdrawn)` is preserved |
| `LendingPool.Withdrawal` | src/lending-pool.ts:375-376 | withdrawn grows and balance shrinks by exactly `amount`, deposited and token are kept, and the drift is preserved; the balance is negative exactly when `amount` exceeds it |
| `LendingPool.HandleSupplyLiquidity` | src/lending-pool.ts:288-304 | relative to the record after the yield step, deposited and balance grow by `amount`, withdrawn is kept and the token is the event's; if the yield step kept the counters, the drift is what the lookup found; nothing else changes after the yield step |
| `LendingPool.HandleWithdrawLiquidity` | src/lending-pool.ts:362-377 | relative to the record after the yield step, withdrawn grows and balance shrinks by `amount`, with no underflow guard; deposited and token are kept; the drift is kept as for supply |
| `LendingPool.SupplyThenWithdrawExample` | src/lending-pool.ts:375-376 | a fresh position supplied 100 and then withdrawn 40 holds 100 deposited, 40 withdrawn, 60 balance |
| `LendingPool.WithdrawCanGoNegative` | src/lending-pool.ts:376 | withdrawing 40 from a balance of 30 leaves -10 |
| `Indexer.ApplyMarketEvent` | src/interest-rate-model.ts:40-122 | each curve setter here, and each link, borrow, repay or liquidation event of src/lending-pool.ts (lines 47-199), keeps all cached rates consistent, touches no position and deletes no market |
| `Indexer.ProcessMarketEvents` | src/lending-pool.ts:47-199 | over any stream mixing these pool events with the curve setters of src/interest-rate-model.ts (lines 40-122), all cached rates stay consistent, positions are untouched and no market disappears |

## Left out

- Audit records: every handler also saves a one-to-one copy of the event, keyed by transaction hash and log index. This copies fields and has no logic.
- Handlers that only write an audit record: Initialized, the role events, Paused, Unpaused, Upgraded, BorrowTokenSet, CollateralTokenSet, LtvSet, MinSupplyAmountSet, RouterSet, SupplyCollateral and WithdrawCollateral. None of them touches a market, config or position.
- The body of `updateMarketData` is not part of this model. Its on-chain reads are I/O, so the reads are parameters. It is modelled on an assumption: it gets or creates the market, overwrites each total whose read succeeded, saves, and recomputes.
- The bodies of `getOrCreateUserLiquidity` and `updateUserYield` are not part of this model. They are arbitrary function parameters, so the model assumes no key scheme, no `users` counter and no yield formula. Any yield fields of the position record are left out with them.
- LendingPool.HandleSupplyLiquidity: the drift is preserved only when the yield step keeps the three counters. Nothing is known about that step, so the guarantee goes no further.
- LendingPool.HandleWithdrawLiquidity: the same condition on the yield step applies.
- The Graph store's load/save mechanics and the generated schema classes are replaced by immutable maps. A record is saved under the key it was loaded with.
- `Market.users` and `Market.depositCap` are left out, because no code shown reads or writes them.
- The tests directory holds only mock-event builders, with no assertions.
