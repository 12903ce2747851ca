/**
 The indexer as a whole: the state-changing events of both contracts,
 applied to the store one at a time in arrival order.
 */
module Indexer {
  import opened Schema
  import opened Utils
  import InterestRateModel
  import LendingPool

  /** The events whose handlers change derived state, with the parameters
      those handlers use. `emitter` is the address of the contract that
      emitted the event; the lending-pool events also carry what the
      pool's totals read back as. */
  datatype Event =
    | LendingPoolBaseRateSet(lendingPool: Bytes, rate: int)
    | LendingPoolMaxUtilizationSet(lendingPool: Bytes, utilization: int)
    | LendingPoolOptimalUtilizationSet(lendingPool: Bytes, utilization: int)
    | LendingPoolRateAtOptimalSet(lendingPool: Bytes, rate: int)
    | ScaledPercentageSet(emitter: Bytes, percentage: int)
    | InterestRateModelSet(emitter: Bytes, interestRateModel: Bytes)
    | Borrow(emitter: Bytes, fetched: LendingPool.TotalsRead)
    | Repay(emitter: Bytes, fetched: LendingPool.TotalsRead)
    | Liquidation(emitter: Bytes, fetched: LendingPool.TotalsRead)
    | SupplyLiquidity(emitter: Bytes, user: Bytes, token: Bytes, amount: int, timestamp: int,
                      fetched: LendingPool.TotalsRead)
    | WithdrawLiquidity(emitter: Bytes, user: Bytes, token: Bytes, amount: int, timestamp: int,
                        fetched: LendingPool.TotalsRead)

  /** One event's handler. */
  function Apply(c: LendingPool.Collaborators, s: Store, e: Event): Store {
    match e
    case LendingPoolBaseRateSet(pool, rate) => InterestRateModel.HandleLendingPoolBaseRateSet(s, pool, rate)
    case LendingPoolMaxUtilizationSet(pool, u) => InterestRateModel.HandleLendingPoolMaxUtilizationSet(s, pool, u)
    case LendingPoolOptimalUtilizationSet(pool, u) => InterestRateModel.HandleLendingPoolOptimalUtilizationSet(s, pool, u)
    case LendingPoolRateAtOptimalSet(pool, rate) => InterestRateModel.HandleLendingPoolRateAtOptimalSet(s, pool, rate)
    case ScaledPercentageSet(emitter, percentage) => InterestRateModel.HandleScaledPercentageSet(s, emitter, percentage)
    case InterestRateModelSet(emitter, irm) => LendingPool.HandleInterestRateModelSet(s, emitter, irm)
    case Borrow(emitter, fetched) => LendingPool.HandleBorrow(s, emitter, fetched)
    case Repay(emitter, fetched) => LendingPool.HandleRepay(s, emitter, fetched)
    case Liquidation(emitter, fetched) => LendingPool.HandleLiquidation(s, emitter, fetched)
    case SupplyLiquidity(emitter, user, token, amount, timestamp, fetched) =>
      LendingPool.HandleSupplyLiquidity(c, s, emitter, user, token, amount, timestamp, fetched)
    case WithdrawLiquidity(emitter, user, token, amount, timestamp, fetched) =>
      LendingPool.HandleWithdrawLiquidity(c, s, emitter, user, token, amount, timestamp, fetched)
  }

  /** A stream of events, applied in order. */
  function Process(c: LendingPool.Collaborators, s: Store, events: seq<Event>): Store
    decreases |events|
  {
    if |events| == 0 then s else Process(c, Apply(c, s, events[0]), events[1..])
  }

  /** Events that recompute every market whose inputs they change and do not
      reach the position collaborators: all but the scale event and the two
      liquidity events. */
  predicate MarketEvent(e: Event) {
    !(e.ScaledPercentageSet? || e.SupplyLiquidity? || e.WithdrawLiquidity?)
  }

  /** Each market event keeps every cached rate consistent, leaves the
      positions alone, and deletes no market. */
  lemma {:induction false} ApplyMarketEvent(c: LendingPool.Collaborators, s: Store, e: Event)
    requires MarketEvent(e) && AllConsistent(s)
    ensures var s' := Apply(c, s, e);
      AllConsistent(s') && s'.positions == s.positions && s.markets.Keys <= s'.markets.Keys
  {
    match e
    case LendingPoolBaseRateSet(pool, rate) =>
      InterestRateModel.SetCurveParamKeepsConsistency(s, pool, InterestRateModel.BaseRate, rate);
    case LendingPoolMaxUtilizationSet(pool, u) =>
      InterestRateModel.SetCurveParamKeepsConsistency(s, pool, InterestRateModel.MaxUtilization, u);
    case LendingPoolOptimalUtilizationSet(pool, u) =>
      InterestRateModel.SetCurveParamKeepsConsistency(s, pool, InterestRateModel.OptimalUtilization, u);
    case LendingPoolRateAtOptimalSet(pool, rate) =>
      InterestRateModel.SetCurveParamKeepsConsistency(s, pool, InterestRateModel.RateAtOptimal, rate);
    case InterestRateModelSet(emitter, irm) =>
      LendingPool.InterestRateModelSetKeepsConsistency(s, emitter, irm);
    case Borrow(emitter, fetched) =>
      LendingPool.UpdateMarketDataKeepsConsistency(s, emitter, fetched);
    case Repay(emitter, fetched) =>
      LendingPool.UpdateMarketDataKeepsConsistency(s, emitter, fetched);
    case Liquidation(emitter, fetched) =>
      LendingPool.UpdateMarketDataKeepsConsistency(s, emitter, fetched);
  }

  /** Over any stream of market events, cached rates stay consistent with
      their inputs, no position changes, and no market disappears. */
  lemma {:induction false} ProcessMarketEvents(c: LendingPool.Collaborators, s: Store, events: seq<Event>)
    requires AllConsistent(s)
    requires forall i :: 0 <= i < |events| ==> MarketEvent(events[i])
    ensures var s' := Process(c, s, events);
      AllConsistent(s') && s'.positions == s.positions && s.markets.Keys <= s'.markets.Keys
    decreases |events|
  {
    if |events| > 0 {
      ApplyMarketEvent(c, s, events[0]);
      ProcessMarketEvents(c, Apply(c, s, events[0]), events[1..]);
    }
  }
}
