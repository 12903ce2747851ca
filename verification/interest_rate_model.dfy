/**
 The state-changing part of the `InterestRateModel` contract's handlers
 (`src/interest-rate-model.ts`).

 Four events each overwrite one curve parameter of the market named by the
 event's `lendingPool` parameter (not the emitting contract) and recompute
 its rate. The scale event overwrites the emitter's config and recomputes
 nothing. The audit records the handlers also write are not modelled.
 */
module InterestRateModel {
  import opened Schema
  import opened RateCurve
  import opened Utils

  /** The market field a configuration event writes. */
  datatype CurveParam = BaseRate | OptimalUtilization | RateAtOptimal | MaxUtilization

  function WriteParam(m: Market, p: CurveParam, v: int): Market {
    match p
    case BaseRate => m.(baseRate := v)
    case OptimalUtilization => m.(optimalUtilization := v)
    case RateAtOptimal => m.(rateAtOptimal := v)
    case MaxUtilization => m.(maxUtilization := v)
  }

  function ReadParam(m: Market, p: CurveParam): int {
    match p
    case BaseRate => m.baseRate
    case OptimalUtilization => m.optimalUtilization
    case RateAtOptimal => m.rateAtOptimal
    case MaxUtilization => m.maxUtilization
  }

  /** The shape shared by the four setters: get-or-create the pool's market,
      write one parameter, save, recompute. Afterwards the pool's market holds
      `v` in that parameter and its other inputs as before (or as created),
      its derived fields agree with the curve, and every other market and
      every position is untouched. A config may appear only through the
      recompute's lookup of the market's link. */
  function SetCurveParam(s: Store, pool: Bytes, p: CurveParam, v: int): (s': Store)
    ensures pool in s'.markets
    ensures var before, after := MarketOrDefault(s, pool), s'.markets[pool];
      && ReadParam(after, p) == v
      && after == WriteParam(before, p, v).(utilization := after.utilization, borrowRate := after.borrowRate)
      && RateState(after.utilization, after.borrowRate) == Expected(s, after)
      && ConfigsGrowOnlyBy(s, s', before.interestRateModel)
    ensures Consistent(s', pool)
    ensures s'.markets.Keys == s.markets.Keys + {pool}
    ensures forall k :: k in s.markets && k != pool ==> s'.markets[k] == s.markets[k]
    ensures s'.positions == s.positions
  {
    var (s1, m) := GetOrCreateMarket(s, pool);
    var m1 := WriteParam(m, p, v);
    var s2 := SaveMarket(s1, pool, m1);
    UpdateBorrowRate(s2, pool, m1)
  }

  /** `handleLendingPoolBaseRateSet`: `baseRate := rate` on the market keyed by
      the event's `lendingPool`, then recompute over the updated record. */
  function HandleLendingPoolBaseRateSet(s: Store, lendingPool: Bytes, rate: int): (s': Store)
    ensures lendingPool in s'.markets
    ensures var before, after := MarketOrDefault(s, lendingPool), s'.markets[lendingPool];
      after == before.(baseRate := rate, utilization := after.utilization, borrowRate := after.borrowRate)
      && RateState(after.utilization, after.borrowRate)
         == Kinked(before.totalBorrowAssets, before.totalSupplyAssets, ScaleOf(s, before.interestRateModel),
                   rate, before.optimalUtilization, before.rateAtOptimal)
    ensures s'.markets.Keys == s.markets.Keys + {lendingPool}
    ensures forall k :: k in s.markets && k != lendingPool ==> s'.markets[k] == s.markets[k]
    ensures s'.positions == s.positions
    ensures ConfigsGrowOnlyBy(s, s', MarketOrDefault(s, lendingPool).interestRateModel)
  {
    var s' := SetCurveParam(s, lendingPool, BaseRate, rate);
    ScaleUnchanged(s, s', MarketOrDefault(s, lendingPool).interestRateModel);
    s'
  }

  /** `handleLendingPoolMaxUtilizationSet`: `maxUtilization := utilization` on
      the pool's market, then recompute. */
  function HandleLendingPoolMaxUtilizationSet(s: Store, lendingPool: Bytes, utilization: int): (s': Store)
    ensures lendingPool in s'.markets
    ensures var before, after := MarketOrDefault(s, lendingPool), s'.markets[lendingPool];
      after == before.(maxUtilization := utilization, utilization := after.utilization, borrowRate := after.borrowRate)
      && RateState(after.utilization, after.borrowRate) == Expected(s, before)
    ensures s'.markets.Keys == s.markets.Keys + {lendingPool}
    ensures forall k :: k in s.markets && k != lendingPool ==> s'.markets[k] == s.markets[k]
    ensures s'.positions == s.positions
    ensures ConfigsGrowOnlyBy(s, s', MarketOrDefault(s, lendingPool).interestRateModel)
  {
    var s' := SetCurveParam(s, lendingPool, MaxUtilization, utilization);
    ScaleUnchanged(s, s', MarketOrDefault(s, lendingPool).interestRateModel);
    s'
  }

  /** `handleLendingPoolOptimalUtilizationSet`: `optimalUtilization :=
      utilization` on the pool's market, then recompute. */
  function HandleLendingPoolOptimalUtilizationSet(s: Store, lendingPool: Bytes, utilization: int): (s': Store)
    ensures lendingPool in s'.markets
    ensures var before, after := MarketOrDefault(s, lendingPool), s'.markets[lendingPool];
      after == before.(optimalUtilization := utilization, utilization := after.utilization, borrowRate := after.borrowRate)
      && RateState(after.utilization, after.borrowRate)
         == Kinked(before.totalBorrowAssets, before.totalSupplyAssets, ScaleOf(s, before.interestRateModel),
                   before.baseRate, utilization, before.rateAtOptimal)
    ensures s'.markets.Keys == s.markets.Keys + {lendingPool}
    ensures forall k :: k in s.markets && k != lendingPool ==> s'.markets[k] == s.markets[k]
    ensures s'.positions == s.positions
    ensures ConfigsGrowOnlyBy(s, s', MarketOrDefault(s, lendingPool).interestRateModel)
  {
    var s' := SetCurveParam(s, lendingPool, OptimalUtilization, utilization);
    ScaleUnchanged(s, s', MarketOrDefault(s, lendingPool).interestRateModel);
    s'
  }

  /** `handleLendingPoolRateAtOptimalSet`: `rateAtOptimal := rate` on the
      pool's market, then recompute. */
  function HandleLendingPoolRateAtOptimalSet(s: Store, lendingPool: Bytes, rate: int): (s': Store)
    ensures lendingPool in s'.markets
    ensures var before, after := MarketOrDefault(s, lendingPool), s'.markets[lendingPool];
      after == before.(rateAtOptimal := rate, utilization := after.utilization, borrowRate := after.borrowRate)
      && RateState(after.utilization, after.borrowRate)
         == Kinked(before.totalBorrowAssets, before.totalSupplyAssets, ScaleOf(s, before.interestRateModel),
                   before.baseRate, before.optimalUtilization, rate)
    ensures s'.markets.Keys == s.markets.Keys + {lendingPool}
    ensures forall k :: k in s.markets && k != lendingPool ==> s'.markets[k] == s.markets[k]
    ensures s'.positions == s.positions
    ensures ConfigsGrowOnlyBy(s, s', MarketOrDefault(s, lendingPool).interestRateModel)
  {
    var s' := SetCurveParam(s, lendingPool, RateAtOptimal, rate);
    ScaleUnchanged(s, s', MarketOrDefault(s, lendingPool).interestRateModel);
    s'
  }

  lemma ScaleUnchanged(s: Store, s': Store, link: Option<Bytes>)
    requires ConfigsGrowOnlyBy(s, s', link)
    ensures ScaleOf(s', link) == ScaleOf(s, link)
  {
    GrowthKeepsScales(s, s', link, link);
  }

  /** `handleScaledPercentageSet`: the emitter's config gets the new scale,
      created first with the 1.0 default if absent. No market is recomputed,
      so every market and every position is left exactly as it was. */
  function HandleScaledPercentageSet(s: Store, emitter: Bytes, percentage: int): (s': Store)
    ensures emitter in s'.configs && s'.configs[emitter].scaledPercentage == percentage
    ensures s'.configs.Keys == s.configs.Keys + {emitter}
    ensures forall k :: k in s.configs && k != emitter ==> s'.configs[k] == s.configs[k]
    ensures s'.markets == s.markets && s'.positions == s.positions
  {
    var (s1, config) := GetOrCreateConfig(s, emitter);
    SaveConfig(s1, emitter, config.(scaledPercentage := percentage))
  }

  /** A setter on a pool never seen before acts on the all-zero market: with
      both totals zero the rate is the (new) base rate, utilization is zero,
      and no config is read or created. */
  lemma {:induction false} SetterOnUnseenPool(s: Store, pool: Bytes, p: CurveParam, v: int)
    requires pool !in s.markets
    ensures var s' := SetCurveParam(s, pool, p, v);
      && s'.markets[pool] == WriteParam(DEFAULT_MARKET, p, v).(
           utilization := 0,
           borrowRate := if p == BaseRate then v else 0)
      && s'.configs == s.configs
  {
  }

  /** The max-utilization event leaves the derived fields exactly where a plain
      recompute of the unchanged market puts them: the two stores differ only
      in that one field of that one market. */
  lemma {:induction false} MaxUtilizationSetIsPlainRecompute(s: Store, pool: Bytes, utilization: int)
    ensures var (s1, m) := GetOrCreateMarket(s, pool);
      var refreshed := UpdateBorrowRate(s1, pool, m);
      var s' := HandleLendingPoolMaxUtilizationSet(s, pool, utilization);
      && s'.configs == refreshed.configs
      && s'.positions == refreshed.positions
      && s'.markets == refreshed.markets[pool := refreshed.markets[pool].(maxUtilization := utilization)]
  {
    var (s1, m) := GetOrCreateMarket(s, pool);
    var m1 := m.(maxUtilization := utilization);
    RecomputeIgnoresMaxUtilization(SaveMarket(s1, pool, m1), m, utilization);
    assert SaveMarket(s1, pool, m1).configs == s1.configs;
  }

  /** Every setter keeps every market's cached rate consistent with its
      inputs: the target is recomputed, the others are untouched, and no
      link's scale changes. */
  lemma {:induction false} SetCurveParamKeepsConsistency(s: Store, pool: Bytes, p: CurveParam, v: int)
    requires AllConsistent(s)
    ensures AllConsistent(SetCurveParam(s, pool, p, v))
  {
    var s' := SetCurveParam(s, pool, p, v);
    var link := MarketOrDefault(s, pool).interestRateModel;
    forall k | k in s'.markets ensures Consistent(s', k) {
      if k != pool {
        assert s'.markets[k] == s.markets[k];
        assert Consistent(s, k);
        GrowthKeepsScales(s, s', link, s.markets[k].interestRateModel);
      }
    }
  }

  /** Changing a scale leaves markets linked elsewhere consistent. */
  lemma {:induction false} ScaleSetKeepsUnlinkedConsistent(s: Store, emitter: Bytes, percentage: int, id: Bytes)
    requires id in s.markets && Consistent(s, id)
    requires s.markets[id].interestRateModel != Some(emitter)
    ensures Consistent(HandleScaledPercentageSet(s, emitter, percentage), id)
  {
  }

  /** A market linked to the emitter keeps a stale rate after a scale change:
      here it was consistent at scale 1.0 (half borrowed, 50% utilization)
      and is no longer consistent at scale 2.0. */
  lemma ScaleSetCanLeaveLinkedMarketStale()
    ensures var irm: Bytes := [1];
      var pool: Bytes := [2];
      var m := Market(50, 100, 0, 0, 0, 0, BIGINT_WAD / 2, BIGINT_WAD / 2, Some(irm));
      var s := Store(map[pool := m], map[irm := DEFAULT_CONFIG], map[]);
      var s' := HandleScaledPercentageSet(s, irm, 2 * BIGINT_WAD);
      Consistent(s, pool) && !Consistent(s', pool)
  {
    assert Utilization(50, 100, BIGINT_WAD) == BIGINT_WAD / 2;
    assert Utilization(50, 100, 2 * BIGINT_WAD) == BIGINT_WAD;
  }
}
