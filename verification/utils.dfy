/**
 The store accessors and the rate recomputation of `src/utils.ts`.

 `getOrCreateMarket` and `getOrCreateInterestRateModelConfig` either return
 the stored record untouched or create one with fixed defaults.
 `updateBorrowRate` resolves the scale factor through the market's linked
 config, which may create that config, and writes back the two derived
 fields.
 */
module Utils {
  import opened Schema
  import opened RateCurve

  const BIGINT_ZERO: int := 0
  /** 10^18, the fixed-point unit: 1.0, or 100%. */
  const BIGINT_WAD: int := 1_000_000_000_000_000_000

  /** A market as first created: every numeric field zero, no linked config. */
  const DEFAULT_MARKET: Market := Market(
    BIGINT_ZERO, BIGINT_ZERO, BIGINT_ZERO, BIGINT_ZERO,
    BIGINT_ZERO, BIGINT_ZERO, BIGINT_ZERO, BIGINT_ZERO, None)

  /** A config as first created: a scale of 1.0. */
  const DEFAULT_CONFIG: InterestRateModelConfig := InterestRateModelConfig(BIGINT_WAD)

  /** The market stored under `id`, or the one `getOrCreateMarket` would create. */
  function MarketOrDefault(s: Store, id: Bytes): Market {
    if id in s.markets then s.markets[id] else DEFAULT_MARKET
  }

  /** Returns the stored market, or creates and saves the all-zero default.
      Either way the store afterwards holds exactly the returned record under
      `id`, and nothing else in it differs from before. */
  function GetOrCreateMarket(s: Store, id: Bytes): (r: (Store, Market))
    ensures id in r.0.markets && r.0.markets[id] == r.1
    ensures id in s.markets ==> r.0 == s && r.1 == s.markets[id]
    ensures id !in s.markets ==>
      && r.1.totalBorrowAssets == 0 && r.1.totalSupplyAssets == 0
      && r.1.baseRate == 0 && r.1.optimalUtilization == 0
      && r.1.rateAtOptimal == 0 && r.1.maxUtilization == 0
      && r.1.borrowRate == 0 && r.1.utilization == 0
      && r.1.interestRateModel.None?
    ensures r.0.markets.Keys == s.markets.Keys + {id}
    ensures forall k :: k in s.markets ==> r.0.markets[k] == s.markets[k]
    ensures r.0.configs == s.configs && r.0.positions == s.positions
  {
    if id in s.markets then (s, s.markets[id])
    else (SaveMarket(s, id, DEFAULT_MARKET), DEFAULT_MARKET)
  }

  /** Returns the stored config, or creates and saves one with the 1.0 scale.
      Either way the store afterwards holds exactly the returned record under
      `id`, and nothing else in it differs from before. */
  function GetOrCreateConfig(s: Store, id: Bytes): (r: (Store, InterestRateModelConfig))
    ensures id in r.0.configs && r.0.configs[id] == r.1
    ensures id in s.configs ==> r.0 == s && r.1 == s.configs[id]
    ensures id !in s.configs ==> r.1.scaledPercentage == BIGINT_WAD
    ensures r.0.configs.Keys == s.configs.Keys + {id}
    ensures forall k :: k in s.configs ==> r.0.configs[k] == s.configs[k]
    ensures r.0.markets == s.markets && r.0.positions == s.positions
  {
    if id in s.configs then (s, s.configs[id])
    else (SaveConfig(s, id, DEFAULT_CONFIG), DEFAULT_CONFIG)
  }

  /** A second lookup of the same market changes nothing and returns the
      same record: however often it is called, one record exists per id. */
  lemma {:induction false} GetOrCreateMarketIdempotent(s: Store, id: Bytes)
    ensures var (s1, m1) := GetOrCreateMarket(s, id);
      GetOrCreateMarket(s1, id) == (s1, m1)
  {
  }

  /** A second lookup of the same config changes nothing and returns the same
      record. */
  lemma {:induction false} GetOrCreateConfigIdempotent(s: Store, id: Bytes)
    ensures var (s1, c1) := GetOrCreateConfig(s, id);
      GetOrCreateConfig(s1, id) == (s1, c1)
  {
  }

  /** The scale a market link stands for: the linked config's
      `scaledPercentage` when that config is stored, otherwise 1.0 (no link,
      or a config not created yet, whose default is 1.0). */
  function ScaleOf(s: Store, link: Option<Bytes>): int {
    if link.Some? && link.value in s.configs then s.configs[link.value].scaledPercentage
    else BIGINT_WAD
  }

  /** The only way a config table may change while a market is recomputed:
      not at all, or by the default config for that market's link, created
      because it was missing. */
  predicate ConfigsGrowOnlyBy(s: Store, s': Store, link: Option<Bytes>) {
    s'.configs == s.configs ||
    (link.Some? && link.value !in s.configs && s'.configs == s.configs[link.value := DEFAULT_CONFIG])
  }

  /** A growth of that kind leaves the scale of every link as it was: the
      created config holds the 1.0 that the missing one already stood for. */
  lemma {:induction false} GrowthKeepsScales(s: Store, s': Store, link: Option<Bytes>, other: Option<Bytes>)
    requires ConfigsGrowOnlyBy(s, s', link)
    ensures ScaleOf(s', other) == ScaleOf(s, other)
  {
    if s'.configs != s.configs && other.Some? && other == link {
      assert s'.configs[other.value] == DEFAULT_CONFIG;
    }
  }

  /** The scale lookup of `updateBorrowRate`: with a link, get-or-create the
      linked config and take its scale; without one, 1.0. */
  function ResolveScale(s: Store, link: Option<Bytes>): (r: (Store, int))
    ensures r.1 == ScaleOf(s, link)
    ensures link.None? ==> r.0 == s
    ensures link.Some? ==> link.value in r.0.configs
    ensures ConfigsGrowOnlyBy(s, r.0, link)
    ensures r.0.markets == s.markets && r.0.positions == s.positions
  {
    if link.Some? then
      var (s1, config) := GetOrCreateConfig(s, link.value);
      (s1, config.scaledPercentage)
    else (s, BIGINT_WAD)
  }

  /** The market's derived fields as the curve computes them from its own
      fields and the scale its link resolves to in `s`. */
  function Expected(s: Store, m: Market): RateState {
    Kinked(m.totalBorrowAssets, m.totalSupplyAssets, ScaleOf(s, m.interestRateModel),
           m.baseRate, m.optimalUtilization, m.rateAtOptimal)
  }

  /** The cached `utilization` and `borrowRate` of market `id` agree with a
      recomputation from its current fields. */
  predicate Consistent(s: Store, id: Bytes)
    requires id in s.markets
  {
    RateState(s.markets[id].utilization, s.markets[id].borrowRate) == Expected(s, s.markets[id])
  }

  /** Every market's cached rate agrees with a recomputation. */
  predicate AllConsistent(s: Store) {
    forall id :: id in s.markets ==> Consistent(s, id)
  }

  /** The in-memory part of `updateBorrowRate`: the config lookup, which only
      happens when both totals are non-zero, and the market with its two
      derived fields rewritten. No other market field is read-modified, and
      `maxUtilization` is not read at all. */
  function Recompute(s: Store, m: Market): (r: (Store, Market))
    ensures r.1.(utilization := m.utilization, borrowRate := m.borrowRate) == m
    ensures RateState(r.1.utilization, r.1.borrowRate) == Expected(s, m)
    ensures m.totalSupplyAssets == 0 || m.totalBorrowAssets == 0 ==>
      r.0 == s && r.1.utilization == 0 && r.1.borrowRate == m.baseRate
    ensures ConfigsGrowOnlyBy(s, r.0, m.interestRateModel)
    ensures r.0.markets == s.markets && r.0.positions == s.positions
  {
    if m.totalSupplyAssets == BIGINT_ZERO || m.totalBorrowAssets == BIGINT_ZERO then
      (s, m.(borrowRate := m.baseRate, utilization := BIGINT_ZERO))
    else
      var (s1, scale) := ResolveScale(s, m.interestRateModel);
      var r := Kinked(m.totalBorrowAssets, m.totalSupplyAssets, scale,
                      m.baseRate, m.optimalUtilization, m.rateAtOptimal);
      (s1, m.(utilization := r.utilization, borrowRate := r.borrowRate))
  }

  /** `updateBorrowRate(market)` for the market saved under `id`: afterwards
      that market is `m` with consistent derived fields, every other market
      and every position is untouched, and at most the linked config was
      created. */
  function UpdateBorrowRate(s: Store, id: Bytes, m: Market): (s': Store)
    ensures id in s'.markets && Consistent(s', id)
    ensures s'.markets[id].(utilization := m.utilization, borrowRate := m.borrowRate) == m
    ensures s'.markets.Keys == s.markets.Keys + {id}
    ensures forall k :: k in s.markets && k != id ==> s'.markets[k] == s.markets[k]
    ensures s'.positions == s.positions
    ensures ConfigsGrowOnlyBy(s, s', m.interestRateModel)
    ensures forall link :: ScaleOf(s', link) == ScaleOf(s, link)
  {
    var (s1, m1) := Recompute(s, m);
    var s' := SaveMarket(s1, id, m1);
    forall link ensures ScaleOf(s', link) == ScaleOf(s, link) {
      GrowthKeepsScales(s, s', m.interestRateModel, link);
    }
    s'
  }

  /** Recomputing preserves the consistency of every other market: their
      records are untouched and no link's scale changes. */
  lemma {:induction false} UpdateBorrowRateKeepsOthersConsistent(s: Store, id: Bytes, m: Market)
    requires AllConsistent(s)
    ensures AllConsistent(UpdateBorrowRate(s, id, m))
  {
    var s' := UpdateBorrowRate(s, id, m);
    forall k | k in s'.markets ensures Consistent(s', k) {
      if k != id {
        assert s'.markets[k] == s.markets[k];
        assert Consistent(s, k);
      }
    }
  }

  /** `maxUtilization` does not enter the computation: recomputing a market
      that differs only there gives the same store, the same derived fields,
      and the difference carried through. */
  lemma {:induction false} RecomputeIgnoresMaxUtilization(s: Store, m: Market, maxUtilization: int)
    ensures var (s1, m1) := Recompute(s, m);
      Recompute(s, m.(maxUtilization := maxUtilization)) == (s1, m1.(maxUtilization := maxUtilization))
  {
  }

  /** With a zero total the recomputation reads no config, so it creates none,
      and the rate is the base rate whatever the other parameters. */
  lemma {:induction false} ZeroAssetsReadNoConfig(s: Store, id: Bytes, m: Market)
    requires m.totalSupplyAssets == 0 || m.totalBorrowAssets == 0
    ensures var s' := UpdateBorrowRate(s, id, m);
      s'.configs == s.configs &&
      s'.markets[id].utilization == 0 && s'.markets[id].borrowRate == m.baseRate
  {
  }

  /** With both totals non-zero and a link to a config that does not exist yet,
      the recomputation creates that config with the 1.0 default and uses 1.0. */
  lemma {:induction false} MissingLinkedConfigIsCreated(s: Store, id: Bytes, m: Market)
    requires m.totalSupplyAssets != 0 && m.totalBorrowAssets != 0
    requires m.interestRateModel.Some? && m.interestRateModel.value !in s.configs
    ensures var s' := UpdateBorrowRate(s, id, m);
      s'.configs == s.configs[m.interestRateModel.value := DEFAULT_CONFIG] &&
      s'.markets[id].utilization == Utilization(m.totalBorrowAssets, m.totalSupplyAssets, BIGINT_WAD)
  {
  }
}
