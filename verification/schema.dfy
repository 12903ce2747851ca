/**
 The indexer's entities and the store that holds them.

 The Graph store is a keyed table per entity kind, reached through `load`,
 `new` and `save`. Here it is an immutable value: one map per kind, from the
 entity's id to its fields. Records carry no id of their own; a record is
 always saved under the key it was loaded or created with.
 */
module Schema {

  /** Graph `Bytes`: contract addresses and entity ids. */
  type Bytes = seq<bv8>

  datatype Option<T> = None | Some(value: T)

  /** One lending pool. Every numeric field is a graph-ts `BigInt`. The two
      totals come from the pool contract, the four curve parameters from
      configuration events, and `borrowRate`/`utilization` are cached outputs
      of the rate computation. `interestRateModel` links to a config by
      address and may be unset. */
  datatype Market = Market(
    totalBorrowAssets: int,
    totalSupplyAssets: int,
    baseRate: int,
    optimalUtilization: int,
    rateAtOptimal: int,
    maxUtilization: int,
    borrowRate: int,
    utilization: int,
    interestRateModel: Option<Bytes>
  )

  /** One interest-rate-model contract: its fixed-point scale factor. */
  datatype InterestRateModelConfig = InterestRateModelConfig(scaledPercentage: int)

  /** The balance counters of one liquidity position, and the token it last
      moved. How positions are keyed is decided by a lookup outside this
      model, so the record does not name its market or user. */
  datatype UserLiquidity = UserLiquidity(
    token: Bytes,
    totalDeposited: int,
    totalWithdrawn: int,
    currentBalance: int
  )

  datatype Store = Store(
    markets: map<Bytes, Market>,
    configs: map<Bytes, InterestRateModelConfig>,
    positions: map<Bytes, UserLiquidity>
  )

  /** `market.save()` under the market's id. */
  function SaveMarket(s: Store, id: Bytes, m: Market): Store
  {
    s.(markets := s.markets[id := m])
  }

  /** `config.save()` under the config's id. */
  function SaveConfig(s: Store, id: Bytes, c: InterestRateModelConfig): Store
  {
    s.(configs := s.configs[id := c])
  }

  /** `userLiquidity.save()` under the position's id. */
  function SavePosition(s: Store, id: Bytes, p: UserLiquidity): Store
  {
    s.(positions := s.positions[id := p])
  }
}
