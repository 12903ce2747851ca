/**
 The state-changing part of the `LendingPool` contract's handlers
 (`src/lending-pool.ts`).

 Three collaborators of these handlers are not part of this model:
 - `updateMarketData` reads the pool's two totals from the chain. Here the
   two reads are parameters (`TotalsRead`), each of which may have failed,
   and the refresh is the assumed one: get-or-create the market, overwrite
   the totals that were read, save, recompute.
 - `getOrCreateUserLiquidity` and `updateUserYield` are given as function
   values (`Collaborators`); nothing is assumed about how positions are
   keyed or how yield accrues.
 */
module LendingPool {
  import opened Schema
  import opened RateCurve
  import opened Utils

  /** The outcome of the two on-chain reads: `None` is a failed read. */
  datatype TotalsRead = TotalsRead(borrowed: Option<int>, supplied: Option<int>)

  function ReadOr(read: Option<int>, prior: int): int {
    if read.Some? then read.value else prior
  }

  /** The refresh of a market's totals, as assumed: every read that succeeded
      replaces its total, a failed read leaves the prior value, nothing else
      of the market is written, and the rate is recomputed. No other market
      and no position changes. */
  function UpdateMarketData(s: Store, pool: Bytes, fetched: TotalsRead): (s': Store)
    ensures pool in s'.markets && Consistent(s', pool)
    ensures var before, after := MarketOrDefault(s, pool), s'.markets[pool];
      && after.totalBorrowAssets == (if fetched.borrowed.Some? then fetched.borrowed.value else before.totalBorrowAssets)
      && after.totalSupplyAssets == (if fetched.supplied.Some? then fetched.supplied.value else before.totalSupplyAssets)
      && after.(totalBorrowAssets := before.totalBorrowAssets, totalSupplyAssets := before.totalSupplyAssets,
                utilization := before.utilization, borrowRate := before.borrowRate) == before
      && ConfigsGrowOnlyBy(s, s', before.interestRateModel)
    ensures s'.markets.Keys == s.markets.Keys + {pool}
    ensures forall k :: k in s.markets && k != pool ==> s'.markets[k] == s.markets[k]
    ensures s'.positions == s.positions
  {
    var (s1, m) := GetOrCreateMarket(s, pool);
    var m1 := m.(totalBorrowAssets := ReadOr(fetched.borrowed, m.totalBorrowAssets),
                 totalSupplyAssets := ReadOr(fetched.supplied, m.totalSupplyAssets));
    UpdateBorrowRate(SaveMarket(s1, pool, m1), pool, m1)
  }

  /** The refresh keeps every market's cached rate consistent. */
  lemma {:induction false} UpdateMarketDataKeepsConsistency(s: Store, pool: Bytes, fetched: TotalsRead)
    requires AllConsistent(s)
    ensures AllConsistent(UpdateMarketData(s, pool, fetched))
  {
    var s' := UpdateMarketData(s, pool, fetched);
    forall k | k in s'.markets ensures Consistent(s', k) {
      if k != pool {
        assert s'.markets[k] == s.markets[k];
        assert Consistent(s, k);
        GrowthKeepsScales(s, s', MarketOrDefault(s, pool).interestRateModel, s.markets[k].interestRateModel);
      }
    }
  }

  /** `handleInterestRateModelSet`: link the emitter's market to the event's
      config, then recompute with that config's scale, which is 1.0 when the
      config does not exist yet. */
  function HandleInterestRateModelSet(s: Store, emitter: Bytes, interestRateModel: Bytes): (s': Store)
    ensures emitter in s'.markets
    ensures var before, after := MarketOrDefault(s, emitter), s'.markets[emitter];
      && after == before.(interestRateModel := Some(interestRateModel),
                          utilization := after.utilization, borrowRate := after.borrowRate)
      && RateState(after.utilization, after.borrowRate)
         == Kinked(before.totalBorrowAssets, before.totalSupplyAssets, ScaleOf(s, Some(interestRateModel)),
                   before.baseRate, before.optimalUtilization, before.rateAtOptimal)
    ensures Consistent(s', emitter)
    ensures ConfigsGrowOnlyBy(s, s', Some(interestRateModel))
    ensures s'.markets.Keys == s.markets.Keys + {emitter}
    ensures forall k :: k in s.markets && k != emitter ==> s'.markets[k] == s.markets[k]
    ensures s'.positions == s.positions
  {
    var (s1, m) := GetOrCreateMarket(s, emitter);
    var m1 := m.(interestRateModel := Some(interestRateModel));
    var s' := UpdateBorrowRate(SaveMarket(s1, emitter, m1), emitter, m1);
    GrowthKeepsScales(s, s', Some(interestRateModel), Some(interestRateModel));
    s'
  }

  /** Linking a market keeps every market's cached rate consistent: the
      linked market is recomputed and no link's scale changes. */
  lemma {:induction false} InterestRateModelSetKeepsConsistency(s: Store, emitter: Bytes, interestRateModel: Bytes)
    requires AllConsistent(s)
    ensures AllConsistent(HandleInterestRateModelSet(s, emitter, interestRateModel))
  {
    var s' := HandleInterestRateModelSet(s, emitter, interestRateModel);
    forall k | k in s'.markets ensures Consistent(s', k) {
      if k != emitter {
        assert s'.markets[k] == s.markets[k];
        assert Consistent(s, k);
        GrowthKeepsScales(s, s', Some(interestRateModel), s.markets[k].interestRateModel);
      }
    }
  }

  /** When both totals are non-zero, the link event's recompute scales
      utilization by the linked config's percentage if that config exists,
      and otherwise creates the config and scales by 1.0. */
  lemma {:induction false} InterestRateModelSetScale(s: Store, emitter: Bytes, interestRateModel: Bytes)
    requires var m := MarketOrDefault(s, emitter); m.totalBorrowAssets != 0 && m.totalSupplyAssets != 0
    ensures var m, s' := MarketOrDefault(s, emitter), HandleInterestRateModelSet(s, emitter, interestRateModel);
      && (interestRateModel in s.configs ==>
            s'.configs == s.configs &&
            s'.markets[emitter].utilization
              == Utilization(m.totalBorrowAssets, m.totalSupplyAssets, s.configs[interestRateModel].scaledPercentage))
      && (interestRateModel !in s.configs ==>
            s'.configs == s.configs[interestRateModel := DEFAULT_CONFIG] &&
            s'.markets[emitter].utilization == Utilization(m.totalBorrowAssets, m.totalSupplyAssets, BIGINT_WAD))
  {
    var s' := HandleInterestRateModelSet(s, emitter, interestRateModel);
    var (s1, m) := GetOrCreateMarket(s, emitter);
    var m1 := m.(interestRateModel := Some(interestRateModel));
    MissingOrPresent(s, SaveMarket(s1, emitter, m1), emitter, m1);
  }

  lemma MissingOrPresent(s: Store, s2: Store, emitter: Bytes, m1: Market)
    requires s2.configs == s.configs
    requires m1.totalBorrowAssets != 0 && m1.totalSupplyAssets != 0 && m1.interestRateModel.Some?
    ensures m1.interestRateModel.value in s.configs ==> UpdateBorrowRate(s2, emitter, m1).configs == s.configs
    ensures m1.interestRateModel.value !in s.configs ==>
      UpdateBorrowRate(s2, emitter, m1).configs == s.configs[m1.interestRateModel.value := DEFAULT_CONFIG]
  {
    if m1.interestRateModel.value !in s.configs {
      MissingLinkedConfigIsCreated(s2, emitter, m1);
    }
  }

  /** `handleBorrow`: only the refresh of the emitter's market; no position
      is touched. */
  function HandleBorrow(s: Store, emitter: Bytes, fetched: TotalsRead): (s': Store)
    ensures s'.positions == s.positions
    ensures emitter in s'.markets && Consistent(s', emitter)
    ensures forall k :: k in s.markets && k != emitter ==> k in s'.markets && s'.markets[k] == s.markets[k]
  {
    UpdateMarketData(s, emitter, fetched)
  }

  /** `handleRepay`: only the refresh of the emitter's market. */
  function HandleRepay(s: Store, emitter: Bytes, fetched: TotalsRead): (s': Store)
    ensures s'.positions == s.positions
    ensures emitter in s'.markets && Consistent(s', emitter)
    ensures forall k :: k in s.markets && k != emitter ==> k in s'.markets && s'.markets[k] == s.markets[k]
  {
    UpdateMarketData(s, emitter, fetched)
  }

  /** `handleLiquidation`: only the refresh of the emitter's market. */
  function HandleLiquidation(s: Store, emitter: Bytes, fetched: TotalsRead): (s': Store)
    ensures s'.positions == s.positions
    ensures emitter in s'.markets && Consistent(s', emitter)
    ensures forall k :: k in s.markets && k != emitter ==> k in s'.markets && s'.markets[k] == s.markets[k]
  {
    UpdateMarketData(s, emitter, fetched)
  }

  /** How far a position's balance has drifted from deposits minus
      withdrawals; zero while the intended invariant holds. */
  function Drift(p: UserLiquidity): int {
    p.currentBalance - (p.totalDeposited - p.totalWithdrawn)
  }

  /** The balance update of `handleSupplyLiquidity`, after the yield step:
      both deposited and balance grow by exactly `amount`, withdrawn is kept,
      and the token is overwritten. */
  function Deposit(p: UserLiquidity, amount: int, token: Bytes): (r: UserLiquidity)
    ensures r.totalDeposited - p.totalDeposited == amount
    ensures r.currentBalance - p.currentBalance == amount
    ensures r.totalWithdrawn == p.totalWithdrawn
    ensures r.token == token
    ensures Drift(r) == Drift(p)
  {
    p.(totalDeposited := p.totalDeposited + amount,
       currentBalance := p.currentBalance + amount,
       token := token)
  }

  /** The balance update of `handleWithdrawLiquidity`, after the yield step:
      withdrawn grows and balance shrinks by exactly `amount`; deposited and
      token are kept. Nothing
      guards the subtraction, so the balance goes negative exactly when more
      is withdrawn than it holds. */
  function Withdrawal(p: UserLiquidity, amount: int): (r: UserLiquidity)
    ensures r.totalWithdrawn - p.totalWithdrawn == amount
    ensures p.currentBalance - r.currentBalance == amount
    ensures r.totalDeposited == p.totalDeposited && r.token == p.token
    ensures Drift(r) == Drift(p)
    ensures r.currentBalance < 0 <==> amount > p.currentBalance
  {
    p.(totalWithdrawn := p.totalWithdrawn + amount,
       currentBalance := p.currentBalance - amount)
  }

  /** The helpers a liquidity handler calls but whose bodies are not part of
      this model: `getOrCreateUserLiquidity(pool, user, token, timestamp)`
      yields the store after the lookup, the position's id and its record;
      `updateUserYield(position, market, timestamp)` yields the store and the
      position record after accrual. */
  datatype Collaborators = Collaborators(
    userLiquidity: (Store, Bytes, Bytes, Bytes, int) -> (Store, Bytes, UserLiquidity),
    userYield: (Store, Bytes, UserLiquidity, Market, int) -> (Store, UserLiquidity)
  )

  /** What a liquidity handler holds just before it adjusts the balance: the
      store, the position's id, the position as looked up, and the position
      after the yield step. */
  datatype Staged = Staged(store: Store, id: Bytes, looked: UserLiquidity, accrued: UserLiquidity)

  /** The steps the supply and withdraw handlers share: refresh the emitter's
      market, load it, look up the position, accrue its yield. */
  function Stage(c: Collaborators, s: Store, emitter: Bytes, user: Bytes, token: Bytes,
                 timestamp: int, fetched: TotalsRead): Staged
  {
    var s1 := UpdateMarketData(s, emitter, fetched);
    var (s2, market) := GetOrCreateMarket(s1, emitter);
    var (s3, id, looked) := c.userLiquidity(s2, emitter, user, token, timestamp);
    var (s4, accrued) := c.userYield(s3, id, looked, market, timestamp);
    Staged(s4, id, looked, accrued)
  }

  /** The yield step left the three balance counters as it found them. */
  predicate CountersKept(st: Staged) {
    && st.accrued.totalDeposited == st.looked.totalDeposited
    && st.accrued.totalWithdrawn == st.looked.totalWithdrawn
    && st.accrued.currentBalance == st.looked.currentBalance
  }

  /** `handleSupplyLiquidity`: after the shared steps, the position gains
      `amount` in deposits and balance over its post-yield values and takes
      the event's token; the rest of the store is as the yield step left it.
      If that step kept the counters, the drift is what the lookup found. */
  function HandleSupplyLiquidity(c: Collaborators, s: Store, emitter: Bytes, user: Bytes, token: Bytes,
                                 amount: int, timestamp: int, fetched: TotalsRead): (s': Store)
    ensures var st := Stage(c, s, emitter, user, token, timestamp, fetched);
      && st.id in s'.positions
      && s'.positions[st.id].totalDeposited == st.accrued.totalDeposited + amount
      && s'.positions[st.id].currentBalance == st.accrued.currentBalance + amount
      && s'.positions[st.id].totalWithdrawn == st.accrued.totalWithdrawn
      && s'.positions[st.id].token == token
      && (CountersKept(st) ==> Drift(s'.positions[st.id]) == Drift(st.looked))
      && s'.markets == st.store.markets && s'.configs == st.store.configs
      && (forall k :: k in st.store.positions && k != st.id ==> k in s'.positions && s'.positions[k] == st.store.positions[k])
  {
    var st := Stage(c, s, emitter, user, token, timestamp, fetched);
    SavePosition(st.store, st.id, Deposit(st.accrued, amount, token))
  }

  /** `handleWithdrawLiquidity`: after the shared steps, the position gains
      `amount` in withdrawals and loses it from its balance, with no check
      that the balance covers it; deposits and token are kept. If the yield
      step kept the counters, the drift is what the lookup found. */
  function HandleWithdrawLiquidity(c: Collaborators, s: Store, emitter: Bytes, user: Bytes, token: Bytes,
                                   amount: int, timestamp: int, fetched: TotalsRead): (s': Store)
    ensures var st := Stage(c, s, emitter, user, token, timestamp, fetched);
      && st.id in s'.positions
      && s'.positions[st.id].totalWithdrawn == st.accrued.totalWithdrawn + amount
      && s'.positions[st.id].currentBalance == st.accrued.currentBalance - amount
      && s'.positions[st.id].totalDeposited == st.accrued.totalDeposited
      && s'.positions[st.id].token == st.accrued.token
      && (s'.positions[st.id].currentBalance < 0 <==> amount > st.accrued.currentBalance)
      && (CountersKept(st) ==> Drift(s'.positions[st.id]) == Drift(st.looked))
      && s'.markets == st.store.markets && s'.configs == st.store.configs
      && (forall k :: k in st.store.positions && k != st.id ==> k in s'.positions && s'.positions[k] == st.store.positions[k])
  {
    var st := Stage(c, s, emitter, user, token, timestamp, fetched);
    SavePosition(st.store, st.id, Withdrawal(st.accrued, amount))
  }

  /** A fresh position that receives 100 and then gives back 40 has deposited
      100, withdrawn 40 and holds 60. */
  lemma SupplyThenWithdrawExample(token: Bytes)
    ensures Withdrawal(Deposit(UserLiquidity(token, 0, 0, 0), 100, token), 40)
         == UserLiquidity(token, 100, 40, 60)
  {
  }

  /** Withdrawing 40 from a balance of 30 leaves a balance of -10: the signed
      subtraction has no underflow guard. */
  lemma WithdrawCanGoNegative(token: Bytes)
    ensures Withdrawal(UserLiquidity(token, 30, 0, 30), 40).currentBalance == -10
  {
  }
}
