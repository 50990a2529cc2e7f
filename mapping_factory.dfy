/** The handlers of the pool factory's events: pool creation, which numbers
    pools through the singleton's counter, and the three protocol minimums. */
module FactoryMapping {
  import opened GraphStore
  import opened MappingUtil
  import opened PrimeRegistry
  import opened PoolMapping

  /** The singleton table once `handleCreatePool` has counted a new pool. */
  function CountedPrimes(primes: map<string, Prime>): map<string, Prime>
  {
    var instance := StoredPrime(primes);
    primes[PrimeId := instance.(poolIndex := instance.poolIndex + 1)]
  }

  /** `handleCreatePool(event)`: the singleton's pool counter grows by one and
      is saved, and the pool is created with the new count as its index. The
      count is also what the pool's data source context carries; it is
      returned as `poolIndex`. */
  method HandleCreatePool(st: Store, p: PoolCreated, timestamp: int) returns (poolIndex: int)
    modifies st`primes, st`pools, st`poolMembers
    ensures poolIndex == StoredPrime(old(st.primes)).poolIndex + 1
    ensures p.pool in old(st.pools) ==>
      st.primes == CountedPrimes(old(st.primes)) && st.pools == old(st.pools) && st.poolMembers == old(st.poolMembers)
    ensures p.pool !in old(st.pools) ==>
      var counted := CountedPrimes(old(st.primes));
      st.primes == WithPublicPool(counted, p.pool) &&
      st.pools == old(st.pools)[p.pool := NewPool(p, poolIndex, timestamp, Populated(p.pool, PrimeMembers(counted), p.borrower))] &&
      st.poolMembers == WhitelistAll(old(st.poolMembers), p.pool, PrimeMembers(counted), p.borrower)
  {
    var instance := GetOrCreatePrimeEntity(st);
    poolIndex := instance.poolIndex + 1;
    instance := instance.(poolIndex := poolIndex);
    st.primes := st.primes[PrimeId := instance];
    CreateNewPool(st, p, timestamp, poolIndex);
  }

  /** Pool creation numbers pools 1, 2, 3, …: the stored counter after a
      creation is the index the new pool got, so the next creation gives the
      next index; the Prime members are not changed. */
  lemma CreatePoolCounts(primes: map<string, Prime>, pool: string)
    ensures var after := WithPublicPool(CountedPrimes(primes), pool);
      PrimeId in after && StoredPrime(after).poolIndex == StoredPrime(primes).poolIndex + 1 &&
      StoredPrime(after).members == StoredPrime(primes).members &&
      StoredPrime(after).publicPools == StoredPrime(primes).publicPools + [pool]
    ensures PrimeId !in primes ==> StoredPrime(WithPublicPool(CountedPrimes(primes), pool)).poolIndex == 1
  {
  }

  /** `handleMinDepositChange(event)`: only the minimum deposit window of the
      singleton changes; the singleton is saved, created if need be. */
  method MinDepositChange(st: Store, newValue: int)
    modifies st`primes
    ensures st.primes == old(st.primes)[PrimeId := StoredPrime(old(st.primes)).(minDepositWindow := newValue)]
  {
    var instance := GetOrCreatePrimeEntity(st);
    instance := instance.(minDepositWindow := newValue);
    st.primes := st.primes[PrimeId := instance];
  }

  /** `handleMinMonthlyMaturityChange(event)`: only the minimum monthly
      maturity changes. */
  method MinMonthlyMaturityChange(st: Store, newValue: int)
    modifies st`primes
    ensures st.primes == old(st.primes)[PrimeId := StoredPrime(old(st.primes)).(minMonthlyMaturity := newValue)]
  {
    var instance := GetOrCreatePrimeEntity(st);
    instance := instance.(minMonthlyMaturity := newValue);
    st.primes := st.primes[PrimeId := instance];
  }

  /** `handleLiquidityMinRangeChange(event)`: only the minimum liquidity range
      changes. */
  method LiquidityMinRangeChange(st: Store, newValue: int)
    modifies st`primes
    ensures st.primes == old(st.primes)[PrimeId := StoredPrime(old(st.primes)).(liquidityMinRange := newValue)]
  {
    var instance := GetOrCreatePrimeEntity(st);
    instance := instance.(liquidityMinRange := newValue);
    st.primes := st.primes[PrimeId := instance];
  }

  /** A minimum set on a singleton that was never stored sits beside the
      defaults of a fresh one. */
  lemma MinimumOnFreshPrime(primes: map<string, Prime>, newValue: int)
    requires PrimeId !in primes
    ensures var p := StoredPrime(primes).(minDepositWindow := newValue);
      p.minDepositWindow == newValue && p.minMonthlyMaturity == 65 * 24 * 60 * 60 &&
      p.liquidityMinRange == 49 * 60 * 60 && p.poolIndex == 0 && p.publicPools == [] && p.members == []
  {
  }
}
