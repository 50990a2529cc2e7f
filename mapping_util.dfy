/** The `_Prime` singleton of the subgraph. */
module MappingUtil {
  import opened GraphStore

  /** The id the singleton is stored under. */
  const PrimeId: string := "clearpool"

  /** A fresh singleton: no public pools, no members, pool index 0, and the
      protocol's default minimums (one hour, 65 days, 49 hours). */
  function NewPrime(): Prime
  {
    Prime(PrimeId, [], [], 0, 60 * 60, 65 * 24 * 60 * 60, 49 * 60 * 60)
  }

  /** The singleton `getOrCreatePrimeEntity` returns for the table `primes`. */
  function StoredPrime(primes: map<string, Prime>): Prime
  {
    if PrimeId in primes then primes[PrimeId] else NewPrime()
  }

  /** `getOrCreatePrimeEntity()`: the stored singleton, or a fresh one. The
      fresh one is only returned: the caller saves it, so the store is read
      and never written. */
  method GetOrCreatePrimeEntity(st: Store) returns (instance: Prime)
    ensures instance == StoredPrime(st.primes)
    ensures PrimeId in st.primes ==> instance == st.primes[PrimeId]
    ensures PrimeId !in st.primes ==>
      instance.id == PrimeId && instance.publicPools == [] && instance.members == [] && instance.poolIndex == 0
    ensures PrimeId !in st.primes ==>
      instance.minDepositWindow == 3600 && instance.minMonthlyMaturity == 5616000 && instance.liquidityMinRange == 176400
  {
    if PrimeId in st.primes {
      instance := st.primes[PrimeId];
    } else {
      instance := NewPrime();
    }
  }
}
