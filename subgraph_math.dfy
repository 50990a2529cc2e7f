/** The subgraph's interest arithmetic on The Graph's `BigInt`: a 360-day year
    and 18-decimal fixed point, with truncating division. */
module SubgraphMath {
  import opened BigNum
  import SdkPool

  /** `YEAR_SECONDS`. */
  const YearSeconds: int := 360 * 24 * 60 * 60

  /** `convertToBN(amount, base)`: `amount` scaled by `10^base`. */
  function ConvertToBN(amount: int, base: nat): (r: int)
    ensures amount >= 0 ==> r >= amount
    ensures base == 0 ==> r == amount
  {
    assert amount >= 0 ==> amount * Pow10(base) >= amount by {
      if amount >= 0 {
        MulMonotone(amount, 1, Pow10(base));
      }
    }
    amount * Pow10(base)
  }

  /** `MULTIPLIER`: one unit with 18 decimals. */
  const Multiplier: int := ConvertToBN(1, 18)

  /** The subgraph's constants are the SDK's. */
  lemma ConstantsAgree()
    ensures YearSeconds == SdkPool.Year && Multiplier == SdkPool.One
  {
    assert Pow10(9) == 1_000_000_000;
    assert Pow10(18) == 1_000_000_000 * Pow10(9);
  }

  /** `calcInterest(amount, rate, startDate, endDate)`: interest on `amount`
      at yearly `rate` from `startDate` to `endDate`. */
  function CalcInterest(amount: int, rate: int, startDate: int, endDate: int): (r: int)
    ensures startDate == endDate || amount == 0 || rate == 0 ==> r == 0
  {
    ConstantsAgree();
    assert rate * (endDate - startDate) == 0 <== startDate == endDate || rate == 0;
    var anualRate := Quot(rate * (endDate - startDate), YearSeconds);
    assert amount * anualRate == 0 <== amount == 0 || anualRate == 0;
    Quot(amount * anualRate, Multiplier)
  }

  /** The subgraph's interest over `[startDate, endDate]` is the SDK's interest
      over `endDate - startDate` seconds. */
  lemma SameAsSdk(amount: int, rate: int, startDate: int, endDate: int)
    ensures CalcInterest(amount, rate, startDate, endDate) == SdkPool.CalcInterest(amount, rate, endDate - startDate)
  {
    ConstantsAgree();
  }

  /** Interest is never negative forwards in time, and grows with the end date. */
  lemma {:induction false} CalcInterestMonotone(amount: int, rate: int, startDate: int, end1: int, end2: int)
    requires amount >= 0 && rate >= 0 && startDate <= end1 <= end2
    ensures 0 <= CalcInterest(amount, rate, startDate, end1) <= CalcInterest(amount, rate, startDate, end2)
  {
    ConstantsAgree();
    MulMonotone(rate, 0, end1 - startDate);
    MulMonotone(rate, end1 - startDate, end2 - startDate);
    var a1 := Quot(rate * (end1 - startDate), YearSeconds);
    var a2 := Quot(rate * (end2 - startDate), YearSeconds);
    QuotMonotone(0, rate * (end1 - startDate), YearSeconds);
    QuotMonotone(rate * (end1 - startDate), rate * (end2 - startDate), YearSeconds);
    QuotZero(YearSeconds);
    MulMonotone(amount, 0, a1);
    MulMonotone(amount, a1, a2);
    QuotMonotone(0, amount * a1, Multiplier);
    QuotMonotone(amount * a1, amount * a2, Multiplier);
    QuotZero(Multiplier);
  }

  /** `calcFeeFromInterest(interest, feeRate)`: the part of `interest` taken
      at `feeRate`. */
  function CalcFeeFromInterest(interest: int, feeRate: int): (r: int)
    ensures interest == 0 || feeRate == 0 ==> r == 0
    ensures feeRate == Multiplier ==> r == interest
  {
    ConstantsAgree();
    Quot(interest * feeRate, Multiplier)
  }

  /** The fee is the SDK's spread, so at a rate of at most 100% it lies between
      zero and the interest. */
  lemma FeeIsSdkSpread(interest: int, feeRate: int)
    ensures CalcFeeFromInterest(interest, feeRate) == SdkPool.CalcInterestForRate(interest, feeRate)
    ensures interest >= 0 && 0 <= feeRate <= Multiplier ==> 0 <= CalcFeeFromInterest(interest, feeRate) <= interest
  {
    ConstantsAgree();
    if interest >= 0 && 0 <= feeRate <= Multiplier {
      SdkPool.SpreadAtMostInterest(interest, feeRate);
    }
  }
}
