/** The SDK's off-chain accrual calculator: interest, spread and penalty of each
    lender position of a pool, in 18-decimal fixed point over a 360-day year.
    Amounts and rates are unbounded integers; every `div` truncates toward zero. */
module SdkPool {
  import opened Wrappers
  import opened BigNum
  import Text

  /** Seconds in the protocol's 360-day year. */
  const Year: int := 360 * 86400
  /** 1.0 in 18-decimal fixed point (`parseUnits('1')`). */
  const One: int := 1_000_000_000_000_000_000

  datatype RepaymentType = Monthly | Bullet

  datatype PoolInfo = PoolInfo(
    repaymentType: RepaymentType,
    penaltyRate: int,
    rateMantissa: int,
    spreadRate: int,
    maturityDate: int,
    monthlyRound: int)

  /** A lender position; `paidAt` is absent until the position is repaid. */
  datatype Position = Position(
    id: string,
    amount: int,
    interest: int,
    timestamp: int,
    endAt: int,
    paidAt: Option<int>,
    paid: bool)

  datatype LenderInfo = LenderInfo(lastPaidAt: int, positions: seq<Position>)

  datatype Input = Input(poolInfo: PoolInfo, lenderInfo: LenderInfo, currentTs: int)

  /** The one way the calculator can throw: `BigNumber.div` by zero. */
  datatype Thrown = DivisionByZero

  /** The amounts of one position (`MemberAmounts<BigNumber>`). */
  datatype Amounts = Amounts(
    balance: int,
    accrued: int,
    penalty: int,
    due: int,
    dueWithoutSpread: int,
    spread: int,
    dueInterest: int,
    interestPenalty: int,
    dueInterestWithoutSpread: int)

  datatype Periods = Periods(
    totalPeriod: int,
    penaltyPeriod: int,
    nextPaymentPeriod: int,
    interestPenaltyPeriod: int,
    now: int)

  // ---------------------------------------------------------------------------
  // Fixed-point arithmetic

  /** `calcAnualRate`: the share of the yearly `rate` earned over `timestamp`
      seconds (one day when omitted). */
  function CalcAnualRate(rate: int, timestamp: int := 86400): (r: int)
    ensures rate == 0 || timestamp == 0 ==> r == 0
  {
    assert rate * timestamp == 0 <== rate == 0 || timestamp == 0;
    Quot(rate * timestamp, Year)
  }

  /** `calcInterest`: interest on `principal` at yearly `rate` over `timestamp`
      seconds. */
  function CalcInterest(principal: int, rate: int, timestamp: int): (r: int)
    ensures principal == 0 || rate == 0 || timestamp == 0 ==> r == 0
  {
    var annual := CalcAnualRate(rate, timestamp);
    assert principal * annual == 0 <== principal == 0 || annual == 0;
    Quot(principal * annual, One)
  }

  /** `calcInterestForRate`: the part of `interest` taken at `rate` (a spread). */
  function CalcInterestForRate(interest: int, rate: int): (r: int)
    ensures interest == 0 || rate == 0 ==> r == 0
  {
    assert interest * rate == 0 <== interest == 0 || rate == 0;
    Quot(interest * rate, One)
  }

  /** For non-negative inputs each helper is the floor of the exact quotient. */
  lemma {:induction false} FixedPointFloors(principal: int, rate: int, timestamp: int, interest: int)
    requires principal >= 0 && rate >= 0 && timestamp >= 0 && interest >= 0
    ensures var a := CalcAnualRate(rate, timestamp);
      0 <= a && a * Year <= rate * timestamp < (a + 1) * Year
    ensures var i := CalcInterest(principal, rate, timestamp);
      0 <= i && i * One <= principal * CalcAnualRate(rate, timestamp) < (i + 1) * One
    ensures var s := CalcInterestForRate(interest, rate);
      0 <= s && s * One <= interest * rate < (s + 1) * One
  {
    MulMonotone(rate, 0, timestamp);
    MulMonotone(interest, 0, rate);
    var a := CalcAnualRate(rate, timestamp);
    MulMonotone(principal, 0, a);
  }

  /** A full year at a yearly rate earns exactly that rate. */
  lemma {:induction false} FullYearRate(rate: int)
    ensures CalcAnualRate(rate, Year) == rate
  {
    QuotExact(rate, Year);
  }

  /** A spread at a rate of at most 100% never exceeds the interest it is taken
      from, and is never negative. */
  lemma {:induction false} SpreadAtMostInterest(interest: int, rate: int)
    requires interest >= 0 && 0 <= rate <= One
    ensures 0 <= CalcInterestForRate(interest, rate) <= interest
  {
    QuotScaledBound(interest, rate, One);
  }

  /** The protocol's worked example: 10,000,000 lent at 10% for a year earns
      1,000,000 of interest, of which a 10% spread is 100,000. */
  lemma {:induction false} WorkedExample()
    ensures CalcInterest(10_000_000 * One, One / 10, Year) == 1_000_000 * One
    ensures CalcInterestForRate(1_000_000 * One, One / 10) == 100_000 * One
  {
    FullYearRate(One / 10);
    QuotExact(1_000_000 * One, One);
    assert 10_000_000 * One * (One / 10) == (1_000_000 * One) * One;
    assert 1_000_000 * One * (One / 10) == (100_000 * One) * One;
    QuotExact(100_000 * One, One);
  }

  /** `genInterest`: `totalInterest` pro-rated over `[startDate, maturity]` at
      `currentTs`. Throws when the interval is empty. */
  function GenInterest(totalInterest: int, maturity: int, startDate: int, currentTs: int): (r: Result<int, Thrown>)
    ensures r.Err? <==> maturity == startDate
  {
    if maturity == startDate then Err(DivisionByZero)
    else Ok(Quot(totalInterest * (currentTs - startDate), maturity - startDate))
  }

  /** Nothing has accrued at the start, and everything at maturity. */
  lemma {:induction false} GenInterestEndpoints(totalInterest: int, maturity: int, startDate: int)
    requires maturity > startDate
    ensures GenInterest(totalInterest, maturity, startDate, startDate) == Ok(0)
    ensures GenInterest(totalInterest, maturity, startDate, maturity) == Ok(totalInterest)
  {
    QuotZero(maturity - startDate);
    QuotExact(totalInterest, maturity - startDate);
  }

  /** Accrued interest never decreases as time passes. */
  lemma {:induction false} GenInterestMonotone(totalInterest: int, maturity: int, startDate: int, t1: int, t2: int)
    requires maturity > startDate && totalInterest >= 0 && t1 <= t2
    ensures GenInterest(totalInterest, maturity, startDate, t1).value <= GenInterest(totalInterest, maturity, startDate, t2).value
  {
    MulMonotone(totalInterest, t1 - startDate, t2 - startDate);
    QuotMonotone(totalInterest * (t1 - startDate), totalInterest * (t2 - startDate), maturity - startDate);
  }

  /** Between the start and maturity the accrued share stays within `[0, totalInterest]`. */
  lemma {:induction false} GenInterestBounded(totalInterest: int, maturity: int, startDate: int, t: int)
    requires maturity > startDate && totalInterest >= 0 && startDate <= t <= maturity
    ensures 0 <= GenInterest(totalInterest, maturity, startDate, t).value <= totalInterest
  {
    GenInterestEndpoints(totalInterest, maturity, startDate);
    GenInterestMonotone(totalInterest, maturity, startDate, startDate, t);
    GenInterestMonotone(totalInterest, maturity, startDate, t, maturity);
  }

  // ---------------------------------------------------------------------------
  // Periods

  /** `Number(position.paidAt) > bound`; an absent `paidAt` is `NaN`, which
      compares false. */
  predicate PaidAfter(paidAt: Option<int>, bound: int)
  {
    paidAt.Some? && paidAt.value > bound
  }

  /** When the next monthly payment falls due: one round after the last payment,
      but never after maturity. */
  function NextPaymentDate(lastPaidAt: int, monthlyRound: int, maturity: int): (d: int)
    ensures d <= maturity && d <= lastPaidAt + monthlyRound
    ensures d == maturity || d == lastPaidAt + monthlyRound
  {
    if lastPaidAt + monthlyRound > maturity then maturity else lastPaidAt + monthlyRound
  }

  /** The next payment date of the lender in `input`. */
  function NextDue(input: Input): int
  {
    NextPaymentDate(input.lenderInfo.lastPaidAt, input.poolInfo.monthlyRound, input.poolInfo.maturityDate)
  }

  /** The periods `calculateTimestamps` derives for `position`. */
  function Timestamps(position: Position, input: Input): (p: Periods)
    ensures p.now == input.currentTs
  {
    var now := input.currentTs;
    var maturity := input.poolInfo.maturityDate;
    var lastPaidAt := input.lenderInfo.lastPaidAt;
    var round := input.poolInfo.monthlyRound;
    var start := position.timestamp;
    var (next, overdue) :=
      if input.poolInfo.repaymentType == Monthly then
        var base :=
          if start > lastPaidAt then lastPaidAt + round - start
          else if maturity - lastPaidAt > round then round
          else maturity - lastPaidAt;
        var due := NextPaymentDate(lastPaidAt, round, maturity);
        if now > due then (base + (now - due), now - due) else (base, 0)
      else (0, 0);
    var total := if now > maturity then now - start else maturity - start;
    var penalty :=
      if position.paid then (if PaidAfter(position.paidAt, maturity) then now - maturity else 0)
      else if now > maturity then now - maturity else 0;
    Periods(total, penalty, next, overdue, now)
  }

  /** `calculateTimestamps`, statement by statement. */
  method CalculateTimestamps(position: Position, input: Input) returns (p: Periods)
    ensures p == Timestamps(position, input)
  {
    var now := input.currentTs;
    var maturity := input.poolInfo.maturityDate;
    var lastPaidAt := input.lenderInfo.lastPaidAt;
    var monthlyRound := input.poolInfo.monthlyRound;
    var positionStartDate := position.timestamp;
    var penaltyStartDate := maturity;

    var nextPaymentPeriod := 0;
    var interestPenaltyPeriod := 0;

    if input.poolInfo.repaymentType == Monthly {
      nextPaymentPeriod :=
        if positionStartDate > lastPaidAt then lastPaidAt + monthlyRound - positionStartDate
        else if maturity - lastPaidAt > monthlyRound then monthlyRound
        else maturity - lastPaidAt;
      var nextPaymentDate := if lastPaidAt + monthlyRound > maturity then maturity else lastPaidAt + monthlyRound;
      interestPenaltyPeriod := if now > nextPaymentDate then now - nextPaymentDate else 0;
      nextPaymentPeriod := if now > nextPaymentDate then nextPaymentPeriod + (now - nextPaymentDate) else nextPaymentPeriod;
    }

    var totalPeriod := if now > maturity then now - positionStartDate else maturity - positionStartDate;

    var penaltyPeriod := 0;
    if position.paid {
      if position.paidAt.Some? && position.paidAt.value > penaltyStartDate {
        penaltyPeriod := now - penaltyStartDate;
      }
    } else {
      if now > penaltyStartDate {
        penaltyPeriod := now - penaltyStartDate;
      }
    }
    p := Periods(totalPeriod, penaltyPeriod, nextPaymentPeriod, interestPenaltyPeriod, now);
  }

  /** A bullet pool has no monthly payments: no next-payment period and no
      overdue interest period. */
  lemma BulletPeriods(position: Position, input: Input)
    requires input.poolInfo.repaymentType == Bullet
    ensures Timestamps(position, input).nextPaymentPeriod == 0
    ensures Timestamps(position, input).interestPenaltyPeriod == 0
  {
  }

  /** An unpaid position is penalised for the time elapsed past maturity; a paid
      one only when it was paid after maturity. */
  lemma PenaltyPeriod(position: Position, input: Input)
    ensures var maturity := input.poolInfo.maturityDate;
      !position.paid ==> Timestamps(position, input).penaltyPeriod == Text.Max(0, input.currentTs - maturity)
    ensures position.paid && !PaidAfter(position.paidAt, input.poolInfo.maturityDate) ==>
      Timestamps(position, input).penaltyPeriod == 0
  {
  }

  /** In a monthly pool, interest is overdue for the time elapsed past the next
      payment date. For a position already open at the last payment and a
      payment not yet overdue, the next period runs from the last payment to
      the next payment date. */
  lemma MonthlyPeriods(position: Position, input: Input)
    requires input.poolInfo.repaymentType == Monthly
    ensures Timestamps(position, input).interestPenaltyPeriod == Text.Max(0, input.currentTs - NextDue(input))
    ensures position.timestamp <= input.lenderInfo.lastPaidAt && input.currentTs <= NextDue(input) ==>
      Timestamps(position, input).nextPaymentPeriod == NextDue(input) - input.lenderInfo.lastPaidAt &&
      Timestamps(position, input).interestPenaltyPeriod == 0
  {
  }

  /** The total period runs from the position's start to maturity, or to now
      once maturity has passed. */
  lemma TotalPeriod(position: Position, input: Input)
    ensures Timestamps(position, input).totalPeriod == Text.Max(input.currentTs, input.poolInfo.maturityDate) - position.timestamp
  {
  }

  // ---------------------------------------------------------------------------
  // Amounts of one position

  /** The amounts `_getPositionAmounts` reports for `position`, or the error it
      throws when the position's interval `[timestamp, endAt]` is empty and the
      interest has to be pro-rated over it. */
  function PositionAmounts(input: Input, position: Position): (r: Result<Amounts, Thrown>)
    ensures r.Err? <==> position.endAt == position.timestamp && (!position.paid || PaidAfter(position.paidAt, position.endAt))
    ensures r.Ok? ==> r.value.balance == position.amount
  {
    var amount := position.amount;
    var interest := position.interest;
    var periods := Timestamps(position, input);
    var penalty := CalcInterest(amount, input.poolInfo.penaltyRate, periods.penaltyPeriod);
    var interestPenalty := CalcInterest(amount, input.poolInfo.penaltyRate, periods.interestPenaltyPeriod);
    var spreadRate := input.poolInfo.spreadRate;
    if position.paid then
      var accrued :=
        if PaidAfter(position.paidAt, position.endAt)
        then GenInterest(interest, position.endAt, position.timestamp, position.paidAt.value)
        else Ok(interest);
      if accrued.Err? then Err(accrued.error)
      else
        var spread := CalcInterestForRate(accrued.value, spreadRate);
        var due := amount + accrued.value;
        Ok(Amounts(amount, accrued.value, penalty, due, due - spread, spread, 0, interestPenalty, 0))
    else
      var accrued := GenInterest(interest, position.endAt, position.timestamp, input.currentTs);
      if accrued.Err? then Err(accrued.error)
      else
        var accrualSpread := CalcInterestForRate(accrued.value, spreadRate);
        var late := input.currentTs > position.endAt;
        var due := if late then accrued.value + amount else amount + interest;
        var dueSpread := CalcInterestForRate(if late then accrued.value else interest, spreadRate);
        var dueInterest :=
          if input.poolInfo.repaymentType == Monthly then CalcInterest(amount, input.poolInfo.rateMantissa, periods.nextPaymentPeriod) else 0;
        var dueInterestWithoutSpread :=
          if dueInterest > 0 then dueInterest - CalcInterestForRate(dueInterest, spreadRate) else 0;
        Ok(Amounts(amount, accrued.value, penalty, due, due - dueSpread, accrualSpread, dueInterest, interestPenalty, dueInterestWithoutSpread))
  }

  /** `_getPositionAmounts`, statement by statement: `due` is reassigned and the
      fields of `result` are overwritten as the source does. */
  method GetPositionAmounts(input: Input, position: Position) returns (r: Result<Amounts, Thrown>)
    ensures r == PositionAmounts(input, position)
  {
    var positionAmount := position.amount;
    var positionInterest := position.interest;
    var due := positionAmount + positionInterest;

    var periods := CalculateTimestamps(position, input);

    var result := Amounts(
      positionAmount, 0,
      CalcInterest(positionAmount, input.poolInfo.penaltyRate, periods.penaltyPeriod),
      due, 0, 0, 0,
      CalcInterest(positionAmount, input.poolInfo.penaltyRate, periods.interestPenaltyPeriod),
      0);

    if position.paid {
      var accruedInterest := positionInterest;
      if position.paidAt.Some? && position.paidAt.value > position.endAt {
        var g := GenInterest(positionInterest, position.endAt, position.timestamp, position.paidAt.value);
        if g.Err? {
          return Err(g.error);
        }
        accruedInterest := g.value;
      }
      var spreadAmount := CalcInterestForRate(accruedInterest, input.poolInfo.spreadRate);
      due := positionAmount + accruedInterest;
      result := result.(accrued := accruedInterest, due := due, dueWithoutSpread := due - spreadAmount, spread := spreadAmount);
      return Ok(result);
    } else {
      var g := GenInterest(positionInterest, position.endAt, position.timestamp, input.currentTs);
      if g.Err? {
        return Err(g.error);
      }
      var accruedInterest := g.value;
      var accrualSpread := CalcInterestForRate(accruedInterest, input.poolInfo.spreadRate);
      var spreadAmount := CalcInterestForRate(positionInterest, input.poolInfo.spreadRate);
      if input.currentTs > position.endAt {
        due := accruedInterest + positionAmount;
        spreadAmount := CalcInterestForRate(accruedInterest, input.poolInfo.spreadRate);
      }
      result := result.(accrued := accruedInterest, due := due, dueWithoutSpread := due - spreadAmount, spread := accrualSpread);

      if input.poolInfo.repaymentType == Monthly {
        result := result.(dueInterest := CalcInterest(positionAmount, input.poolInfo.rateMantissa, periods.nextPaymentPeriod));
        if result.dueInterest > 0 {
          var dueInterestSpread := CalcInterestForRate(result.dueInterest, input.poolInfo.spreadRate);
          result := result.(dueInterestWithoutSpread := result.dueInterest - dueInterestSpread);
        }
      }
    }
    r := Ok(result);
  }

  /** The penalties are interest at the penalty rate on the position's amount,
      over the penalty period and over the overdue-interest period. */
  lemma Penalties(input: Input, position: Position)
    requires PositionAmounts(input, position).Ok?
    ensures var a := PositionAmounts(input, position).value;
      var p := Timestamps(position, input);
      a.penalty == CalcInterest(position.amount, input.poolInfo.penaltyRate, p.penaltyPeriod) &&
      a.interestPenalty == CalcInterest(position.amount, input.poolInfo.penaltyRate, p.interestPenaltyPeriod)
  {
  }

  /** Until `endAt` an unpaid position owes its amount plus its full interest,
      whatever the current time. */
  lemma DueBeforeEnd(input: Input, position: Position)
    requires PositionAmounts(input, position).Ok?
    requires !position.paid && input.currentTs <= position.endAt
    ensures PositionAmounts(input, position).value.due == position.amount + position.interest
  {
  }

  /** Once paid, or once past `endAt`, a position owes its amount plus the
      accrued interest, and that due splits exactly into the lender's part and
      the spread. */
  lemma DueSplitsIntoSpread(input: Input, position: Position)
    requires PositionAmounts(input, position).Ok?
    requires position.paid || input.currentTs > position.endAt
    ensures var a := PositionAmounts(input, position).value;
      a.due == position.amount + a.accrued && a.dueWithoutSpread + a.spread == a.due
  {
  }

  /** A position paid no later than `endAt` accrued exactly its interest. */
  lemma PaidOnTime(input: Input, position: Position)
    requires position.paid && !PaidAfter(position.paidAt, position.endAt)
    ensures PositionAmounts(input, position).Ok?
    ensures PositionAmounts(input, position).value.accrued == position.interest
  {
  }

  /** Only an unpaid position of a monthly pool has monthly interest due. */
  lemma NoDueInterest(input: Input, position: Position)
    requires PositionAmounts(input, position).Ok?
    requires position.paid || input.poolInfo.repaymentType == Bullet
    ensures PositionAmounts(input, position).value.dueInterest == 0
    ensures PositionAmounts(input, position).value.dueInterestWithoutSpread == 0
  {
  }

  /** An unpaid position's accrued interest reaches its full interest exactly
      at `endAt`, and keeps growing past it. */
  lemma {:induction false} AccruedAtAndAfterEnd(input: Input, position: Position)
    requires !position.paid && position.endAt > position.timestamp && position.interest >= 0
    requires input.currentTs >= position.endAt
    ensures PositionAmounts(input, position).Ok?
    ensures input.currentTs == position.endAt ==> PositionAmounts(input, position).value.accrued == position.interest
    ensures PositionAmounts(input, position).value.accrued >= position.interest
  {
    GenInterestEndpoints(position.interest, position.endAt, position.timestamp);
    GenInterestMonotone(position.interest, position.endAt, position.timestamp, position.endAt, input.currentTs);
  }

  /** Before `endAt` an unpaid position has accrued a share of its interest
      between 0 and the whole. */
  lemma {:induction false} AccruedBeforeEnd(input: Input, position: Position)
    requires !position.paid && position.endAt > position.timestamp && position.interest >= 0
    requires position.timestamp <= input.currentTs <= position.endAt
    ensures PositionAmounts(input, position).Ok?
    ensures 0 <= PositionAmounts(input, position).value.accrued <= position.interest
  {
    GenInterestBounded(position.interest, position.endAt, position.timestamp, input.currentTs);
  }

  /** With a spread rate of at most 100%, the monthly interest due without the
      spread lies between 0 and the interest due. */
  lemma {:induction false} DueInterestWithoutSpreadBounded(input: Input, position: Position)
    requires 0 <= input.poolInfo.spreadRate <= One
    requires PositionAmounts(input, position).Ok?
    ensures 0 <= PositionAmounts(input, position).value.dueInterestWithoutSpread
    ensures PositionAmounts(input, position).value.dueInterestWithoutSpread <= Text.Max(0, PositionAmounts(input, position).value.dueInterest)
  {
    var a := PositionAmounts(input, position).value;
    if a.dueInterest > 0 {
      SpreadAtMostInterest(a.dueInterest, input.poolInfo.spreadRate);
    }
  }

  // ---------------------------------------------------------------------------
  // Amounts of all positions of a lender

  /** The nine dictionaries of `MemberAmounts<{ [key: string]: BigNumber }>`,
      keyed by position id. */
  datatype AmountTables = AmountTables(
    due: map<string, int>,
    penalty: map<string, int>,
    balance: map<string, int>,
    accrued: map<string, int>,
    dueWithoutSpread: map<string, int>,
    spread: map<string, int>,
    dueInterest: map<string, int>,
    interestPenalty: map<string, int>,
    dueInterestWithoutSpread: map<string, int>)

  /** All nine tables have an entry for the same ids. */
  predicate SameKeys(t: AmountTables)
  {
    var ks := t.due.Keys;
    t.penalty.Keys == ks && t.balance.Keys == ks && t.accrued.Keys == ks && t.dueWithoutSpread.Keys == ks &&
    t.spread.Keys == ks && t.dueInterest.Keys == ks && t.interestPenalty.Keys == ks &&
    t.dueInterestWithoutSpread.Keys == ks
  }

  const EmptyTables := AmountTables(map[], map[], map[], map[], map[], map[], map[], map[], map[])

  /** Writes one position's amounts under `id`. The source guards the last three
      writes with `if (positionData.dueInterest)`, which is always true because a
      BigNumber is an object. */
  function Record(t: AmountTables, id: string, a: Amounts): AmountTables
  {
    AmountTables(
      t.due[id := a.due], t.penalty[id := a.penalty], t.balance[id := a.balance],
      t.accrued[id := a.accrued], t.dueWithoutSpread[id := a.dueWithoutSpread], t.spread[id := a.spread],
      t.dueInterest[id := a.dueInterest], t.interestPenalty[id := a.interestPenalty],
      t.dueInterestWithoutSpread[id := a.dueInterestWithoutSpread])
  }

  /** The `reduce` over the first `n` (id, outcome) pairs: the tables, or the
      first error thrown. */
  function Collect(ids: seq<string>, outcomes: seq<Result<Amounts, Thrown>>, n: nat): (r: Result<AmountTables, Thrown>)
    requires n <= |ids| == |outcomes|
  {
    if n == 0 then Ok(EmptyTables)
    else
      var t := Collect(ids, outcomes, n - 1);
      if t.Err? then t
      else if outcomes[n - 1].Err? then Err(outcomes[n - 1].error)
      else Ok(Record(t.value, ids[n - 1], outcomes[n - 1].value))
  }

  function Ids(positions: seq<Position>): (ids: seq<string>)
    ensures |ids| == |positions| && forall k :: 0 <= k < |positions| ==> ids[k] == positions[k].id
  {
    seq(|positions|, k requires 0 <= k < |positions| => positions[k].id)
  }

  function Outcomes(input: Input, positions: seq<Position>): (os: seq<Result<Amounts, Thrown>>)
    ensures |os| == |positions|
  {
    seq(|positions|, k requires 0 <= k < |positions| => PositionAmounts(input, positions[k]))
  }

  /** What `_lenderPositionsAmountsForPool` returns for `input`. */
  function LenderTables(input: Input): Result<AmountTables, Thrown>
  {
    var ps := input.lenderInfo.positions;
    Collect(Ids(ps), Outcomes(input, ps), |ps|)
  }

  /** One step of the reduce: writes the amounts of the `i`-th position into
      the accumulator, or stops at the error it throws. */
  method AddPosition(input: Input, i: nat, result: AmountTables) returns (r: Result<AmountTables, Thrown>)
    requires i < |input.lenderInfo.positions|
    requires Collect(Ids(input.lenderInfo.positions), Outcomes(input, input.lenderInfo.positions), i) == Ok(result)
    ensures r == Collect(Ids(input.lenderInfo.positions), Outcomes(input, input.lenderInfo.positions), i + 1)
  {
    var position := input.lenderInfo.positions[i];
    var positionData := GetPositionAmounts(input, position);
    CollectStep(Ids(input.lenderInfo.positions), Outcomes(input, input.lenderInfo.positions), i, result);
    if positionData.Err? {
      return Err(positionData.error);
    }
    r := Ok(Record(result, position.id, positionData.value));
  }

  /** `_lenderPositionsAmountsForPool`: the reduce as a loop writing the
      accumulator dictionaries. */
  method LenderPositionsAmountsForPool(input: Input) returns (r: Result<AmountTables, Thrown>)
    ensures r == LenderTables(input)
  {
    var positions := input.lenderInfo.positions;
    ghost var ids, outcomes := Ids(positions), Outcomes(input, positions);
    var result := EmptyTables;
    var i := 0;
    while i < |positions|
      invariant 0 <= i <= |positions|
      invariant Collect(ids, outcomes, i) == Ok(result)
    {
      var next := AddPosition(input, i, result);
      if next.Err? {
        CollectErrorSticks(ids, outcomes, i + 1, |positions|);
        return next;
      }
      result := next.value;
      i := i + 1;
    }
    r := Ok(result);
  }

  lemma CollectStep(ids: seq<string>, outcomes: seq<Result<Amounts, Thrown>>, i: nat, t: AmountTables)
    requires i < |ids| == |outcomes| && Collect(ids, outcomes, i) == Ok(t)
    ensures Collect(ids, outcomes, i + 1) ==
      if outcomes[i].Err? then Err(outcomes[i].error) else Ok(Record(t, ids[i], outcomes[i].value))
  {
  }

  /** Once a position throws, the reduce throws that error. */
  lemma {:induction false} CollectErrorSticks(ids: seq<string>, outcomes: seq<Result<Amounts, Thrown>>, m: nat, n: nat)
    requires m <= n <= |ids| == |outcomes| && Collect(ids, outcomes, m).Err?
    ensures Collect(ids, outcomes, n) == Collect(ids, outcomes, m)
    decreases n - m
  {
    if m < n {
      CollectErrorSticks(ids, outcomes, m, n - 1);
    }
  }

  /** The tables are keyed by exactly the ids collected. */
  lemma {:induction false} CollectKeys(ids: seq<string>, outcomes: seq<Result<Amounts, Thrown>>, n: nat)
    requires n <= |ids| == |outcomes| && Collect(ids, outcomes, n).Ok?
    ensures Collect(ids, outcomes, n).value.due.Keys == set k | 0 <= k < n :: ids[k]
  {
    if n > 0 {
      CollectKeys(ids, outcomes, n - 1);
      var before := set k | 0 <= k < n - 1 :: ids[k];
      assert (set k | 0 <= k < n :: ids[k]) == before + {ids[n - 1]};
    }
  }

  /** The nine tables always have entries for the same ids. */
  lemma {:induction false} CollectSameKeys(ids: seq<string>, outcomes: seq<Result<Amounts, Thrown>>, n: nat)
    requires n <= |ids| == |outcomes| && Collect(ids, outcomes, n).Ok?
    ensures SameKeys(Collect(ids, outcomes, n).value)
  {
    if n > 0 {
      CollectSameKeys(ids, outcomes, n - 1);
      RecordSameKeys(Collect(ids, outcomes, n - 1).value, ids[n - 1], outcomes[n - 1].value);
    }
  }

  lemma RecordSameKeys(t: AmountTables, id: string, a: Amounts)
    requires SameKeys(t)
    ensures SameKeys(Record(t, id, a))
  {
    UpdateKeys(t.due, id, a.due);
    UpdateKeys(t.penalty, id, a.penalty);
    UpdateKeys(t.balance, id, a.balance);
    UpdateKeys(t.accrued, id, a.accrued);
    UpdateKeys(t.dueWithoutSpread, id, a.dueWithoutSpread);
    UpdateKeys(t.spread, id, a.spread);
    UpdateKeys(t.dueInterest, id, a.dueInterest);
    UpdateKeys(t.interestPenalty, id, a.interestPenalty);
    UpdateKeys(t.dueInterestWithoutSpread, id, a.dueInterestWithoutSpread);
  }

  lemma UpdateKeys(m: map<string, int>, k: string, v: int)
    ensures m[k := v].Keys == m.Keys + {k}
  {
  }

  /** The amounts the nine tables hold under `id`. */
  function Entry(t: AmountTables, id: string): Amounts
    requires SameKeys(t) && id in t.due
  {
    Amounts(t.balance[id], t.accrued[id], t.penalty[id], t.due[id], t.dueWithoutSpread[id], t.spread[id],
      t.dueInterest[id], t.interestPenalty[id], t.dueInterestWithoutSpread[id])
  }

  /** With distinct ids, the tables hold under each id exactly the amounts
      collected for it. */
  lemma {:induction false} CollectPerId(ids: seq<string>, outcomes: seq<Result<Amounts, Thrown>>, n: nat, k: nat)
    requires forall i, j :: 0 <= i < j < |ids| ==> ids[i] != ids[j]
    requires n <= |ids| == |outcomes| && Collect(ids, outcomes, n).Ok?
    requires k < n
    ensures outcomes[k].Ok? && ids[k] in Collect(ids, outcomes, n).value.due
    ensures SameKeys(Collect(ids, outcomes, n).value)
    ensures Entry(Collect(ids, outcomes, n).value, ids[k]) == outcomes[k].value
  {
    CollectSameKeys(ids, outcomes, n);
    var t := Collect(ids, outcomes, n - 1).value;
    CollectSameKeys(ids, outcomes, n - 1);
    if k < n - 1 {
      CollectPerId(ids, outcomes, n - 1, k);
    }
    RecordEntry(t, ids[n - 1], outcomes[n - 1].value, ids[k]);
  }

  /** Reading back after a write: the written amounts under the written id,
      the previous ones under any other id. */
  lemma RecordEntry(t: AmountTables, id: string, a: Amounts, x: string)
    requires SameKeys(t) && (x == id || x in t.due)
    ensures SameKeys(Record(t, id, a)) && x in Record(t, id, a).due
    ensures Entry(Record(t, id, a), x) == if x == id then a else Entry(t, x)
  {
    RecordSameKeys(t, id, a);
  }

  /** A lender's tables are an error exactly when one of the lender's
      positions throws. */
  lemma {:induction false} LenderTablesOkIff(input: Input)
    ensures var ps := input.lenderInfo.positions;
      LenderTables(input).Ok? <==> forall k :: 0 <= k < |ps| ==> PositionAmounts(input, ps[k]).Ok?
  {
    var ps := input.lenderInfo.positions;
    var outcomes := Outcomes(input, ps);
    CollectOkIff(Ids(ps), outcomes, |ps|);
    assert forall k :: 0 <= k < |ps| ==> outcomes[k] == PositionAmounts(input, ps[k]);
  }

  /** For a lender with one position per id, the tables have an entry for
      exactly the lender's positions, and each entry is that position's own
      amounts. */
  lemma {:induction false} LenderTablesPerPosition(input: Input)
    requires forall i, j :: 0 <= i < j < |input.lenderInfo.positions| ==>
      input.lenderInfo.positions[i].id != input.lenderInfo.positions[j].id
    requires LenderTables(input).Ok?
    ensures var ps := input.lenderInfo.positions;
      LenderTables(input).value.due.Keys == (set k | 0 <= k < |ps| :: ps[k].id)
    ensures SameKeys(LenderTables(input).value)
    ensures var ps := input.lenderInfo.positions;
      forall k :: 0 <= k < |ps| ==>
        PositionAmounts(input, ps[k]).Ok? && ps[k].id in LenderTables(input).value.due &&
        Entry(LenderTables(input).value, ps[k].id) == PositionAmounts(input, ps[k]).value
  {
    var ps := input.lenderInfo.positions;
    var ids, outcomes := Ids(ps), Outcomes(input, ps);
    CollectKeys(ids, outcomes, |ps|);
    CollectSameKeys(ids, outcomes, |ps|);
    assert (set k | 0 <= k < |ps| :: ids[k]) == (set k | 0 <= k < |ps| :: ps[k].id);
    forall k | 0 <= k < |ps|
      ensures PositionAmounts(input, ps[k]).Ok? && ps[k].id in LenderTables(input).value.due
      ensures Entry(LenderTables(input).value, ps[k].id) == PositionAmounts(input, ps[k]).value
    {
      CollectPerId(ids, outcomes, |ps|, k);
    }
  }

  lemma {:induction false} CollectOkIff(ids: seq<string>, outcomes: seq<Result<Amounts, Thrown>>, n: nat)
    requires n <= |ids| == |outcomes|
    ensures Collect(ids, outcomes, n).Ok? <==> forall k :: 0 <= k < n ==> outcomes[k].Ok?
  {
    if n > 0 {
      CollectOkIff(ids, outcomes, n - 1);
    }
  }
}
