/** A lender's bookkeeping in one pool: transactions, the membership's running
    totals, its positions, and what it received per repayment period. */
module MemberAccounting {
  import opened Wrappers
  import opened GraphStore
  import opened SubgraphIds
  import opened SubgraphMath

  /** The transaction `handleTx` records. */
  function NewTransaction(txType: TxType, timestamp: int, txHash: string, txIndex: string, pool: string, from: string, to: string, amount: int): Transaction
  {
    Transaction(CreateTxId(txHash, txIndex), timestamp, from, to, txHash, pool, amount, txType)
  }

  /** `handleTx(...)`: records a transaction under `<hash>@<index>`. */
  method HandleTx(st: Store, txType: TxType, timestamp: int, txHash: string, txIndex: string, pool: string, from: string, to: string, amount: int)
    modifies st`transactions
    ensures st.transactions == old(st.transactions)[CreateTxId(txHash, txIndex) := NewTransaction(txType, timestamp, txHash, txIndex, pool, from, to, amount)]
  {
    var txId := CreateTxId(txHash, txIndex);
    var tx := Transaction(txId, timestamp, from, to, txHash, pool, amount, txType);
    st.transactions := st.transactions[txId := tx];
  }

  /** `getMemberPrincipal(pool, lender)`: the lender's principal in the pool,
      0 for a lender who is not a member. */
  method GetMemberPrincipal(st: Store, pool: string, lender: string) returns (amount: int)
    ensures CreateMemberId(pool, lender) in st.poolMembers ==> amount == st.poolMembers[CreateMemberId(pool, lender)].principal
    ensures CreateMemberId(pool, lender) !in st.poolMembers ==> amount == 0
  {
    amount := 0;
    var memberId := CreateMemberId(pool, lender);
    if memberId in st.poolMembers {
      amount := st.poolMembers[memberId].principal;
    }
  }

  /** The principal `getMemberPrincipal` reads. */
  function Principal(poolMembers: map<string, PoolMember>, pool: string, lender: string): int
  {
    var memberId := CreateMemberId(pool, lender);
    if memberId in poolMembers then poolMembers[memberId].principal else 0
  }

  /** The payment `createOrUpdateRepaymentPayment` saves: a new one, or the
      stored one with the amounts added. */
  function PaymentAfter(payments: map<string, RepaymentPayment>, repaymentId: string, lender: string, repayed: int, penalty: int, spreadFee: int): RepaymentPayment
  {
    var id := CreateRepaymentPaymentId(repaymentId, lender);
    if id in payments then
      var p := payments[id];
      p.(amount := p.amount + repayed, penalty := p.penalty + penalty, spread := p.spread + spreadFee)
    else RepaymentPayment(id, repaymentId, lender, repayed, penalty, spreadFee)
  }

  /** `createOrUpdateRepaymentPayment(repaymentId, event)`. */
  method CreateOrUpdateRepaymentPayment(st: Store, repaymentId: string, lender: string, repayed: int, penalty: int, spreadFee: int)
    modifies st`repaymentPayments
    ensures st.repaymentPayments == old(st.repaymentPayments)[CreateRepaymentPaymentId(repaymentId, lender) :=
      PaymentAfter(old(st.repaymentPayments), repaymentId, lender, repayed, penalty, spreadFee)]
  {
    var id := CreateRepaymentPaymentId(repaymentId, lender);
    var payment: RepaymentPayment;
    if id !in st.repaymentPayments {
      payment := RepaymentPayment(id, repaymentId, lender, repayed, penalty, spreadFee);
    } else {
      payment := st.repaymentPayments[id];
      payment := payment.(amount := payment.amount + repayed, penalty := payment.penalty + penalty, spread := payment.spread + spreadFee);
    }
    st.repaymentPayments := st.repaymentPayments[id := payment];
  }

  /** Two payments of a lender for one period add up: the stored payment holds
      the sums of the amounts, penalties and spreads paid, whether or not one
      was stored before. */
  lemma PaymentsAccumulate(payments: map<string, RepaymentPayment>, repaymentId: string, lender: string,
                           repayed1: int, penalty1: int, spread1: int, repayed2: int, penalty2: int, spread2: int)
    ensures var id := CreateRepaymentPaymentId(repaymentId, lender);
      var first := PaymentAfter(payments, repaymentId, lender, repayed1, penalty1, spread1);
      var second := PaymentAfter(payments[id := first], repaymentId, lender, repayed2, penalty2, spread2);
      var before := if id in payments then payments[id] else RepaymentPayment(id, repaymentId, lender, 0, 0, 0);
      second.amount == before.amount + repayed1 + repayed2 &&
      second.penalty == before.penalty + penalty1 + penalty2 &&
      second.spread == before.spread + spread1 + spread2 &&
      second.(amount := before.amount, penalty := before.penalty, spread := before.spread) == before
  {
  }

  /** The position `handleMemberLend` saves as the lender's `index`-th one. Its
      pool, interest and end come from the stored pool; without one they are
      left at their zero values. */
  function NewPosition(pools: map<string, Pool>, ev: EventInfo, lender: string, amount: int, index: nat): (r: Position)
    ensures r.id == CreatePositionId(ev.address, lender, index) && r.lender == lender
    ensures r.amount == amount && r.timestamp == ev.timestamp && !r.paid && r.paidAt.None?
  {
    var positionId := CreatePositionId(ev.address, lender, index);
    if ev.address in pools then
      var pool := pools[ev.address];
      Position(positionId, pool.id, lender, amount, ev.timestamp,
        CalcInterest(amount, pool.rateMantissa, ev.timestamp, pool.maturityDate), pool.maturityDate,
        false, None, 0, 0, 0, ev.txHash)
    else Position(positionId, "", lender, amount, ev.timestamp, 0, 0, false, None, 0, 0, 0, ev.txHash)
  }

  /** The membership after lending `amount`. */
  function LentMember(member: PoolMember, ev: EventInfo, lender: string, amount: int): PoolMember
  {
    member.(principal := member.principal + amount,
            positionAmount := member.positionAmount + amount,
            positions := member.positions + [CreatePositionId(ev.address, lender, |member.positions|)],
            transactions := member.transactions + [CreateTxId(ev.txHash, ev.txIndex)])
  }

  /** A membership whose positions are the lender's 0th, 1st, … positions in
      the pool, as `handleMemberLend` numbers them. */
  ghost predicate PositionsNumbered(member: PoolMember, pool: string, lender: string)
  {
    forall k :: 0 <= k < |member.positions| ==> member.positions[k] == CreatePositionId(pool, lender, k)
  }

  /** Lending adds exactly `amount` to the principal and the position amount,
      changes no other total, and appends one position whose id no earlier
      position has. */
  lemma LentMemberEffect(member: PoolMember, ev: EventInfo, lender: string, amount: int)
    requires PositionsNumbered(member, ev.address, lender)
    ensures var m := LentMember(member, ev, lender, amount);
      m.principal == member.principal + amount && m.positionAmount == member.positionAmount + amount &&
      m.(principal := member.principal, positionAmount := member.positionAmount,
         positions := member.positions, transactions := member.transactions) == member &&
      PositionsNumbered(m, ev.address, lender) &&
      CreatePositionId(ev.address, lender, |member.positions|) !in member.positions
  {
    var n := |member.positions|;
    forall k | 0 <= k < n
      ensures member.positions[k] != CreatePositionId(ev.address, lender, n)
    {
      PositionIdInjective(ev.address, lender, k, n);
    }
  }

  /** A new position's interest is what its amount earns at the pool's rate
      from the lending time to maturity: never negative when neither is, and 0
      when lent at maturity. */
  lemma NewPositionInterest(pools: map<string, Pool>, ev: EventInfo, lender: string, amount: int, index: nat)
    requires ev.address in pools
    requires amount >= 0 && pools[ev.address].rateMantissa >= 0 && ev.timestamp <= pools[ev.address].maturityDate
    ensures var p := NewPosition(pools, ev, lender, amount, index);
      p.endAt == pools[ev.address].maturityDate && !p.paid && p.amount == amount && 0 <= p.interest &&
      (ev.timestamp == p.endAt ==> p.interest == 0)
  {
    var pool := pools[ev.address];
    CalcInterestMonotone(amount, pool.rateMantissa, ev.timestamp, ev.timestamp, pool.maturityDate);
  }

  /** `handleMemberLend(event)`: a member's principal and position amount grow
      by the amount, and a new position is saved and appended. */
  method MemberLend(st: Store, ev: EventInfo, lender: string, amount: int)
    modifies st`poolMembers, st`positions
    ensures var memberId := CreateMemberId(ev.address, lender);
      if memberId in old(st.poolMembers) then
        var member := old(st.poolMembers)[memberId];
        st.poolMembers == old(st.poolMembers)[memberId := LentMember(member, ev, lender, amount)] &&
        st.positions == old(st.positions)[CreatePositionId(ev.address, lender, |member.positions|) :=
          NewPosition(st.pools, ev, lender, amount, |member.positions|)]
      else st.poolMembers == old(st.poolMembers) && st.positions == old(st.positions)
  {
    var memberId := CreateMemberId(ev.address, lender);
    if memberId in st.poolMembers {
      var member := st.poolMembers[memberId];
      member := member.(principal := member.principal + amount, positionAmount := member.positionAmount + amount);
      var memberPositions := member.positions;
      var positionId := CreatePositionId(ev.address, lender, |memberPositions|);
      var position := Position(positionId, "", lender, amount, ev.timestamp, 0, 0, false, None, 0, 0, 0, ev.txHash);
      if ev.address in st.pools {
        var pool := st.pools[ev.address];
        position := position.(pool := pool.id,
                              interest := CalcInterest(amount, pool.rateMantissa, ev.timestamp, pool.maturityDate),
                              endAt := pool.maturityDate);
      }
      st.positions := st.positions[positionId := position];
      memberPositions := memberPositions + [positionId];
      member := member.(positions := memberPositions);
      var txs := member.transactions;
      txs := txs + [CreateTxId(ev.txHash, ev.txIndex)];
      member := member.(transactions := txs);
      st.poolMembers := st.poolMembers[memberId := member];
    }
  }

  /** The membership after a full repayment of `repayed`: the part above the
      principal is interest, net of the penalty; the principal is cleared and
      the repayment time recorded. */
  function RepaidMember(member: PoolMember, repayed: int, penalty: int, spreadFee: int, originationFee: int, txId: string, timestamp: int): PoolMember
  {
    var interest := repayed - member.principal;
    member.(accrued := member.accrued + interest - penalty,
            interestRepaid := member.interestRepaid + interest - penalty,
            penalty := member.penalty + penalty,
            spreadFeeAmount := member.spreadFeeAmount + spreadFee,
            originationFeeAmount := member.originationFeeAmount + originationFee,
            totalDue := member.totalDue + repayed,
            principal := 0,
            transactions := member.transactions + [txId],
            lastPaidAt := timestamp)
  }

  /** A full repayment returns the principal: the interest recorded is what
      was repaid beyond the principal, less the penalty. */
  lemma RepaidMemberEffect(member: PoolMember, repayed: int, penalty: int, spreadFee: int, originationFee: int, txId: string, timestamp: int)
    ensures var m := RepaidMember(member, repayed, penalty, spreadFee, originationFee, txId, timestamp);
      m.principal == 0 && m.totalDue == member.totalDue + repayed &&
      (m.interestRepaid - member.interestRepaid) + penalty + member.principal == repayed &&
      m.positions == member.positions && m.callbacks == member.callbacks && m.positionAmount == member.positionAmount
  {
  }

  /** The id of the period before the pool's next one: the last period
      scheduled before `repaymentPeriodIndex`. */
  function LastRepaymentId(pool: Pool): string
  {
    CreateRepaymentId(pool.id, pool.repaymentPeriodIndex - 1)
  }

  /** The period a repayment charges, if any: for a monthly pool, the stored
      period before the pool's next one. */
  function ChargedRepayment(pools: map<string, Pool>, repayments: map<string, Repayment>, poolId: string): Option<string>
  {
    if poolId in pools && pools[poolId].repaymentType == Monthly && LastRepaymentId(pools[poolId]) in repayments
    then Some(LastRepaymentId(pools[poolId])) else None
  }

  /** A period after receiving `repayed` with `spreadFee` and `penalty`. */
  function Charged(repayment: Repayment, repayed: int, penalty: int, spreadFee: int): Repayment
  {
    repayment.(penalty := repayment.penalty + penalty, repaid := repayment.repaid + repayed + spreadFee)
  }

  /** The last callback of a membership is marked paid if it was not yet; the
      flag says whether it was an open callback. */
  function PaidCallback(callbacks: map<string, Callback>, member: PoolMember): (r: (map<string, Callback>, bool))
    ensures r.1 ==>
      |member.callbacks| > 0 && member.callbacks[|member.callbacks| - 1] in callbacks &&
      !callbacks[member.callbacks[|member.callbacks| - 1]].paid &&
      r.0 == callbacks[member.callbacks[|member.callbacks| - 1] := callbacks[member.callbacks[|member.callbacks| - 1]].(paid := true)]
    ensures !r.1 ==> r.0 == callbacks
  {
    if |member.callbacks| > 0 then
      var id := member.callbacks[|member.callbacks| - 1];
      if id in callbacks && !callbacks[id].paid then (callbacks[id := callbacks[id].(paid := true)], true)
      else (callbacks, false)
    else (callbacks, false)
  }

  /** The stored period `pool.currentRepayment` names, if any. */
  function CurrentRepayment(repayments: map<string, Repayment>, pool: Pool): Option<Repayment>
  {
    if pool.currentRepayment.Some? && pool.currentRepayment.value in repayments
    then Some(repayments[pool.currentRepayment.value]) else None
  }

  /** One position after its lender's full repayment at `timestamp`. With the
      pool stored, the position is charged penalty interest past its end and,
      on a monthly pool, past the end of the current period, and credited the
      interest since the later of its opening and the last payment: up to the
      repayment time when a callback was open, up to the later of its end and
      the repayment time otherwise. The position is then marked paid. */
  function RepaidPosition(position: Position, pool: Option<Pool>, current: Option<Repayment>, timestamp: int, lastPaidAt: int, hasRequestedCallback: bool): Position
  {
    var p := if pool.Some? then
      var pl := pool.value;
      var maturityDate := if timestamp > position.endAt then timestamp else position.endAt;
      var penalty := CalcInterest(position.amount, pl.penaltyRate, position.endAt, maturityDate);
      var from := if position.timestamp > lastPaidAt then position.timestamp else lastPaidAt;
      var interest :=
        if position.timestamp > lastPaidAt then
          (if hasRequestedCallback then CalcInterest(position.amount, pl.rateMantissa, position.timestamp, timestamp)
           else CalcInterest(position.amount, pl.rateMantissa, position.timestamp, maturityDate))
        else if hasRequestedCallback then
          (if lastPaidAt >= timestamp then 0 else CalcInterest(position.amount, pl.rateMantissa, lastPaidAt, timestamp))
        else CalcInterest(position.amount, pl.rateMantissa, lastPaidAt, maturityDate);
      var latePenalty :=
        if pl.repaymentType == Monthly && current.Some? && timestamp > current.value.endDate
        then CalcInterest(position.amount, pl.penaltyRate, current.value.endDate, timestamp) else 0;
      var interestRepaid := position.interestRepaid + interest;
      (position.(interestRepaid := interestRepaid, spreadRepaid := CalcFeeFromInterest(interestRepaid, pl.spreadRate)), penalty + latePenalty)
    else (position, 0);
    p.0.(paid := true, penalty := p.0.penalty + p.1, paidAt := Some(timestamp))
  }

  /** Repaying a position marks it paid at the repayment time; with the pool
      stored and a spread rate of at most 100%, the spread taken lies between
      zero and the interest repaid. */
  lemma RepaidPositionEffect(position: Position, pool: Option<Pool>, current: Option<Repayment>, timestamp: int, lastPaidAt: int, hasRequestedCallback: bool)
    ensures var p := RepaidPosition(position, pool, current, timestamp, lastPaidAt, hasRequestedCallback);
      p.paid && p.paidAt == Some(timestamp) && p.amount == position.amount && p.endAt == position.endAt &&
      (pool.Some? && p.interestRepaid >= 0 && 0 <= pool.value.spreadRate <= Multiplier ==> 0 <= p.spreadRepaid <= p.interestRepaid)
  {
    var p := RepaidPosition(position, pool, current, timestamp, lastPaidAt, hasRequestedCallback);
    if pool.Some? {
      FeeIsSdkSpread(p.interestRepaid, pool.value.spreadRate);
    }
  }

  /** The positions table after the loop of `handleMemberRepay` over `ids`:
      every stored, unpaid listed position is repaid, in order. */
  function RepayPositions(positions: map<string, Position>, ids: seq<string>, pool: Option<Pool>, current: Option<Repayment>, timestamp: int, lastPaidAt: int, hasRequestedCallback: bool): map<string, Position>
  {
    if |ids| == 0 then positions
    else
      var n := |ids| - 1;
      var prev := RepayPositions(positions, ids[..n], pool, current, timestamp, lastPaidAt, hasRequestedCallback);
      if ids[n] in prev && !prev[ids[n]].paid
      then prev[ids[n] := RepaidPosition(prev[ids[n]], pool, current, timestamp, lastPaidAt, hasRequestedCallback)]
      else prev
  }

  /** After a full repayment every stored position of the member is paid, no
      position is added or removed, and positions the member does not list
      are left as they were. */
  lemma {:induction false} RepayPositionsEffect(positions: map<string, Position>, ids: seq<string>, pool: Option<Pool>, current: Option<Repayment>, timestamp: int, lastPaidAt: int, hasRequestedCallback: bool)
    ensures var r := RepayPositions(positions, ids, pool, current, timestamp, lastPaidAt, hasRequestedCallback);
      (forall id :: id in r <==> id in positions) &&
      (forall id :: id in ids && id in positions ==> r[id].paid) &&
      (forall id :: id in positions && (id !in ids || positions[id].paid) ==> r[id] == positions[id])
  {
    if |ids| > 0 {
      var n := |ids| - 1;
      RepayPositionsEffect(positions, ids[..n], pool, current, timestamp, lastPaidAt, hasRequestedCallback);
      assert ids == ids[..n] + [ids[n]];
      var prev := RepayPositions(positions, ids[..n], pool, current, timestamp, lastPaidAt, hasRequestedCallback);
      if ids[n] in prev && !prev[ids[n]].paid {
        RepaidPositionEffect(prev[ids[n]], pool, current, timestamp, lastPaidAt, hasRequestedCallback);
      }
    }
  }

  /** The loop of `handleMemberRepay` over the member's positions. */
  method RepayMemberPositions(st: Store, ids: seq<string>, pool: Option<Pool>, current: Option<Repayment>, timestamp: int, lastPaidAt: int, hasRequestedCallback: bool)
    modifies st`positions
    ensures st.positions == RepayPositions(old(st.positions), ids, pool, current, timestamp, lastPaidAt, hasRequestedCallback)
  {
    for i := 0 to |ids|
      invariant st.positions == RepayPositions(old(st.positions), ids[..i], pool, current, timestamp, lastPaidAt, hasRequestedCallback)
    {
      assert ids[..i + 1][..i] == ids[..i];
      if ids[i] in st.positions && !st.positions[ids[i]].paid {
        var position := st.positions[ids[i]];
        position := RepaidPosition(position, pool, current, timestamp, lastPaidAt, hasRequestedCallback);
        st.positions := st.positions[ids[i] := position];
      }
    }
    assert ids[..|ids|] == ids;
  }

  /** The stored pool under `poolId`, if any. */
  function PoolOf(pools: map<string, Pool>, poolId: string): Option<Pool>
  {
    if poolId in pools then Some(pools[poolId]) else None
  }

  /** The periods table after a repayment charged the period `charged`. */
  function ChargedRepayments(repayments: map<string, Repayment>, charged: Option<string>, repayed: int, penalty: int, spreadFee: int): map<string, Repayment>
  {
    if charged.Some? && charged.value in repayments
    then repayments[charged.value := Charged(repayments[charged.value], repayed, penalty, spreadFee)]
    else repayments
  }

  /** The payments table after a repayment charged the period `charged`. */
  function ChargedPayments(payments: map<string, RepaymentPayment>, charged: Option<string>, lender: string, repayed: int, penalty: int, spreadFee: int): map<string, RepaymentPayment>
  {
    if charged.Some? then
      payments[CreateRepaymentPaymentId(charged.value, lender) := PaymentAfter(payments, charged.value, lender, repayed, penalty, spreadFee)]
    else payments
  }

  /** The current period of the pool under `poolId`, if both are stored. */
  function CurrentOf(pools: map<string, Pool>, repayments: map<string, Repayment>, poolId: string): Option<Repayment>
  {
    if poolId in pools then CurrentRepayment(repayments, pools[poolId]) else None
  }

  /** The part of `handleMemberRepay` that adds the penalty and the repaid
      amount to the last scheduled period of a monthly pool. */
  method ChargeLastRepayment(st: Store, poolId: string, lender: string, repayed: int, penalty: int, spreadFee: int)
    modifies st`repayments, st`repaymentPayments
    ensures var charged := ChargedRepayment(st.pools, old(st.repayments), poolId);
      st.repayments == ChargedRepayments(old(st.repayments), charged, repayed, penalty, spreadFee) &&
      st.repaymentPayments == ChargedPayments(old(st.repaymentPayments), charged, lender, repayed, penalty, spreadFee)
  {
    if poolId in st.pools && st.pools[poolId].repaymentType == Monthly {
      var pool := st.pools[poolId];
      var repaymentId := CreateRepaymentId(pool.id, pool.repaymentPeriodIndex - 1);
      if repaymentId in st.repayments {
        var repayment := st.repayments[repaymentId];
        CreateOrUpdateRepaymentPayment(st, repaymentId, lender, repayed, penalty, spreadFee);
        repayment := repayment.(penalty := repayment.penalty + penalty, repaid := repayment.repaid + repayed + spreadFee);
        st.repayments := st.repayments[repaymentId := repayment];
      }
    }
  }

  /** The part of `handleMemberRepay` that marks the member's last callback
      paid when it is still open, and reports whether it was. */
  method MarkCallbackPaid(st: Store, member: PoolMember) returns (hasRequestedCallback: bool)
    modifies st`callbacks
    ensures (st.callbacks, hasRequestedCallback) == PaidCallback(old(st.callbacks), member)
  {
    hasRequestedCallback := false;
    if |member.callbacks| > 0 {
      var callback := member.callbacks[|member.callbacks| - 1];
      if callback in st.callbacks && !st.callbacks[callback].paid {
        var clbkI := st.callbacks[callback].(paid := true);
        hasRequestedCallback := true;
        st.callbacks := st.callbacks[callback := clbkI];
      }
    }
  }

  /** `handleMemberRepay(event)`: the full repayment of a member. Its totals
      are settled, the last scheduled period of a monthly pool is charged, an
      open callback is marked paid, and every unpaid position is repaid. */
  method MemberRepay(st: Store, ev: EventInfo, lender: string, repayed: int, penalty: int, spreadFee: int, originationFee: int)
    modifies st`poolMembers, st`positions, st`repayments, st`repaymentPayments, st`callbacks
    ensures var memberId := CreateMemberId(ev.address, lender);
      memberId !in old(st.poolMembers) ==>
        st.poolMembers == old(st.poolMembers) && st.positions == old(st.positions) && st.repayments == old(st.repayments) &&
        st.repaymentPayments == old(st.repaymentPayments) && st.callbacks == old(st.callbacks)
    ensures var memberId := CreateMemberId(ev.address, lender);
      memberId in old(st.poolMembers) ==>
        var member := old(st.poolMembers)[memberId];
        var charged := ChargedRepayment(st.pools, old(st.repayments), ev.address);
        var callbackPaid := PaidCallback(old(st.callbacks), member);
        st.poolMembers == old(st.poolMembers)[memberId := RepaidMember(member, repayed, penalty, spreadFee, originationFee, CreateTxId(ev.txHash, ev.txIndex), ev.timestamp)] &&
        st.repayments == ChargedRepayments(old(st.repayments), charged, repayed, penalty, spreadFee) &&
        st.repaymentPayments == ChargedPayments(old(st.repaymentPayments), charged, lender, repayed, penalty, spreadFee) &&
        st.callbacks == callbackPaid.0 &&
        st.positions == RepayPositions(old(st.positions), member.positions, PoolOf(st.pools, ev.address),
          CurrentOf(st.pools, st.repayments, ev.address), ev.timestamp, member.lastPaidAt, callbackPaid.1)
  {
    var memberId := CreateMemberId(ev.address, lender);
    if memberId in st.poolMembers {
      var member := st.poolMembers[memberId];
      var interest := repayed - member.principal;
      member := member.(accrued := member.accrued + interest - penalty,
                        interestRepaid := member.interestRepaid + interest - penalty,
                        penalty := member.penalty + penalty,
                        spreadFeeAmount := member.spreadFeeAmount + spreadFee,
                        originationFeeAmount := member.originationFeeAmount + originationFee,
                        totalDue := member.totalDue + repayed,
                        principal := 0);
      ChargeLastRepayment(st, ev.address, lender, repayed, penalty, spreadFee);
      var hasRequestedCallback := MarkCallbackPaid(st, member);
      var pool := PoolOf(st.pools, ev.address);
      var current := CurrentOf(st.pools, st.repayments, ev.address);
      RepayMemberPositions(st, member.positions, pool, current, ev.timestamp, member.lastPaidAt, hasRequestedCallback);
      var txs := member.transactions;
      txs := txs + [CreateTxId(ev.txHash, ev.txIndex)];
      member := member.(transactions := txs, lastPaidAt := ev.timestamp);
      st.poolMembers := st.poolMembers[memberId := member];
    }
  }

  /** The membership after an interest payment of `repayed`, with the pool's
      new `lastPaidAt`. */
  function InterestPaidMember(member: PoolMember, repayed: int, penalty: int, spreadFee: int, txId: string, lastPaidAt: int): PoolMember
  {
    member.(transactions := member.transactions + [txId],
            lastPaidAt := lastPaidAt,
            accrued := member.accrued + repayed - penalty,
            penalty := member.penalty + penalty,
            spreadFeeAmount := member.spreadFeeAmount + spreadFee,
            interestRepaid := member.interestRepaid + repayed - penalty,
            totalDue := member.totalDue + repayed)
  }

  /** An interest payment leaves the principal and the positions alone. */
  lemma InterestPaidMemberEffect(member: PoolMember, repayed: int, penalty: int, spreadFee: int, txId: string, lastPaidAt: int)
    ensures var m := InterestPaidMember(member, repayed, penalty, spreadFee, txId, lastPaidAt);
      m.principal == member.principal && m.positions == member.positions && m.positionAmount == member.positionAmount &&
      m.lastPaidAt == lastPaidAt && m.totalDue - member.totalDue == repayed &&
      (m.interestRepaid - member.interestRepaid) + (m.penalty - member.penalty) == repayed
  {
  }

  /** One position after an interest payment that moved the pool's
      `lastPaidAt` to `lastPaidAt`: it is charged penalty interest from
      `lastPaidAt` to the payment time when that is later, and credited the
      interest from the later of its opening and the member's previous
      payment up to the later of the two. It stays unpaid. */
  function InterestPaidPosition(position: Position, pool: Option<Pool>, timestamp: int, lastPaidAt: int, lastPaymentAt: int): Position
  {
    if pool.Some? then
      var pl := pool.value;
      var repaymentMaturity := if timestamp > lastPaidAt then timestamp else lastPaidAt;
      var penalty := CalcInterest(position.amount, pl.penaltyRate, lastPaidAt, repaymentMaturity);
      var interest :=
        if position.timestamp > lastPaymentAt then CalcInterest(position.amount, pl.rateMantissa, position.timestamp, repaymentMaturity)
        else CalcInterest(position.amount, pl.rateMantissa, lastPaymentAt, repaymentMaturity);
      var interestRepaid := position.interestRepaid + interest;
      position.(interestRepaid := interestRepaid, spreadRepaid := CalcFeeFromInterest(interestRepaid, pl.spreadRate),
                penalty := position.penalty + penalty)
    else position
  }

  /** A position paid on time is charged no penalty, and an interest payment
      never marks a position paid. */
  lemma InterestPaidPositionOnTime(position: Position, pool: Option<Pool>, timestamp: int, lastPaidAt: int, lastPaymentAt: int)
    requires timestamp <= lastPaidAt
    ensures var p := InterestPaidPosition(position, pool, timestamp, lastPaidAt, lastPaymentAt);
      p.penalty == position.penalty && p.paid == position.paid && p.amount == position.amount && p.endAt == position.endAt
  {
  }

  /** The positions table after the loop of `handleMemberRepayInterest`. */
  function PayInterestPositions(positions: map<string, Position>, ids: seq<string>, pool: Option<Pool>, timestamp: int, lastPaidAt: int, lastPaymentAt: int): map<string, Position>
  {
    if |ids| == 0 then positions
    else
      var n := |ids| - 1;
      var prev := PayInterestPositions(positions, ids[..n], pool, timestamp, lastPaidAt, lastPaymentAt);
      if ids[n] in prev && !prev[ids[n]].paid
      then prev[ids[n] := InterestPaidPosition(prev[ids[n]], pool, timestamp, lastPaidAt, lastPaymentAt)]
      else prev
  }

  /** An interest payment paid on time adds no penalty to any position, and
      leaves every position's paid flag, amount and end as they were. */
  lemma {:induction false} PayInterestPositionsOnTime(positions: map<string, Position>, ids: seq<string>, pool: Option<Pool>, timestamp: int, lastPaidAt: int, lastPaymentAt: int)
    requires timestamp <= lastPaidAt
    ensures var r := PayInterestPositions(positions, ids, pool, timestamp, lastPaidAt, lastPaymentAt);
      (forall id :: id in r <==> id in positions) &&
      (forall id :: id in positions ==>
         r[id].penalty == positions[id].penalty && r[id].paid == positions[id].paid &&
         r[id].amount == positions[id].amount && r[id].endAt == positions[id].endAt)
  {
    if |ids| > 0 {
      var n := |ids| - 1;
      PayInterestPositionsOnTime(positions, ids[..n], pool, timestamp, lastPaidAt, lastPaymentAt);
      var prev := PayInterestPositions(positions, ids[..n], pool, timestamp, lastPaidAt, lastPaymentAt);
      if ids[n] in prev && !prev[ids[n]].paid {
        InterestPaidPositionOnTime(prev[ids[n]], pool, timestamp, lastPaidAt, lastPaymentAt);
      }
    }
  }

  /** The loop of `handleMemberRepayInterest` over the member's positions. */
  method PayInterestMemberPositions(st: Store, ids: seq<string>, pool: Option<Pool>, timestamp: int, lastPaidAt: int, lastPaymentAt: int)
    modifies st`positions
    ensures st.positions == PayInterestPositions(old(st.positions), ids, pool, timestamp, lastPaidAt, lastPaymentAt)
  {
    for i := 0 to |ids|
      invariant st.positions == PayInterestPositions(old(st.positions), ids[..i], pool, timestamp, lastPaidAt, lastPaymentAt)
    {
      assert ids[..i + 1][..i] == ids[..i];
      if ids[i] in st.positions && !st.positions[ids[i]].paid {
        var position := st.positions[ids[i]];
        position := InterestPaidPosition(position, pool, timestamp, lastPaidAt, lastPaymentAt);
        st.positions := st.positions[ids[i] := position];
      }
    }
    assert ids[..|ids|] == ids;
  }

  /** `handleMemberRepayInterest(event, lastPaidAt)`. */
  method MemberRepayInterest(st: Store, ev: EventInfo, lender: string, repayed: int, penalty: int, spreadFee: int, lastPaidAt: int)
    modifies st`poolMembers, st`positions
    ensures var memberId := CreateMemberId(ev.address, lender);
      memberId !in old(st.poolMembers) ==> st.poolMembers == old(st.poolMembers) && st.positions == old(st.positions)
    ensures var memberId := CreateMemberId(ev.address, lender);
      memberId in old(st.poolMembers) ==>
        var member := old(st.poolMembers)[memberId];
        st.poolMembers == old(st.poolMembers)[memberId := InterestPaidMember(member, repayed, penalty, spreadFee, CreateTxId(ev.txHash, ev.txIndex), lastPaidAt)] &&
        st.positions == PayInterestPositions(old(st.positions), member.positions, PoolOf(st.pools, ev.address), ev.timestamp, lastPaidAt, member.lastPaidAt)
  {
    var memberId := CreateMemberId(ev.address, lender);
    if memberId in st.poolMembers {
      var member := st.poolMembers[memberId];
      var txs := member.transactions;
      txs := txs + [CreateTxId(ev.txHash, ev.txIndex)];
      member := member.(transactions := txs);
      var lastPaymentAt := member.lastPaidAt;
      member := member.(lastPaidAt := lastPaidAt);
      member := member.(accrued := member.accrued + repayed - penalty,
                        penalty := member.penalty + penalty,
                        spreadFeeAmount := member.spreadFeeAmount + spreadFee,
                        interestRepaid := member.interestRepaid + repayed - penalty,
                        totalDue := member.totalDue + repayed);
      PayInterestMemberPositions(st, member.positions, PoolOf(st.pools, ev.address), ev.timestamp, lastPaidAt, lastPaymentAt);
      st.poolMembers := st.poolMembers[memberId := member];
    }
  }

  /** One position after a roll to `newMaturity`: it earns the pool's rate
      from its old end to the new one, and ends at the new one. */
  function RolledPosition(position: Position, pools: map<string, Pool>, newMaturity: int): Position
  {
    if position.pool in pools then
      var interest := CalcInterest(position.amount, pools[position.pool].rateMantissa, position.endAt, newMaturity);
      position.(interest := position.interest + interest, endAt := newMaturity)
    else position
  }

  /** The positions table after the loop of `handleRollPositions`. */
  function RollPositionsTable(positions: map<string, Position>, pools: map<string, Pool>, ids: seq<string>, newMaturity: int): map<string, Position>
  {
    if |ids| == 0 then positions
    else
      var n := |ids| - 1;
      var prev := RollPositionsTable(positions, pools, ids[..n], newMaturity);
      if ids[n] in prev then prev[ids[n] := RolledPosition(prev[ids[n]], pools, newMaturity)] else prev
  }

  /** Rolling a position that already ends at the new maturity changes nothing. */
  lemma RolledPositionFixed(position: Position, pools: map<string, Pool>, newMaturity: int)
    requires position.endAt == newMaturity
    ensures RolledPosition(position, pools, newMaturity) == position
  {
  }

  /** After a roll every listed position of a stored pool ends at the new
      maturity; no position is added or removed, and the pool each belongs to
      stays the same. */
  lemma {:induction false} RollPositionsEnds(positions: map<string, Position>, pools: map<string, Pool>, ids: seq<string>, newMaturity: int)
    ensures var r := RollPositionsTable(positions, pools, ids, newMaturity);
      (forall id :: id in r <==> id in positions) &&
      (forall id :: id in positions ==> r[id].pool == positions[id].pool) &&
      (forall id :: id in ids && id in r && r[id].pool in pools ==> r[id].endAt == newMaturity) &&
      (forall id :: id in positions && id !in ids ==> r[id] == positions[id])
  {
    if |ids| > 0 {
      var n := |ids| - 1;
      RollPositionsEnds(positions, pools, ids[..n], newMaturity);
      assert ids == ids[..n] + [ids[n]];
    }
  }

  /** Rolling changes nothing when every listed position of a stored pool
      already ends at the new maturity. */
  lemma {:induction false} RollPositionsUnchanged(positions: map<string, Position>, pools: map<string, Pool>, ids: seq<string>, newMaturity: int)
    requires forall id :: id in ids && id in positions && positions[id].pool in pools ==> positions[id].endAt == newMaturity
    ensures RollPositionsTable(positions, pools, ids, newMaturity) == positions
  {
    if |ids| > 0 {
      var n := |ids| - 1;
      assert forall id :: id in ids[..n] ==> id in ids;
      RollPositionsUnchanged(positions, pools, ids[..n], newMaturity);
      if ids[n] in positions && positions[ids[n]].pool in pools {
        RolledPositionFixed(positions[ids[n]], pools, newMaturity);
      }
    }
  }

  /** A second roll of the same positions to the same maturity adds no
      interest and changes nothing. */
  lemma RollPositionsIdempotent(positions: map<string, Position>, pools: map<string, Pool>, ids: seq<string>, newMaturity: int)
    ensures var once := RollPositionsTable(positions, pools, ids, newMaturity);
      RollPositionsTable(once, pools, ids, newMaturity) == once
  {
    RollPositionsEnds(positions, pools, ids, newMaturity);
    RollPositionsUnchanged(RollPositionsTable(positions, pools, ids, newMaturity), pools, ids, newMaturity);
  }

  /** `handleRollPositions(memberId, newMaturity)`. */
  method RollPositions(st: Store, memberId: string, newMaturity: int)
    modifies st`positions
    ensures memberId in st.poolMembers ==>
      st.positions == RollPositionsTable(old(st.positions), st.pools, st.poolMembers[memberId].positions, newMaturity)
    ensures memberId !in st.poolMembers ==> st.positions == old(st.positions)
  {
    if memberId in st.poolMembers {
      var positions := st.poolMembers[memberId].positions;
      for i := 0 to |positions|
        invariant st.positions == RollPositionsTable(old(st.positions), st.pools, positions[..i], newMaturity)
      {
        assert positions[..i + 1][..i] == positions[..i];
        if positions[i] in st.positions {
          var position := st.positions[positions[i]];
          if position.pool in st.pools {
            var pool := st.pools[position.pool];
            var interest := CalcInterest(position.amount, pool.rateMantissa, position.endAt, newMaturity);
            position := position.(interest := position.interest + interest, endAt := newMaturity);
            st.positions := st.positions[positions[i] := position];
          }
        }
      }
      assert positions[..|positions|] == positions;
    }
  }
}
