/** The handlers of a pool's events: creation, configuration, activation and
    its repayment schedule, visibility and whitelisting, rolls, callbacks,
    lending and repaying. Each handler loads the pool the event was emitted by
    and does nothing when it is not stored. */
module PoolMapping {
  import opened Wrappers
  import opened GraphStore
  import opened SubgraphIds
  import opened SubgraphMath
  import opened MappingUtil
  import opened PrimeRegistry
  import opened RepaymentSchedule
  import opened MemberAccounting

  /** The parameters of a `PoolCreated` event of the factory. */
  datatype PoolCreated = PoolCreated(
    pool: string,
    asset: string,
    borrower: string,
    isBulletLoan: bool,
    size: int,
    rateMantissa: int,
    spreadRate: int,
    originationRate: int,
    penaltyRatePerYear: int,
    tenor: int,
    depositWindow: int)

  /** Three days, the grace period of a new pool. */
  const DefaultGracePeriod: int := 3 * 24 * 60 * 60
  /** Thirty days, the length of a monthly period of a new pool. */
  const DefaultMonthlyRound: int := 30 * 24 * 60 * 60
  /** Forty-eight hours, the roll window of a new pool. */
  const DefaultRollEndingRange: int := 48 * 60 * 60

  /** The Prime members a new pool is populated with. */
  function PrimeMembers(primes: map<string, Prime>): seq<string>
  {
    if PrimeId in primes then primes[PrimeId].members else []
  }

  /** The pool `createNewPool` saves: open, public, with nothing lent, repaid
      or scheduled yet, the protocol's default periods, and `members` as its
      members. */
  function NewPool(p: PoolCreated, poolIndex: int, createdAt: int, members: seq<string>): Pool
  {
    Pool(p.pool, p.asset, poolIndex, 1, p.borrower, p.borrower, Public, Open,
         if p.isBulletLoan then Bullet else Monthly,
         p.size, 0, 0, p.rateMantissa, p.spreadRate, p.originationRate, p.penaltyRatePerYear,
         p.tenor, 0, p.depositWindow, 0, createdAt, 0, 0, 0, 0, 0, 0, 0,
         DefaultGracePeriod, DefaultMonthlyRound, DefaultRollEndingRange, members, None, None)
  }

  /** `createNewPool(event, poolIndex)`: a pool that is not stored yet is
      created, listed as public and populated with every Prime member but its
      borrower, each whitelisted; a stored pool is saved again unchanged. */
  method CreateNewPool(st: Store, p: PoolCreated, timestamp: int, poolIndex: int)
    modifies st`pools, st`primes, st`poolMembers
    ensures p.pool in old(st.pools) ==>
      st.pools == old(st.pools) && st.primes == old(st.primes) && st.poolMembers == old(st.poolMembers)
    ensures p.pool !in old(st.pools) ==>
      var members := PrimeMembers(old(st.primes));
      st.pools == old(st.pools)[p.pool := NewPool(p, poolIndex, timestamp, Populated(p.pool, members, p.borrower))] &&
      st.primes == WithPublicPool(old(st.primes), p.pool) &&
      st.poolMembers == WhitelistAll(old(st.poolMembers), p.pool, members, p.borrower)
  {
    if p.pool !in st.pools {
      var pool := Pool(p.pool, p.asset, poolIndex, 1, p.borrower, p.borrower, Public, Open,
                       if p.isBulletLoan then Bullet else Monthly,
                       p.size, 0, 0, p.rateMantissa, p.spreadRate, p.originationRate, p.penaltyRatePerYear,
                       p.tenor, 0, p.depositWindow, 0, timestamp, 0, 0, 0, 0, 0, 0, 0,
                       DefaultGracePeriod, DefaultMonthlyRound, DefaultRollEndingRange, [], None, None);
      AddToPublicPool(st, p.pool);
      var members := PopulatePoolWithMembers(st, p.pool, p.borrower);
      pool := pool.(members := members);
      st.pools := st.pools[p.pool := pool];
    }
  }

  /** A new pool lists exactly the Prime members other than its borrower,
      each with a whitelisted membership, and every membership listed before
      is still recorded. */
  lemma CreateNewPoolRecorded(pools: map<string, Pool>, poolMembers: map<string, PoolMember>, primes: map<string, Prime>, p: PoolCreated, poolIndex: int, timestamp: int)
    requires MembersRecorded(pools, poolMembers)
    ensures var members := PrimeMembers(primes);
      var pools' := pools[p.pool := NewPool(p, poolIndex, timestamp, Populated(p.pool, members, p.borrower))];
      var poolMembers' := WhitelistAll(poolMembers, p.pool, members, p.borrower);
      MembersRecorded(pools', poolMembers') &&
      (forall m :: CreateMemberId(p.pool, m) in pools'[p.pool].members <==> m in members && m != p.borrower) &&
      (forall id :: id in pools'[p.pool].members ==> id in poolMembers' && poolMembers'[id].status == Whitelisted)
  {
    var members := PrimeMembers(primes);
    WhitelistAllRecords(poolMembers, p.pool, members, p.borrower);
    forall m
      ensures CreateMemberId(p.pool, m) in Populated(p.pool, members, p.borrower) <==> m in members && m != p.borrower
    {
      PopulatedMembers(p.pool, members, p.borrower, m);
    }
  }

  /** `handleGracePeriodChange(event)`. */
  method GracePeriodChange(st: Store, address: string, newPeriod: int)
    modifies st`pools
    ensures address in old(st.pools) ==> st.pools == old(st.pools)[address := old(st.pools)[address].(gracePeriod := newPeriod)]
    ensures address !in old(st.pools) ==> st.pools == old(st.pools)
  {
    if address in st.pools {
      var pool := st.pools[address];
      pool := pool.(gracePeriod := newPeriod);
      st.pools := st.pools[address := pool];
    }
  }

  /** `handleMonthlyRoundPeriodChange(event)`. */
  method MonthlyRoundPeriodChange(st: Store, address: string, newPeriod: int)
    modifies st`pools
    ensures address in old(st.pools) ==> st.pools == old(st.pools)[address := old(st.pools)[address].(monthlyRound := newPeriod)]
    ensures address !in old(st.pools) ==> st.pools == old(st.pools)
  {
    if address in st.pools {
      var pool := st.pools[address];
      pool := pool.(monthlyRound := newPeriod);
      st.pools := st.pools[address := pool];
    }
  }

  /** `handleRollRangePeriodChange(event)`. */
  method RollRangePeriodChange(st: Store, address: string, newPeriod: int)
    modifies st`pools
    ensures address in old(st.pools) ==> st.pools == old(st.pools)[address := old(st.pools)[address].(rollEndingRange := newPeriod)]
    ensures address !in old(st.pools) ==> st.pools == old(st.pools)
  {
    if address in st.pools {
      var pool := st.pools[address];
      pool := pool.(rollEndingRange := newPeriod);
      st.pools := st.pools[address := pool];
    }
  }

  /** The pool after activation at `timestamp`; `next` is the index after
      the periods scheduled. A monthly pool's current period becomes the
      first one scheduled. */
  function ActivatedPool(pool: Pool, timestamp: int, depositMaturity: int, maturityDate: int, next: int): Pool
  {
    var pool' := pool.(status := Active, activeFrom := timestamp, lastPaidAt := timestamp,
                       depositMaturity := depositMaturity, maturityDate := maturityDate);
    if pool.repaymentType == Monthly
    then pool'.(currentRepayment := Some(CreateRepaymentId(pool.id, pool.repaymentPeriodIndex)), repaymentPeriodIndex := next)
    else pool'
  }

  /** `handleActivate(event)`: the pool becomes active from the block time
      and, when monthly, the periods from the block time to the maturity date
      are scheduled with the pool's filled size. */
  method Activate(st: Store, ev: EventInfo, depositMaturity: int, maturityDate: int)
    requires ev.address in st.pools && st.pools[ev.address].repaymentType == Monthly ==> st.pools[ev.address].monthlyRound > 0
    modifies st`pools, st`repayments
    ensures ev.address !in old(st.pools) ==> st.pools == old(st.pools) && st.repayments == old(st.repayments)
    ensures ev.address in old(st.pools) && old(st.pools)[ev.address].repaymentType == Bullet ==>
      var pool := old(st.pools)[ev.address];
      st.pools == old(st.pools)[ev.address := ActivatedPool(pool, ev.timestamp, depositMaturity, maturityDate, pool.repaymentPeriodIndex)] &&
      st.repayments == old(st.repayments)
    ensures ev.address in old(st.pools) && old(st.pools)[ev.address].repaymentType == Monthly ==>
      var pool := old(st.pools)[ev.address];
      var ps := Periods(ev.timestamp, maturityDate, pool.monthlyRound);
      st.pools == old(st.pools)[ev.address := ActivatedPool(pool, ev.timestamp, depositMaturity, maturityDate, pool.repaymentPeriodIndex + |ps|)] &&
      st.repayments == Scheduled(old(st.repayments), pool.id, pool.repaymentPeriodIndex, ps, pool.filledSize)
  {
    if ev.address in st.pools {
      var pool := st.pools[ev.address];
      pool := pool.(status := Active, activeFrom := ev.timestamp, lastPaidAt := ev.timestamp);
      if pool.repaymentType == Monthly {
        ScheduleFromIsScheduled(st.repayments, pool.id, pool.repaymentPeriodIndex, ev.timestamp, maturityDate, pool.monthlyRound, pool.filledSize);
        var index := CreateRepayments(st, pool.id, pool.repaymentPeriodIndex, ev.timestamp, maturityDate, pool.monthlyRound, pool.filledSize);
        pool := pool.(currentRepayment := Some(CreateRepaymentId(pool.id, pool.repaymentPeriodIndex)));
        pool := pool.(repaymentPeriodIndex := index);
      }
      pool := pool.(depositMaturity := depositMaturity, maturityDate := maturityDate);
      st.pools := st.pools[ev.address := pool];
    }
  }

  /** Activating a monthly pool no later than its maturity leaves its current
      period stored: the first period, starting at the activation time, of
      the run that ends at the maturity date and whose last index is just
      before the pool's next one. */
  lemma ActivateSchedulesCurrent(repayments: map<string, Repayment>, pool: Pool, timestamp: int, depositMaturity: int, maturityDate: int)
    requires pool.repaymentType == Monthly && pool.monthlyRound > 0 && timestamp <= maturityDate
    ensures var ps := Periods(timestamp, maturityDate, pool.monthlyRound);
      var pool' := ActivatedPool(pool, timestamp, depositMaturity, maturityDate, pool.repaymentPeriodIndex + |ps|);
      var r := Scheduled(repayments, pool.id, pool.repaymentPeriodIndex, ps, pool.filledSize);
      var last := CreateRepaymentId(pool.id, pool'.repaymentPeriodIndex - 1);
      pool'.currentRepayment.Some? && pool'.currentRepayment.value in r &&
      r[pool'.currentRepayment.value].startDate == timestamp && r[pool'.currentRepayment.value].size == pool.filledSize &&
      last in r && r[last].endDate == maturityDate
  {
    var ps := Periods(timestamp, maturityDate, pool.monthlyRound);
    PeriodsChain(timestamp, maturityDate, pool.monthlyRound);
    ScheduledAt(repayments, pool.id, pool.repaymentPeriodIndex, ps, pool.filledSize, 0);
    ScheduledAt(repayments, pool.id, pool.repaymentPeriodIndex, ps, pool.filledSize, |ps| - 1);
  }

  /** The members a pool switched to public lists: its own, followed by each
      of `added` it did not list yet, or `added` itself when it listed none. */
  function SwitchedMembers(members: seq<string>, added: seq<string>): seq<string>
  {
    if |members| > 0 then Merged(members, added) else added
  }

  /** `members` followed by each of `added` not yet in the growing list. */
  function Merged(members: seq<string>, added: seq<string>): seq<string>
  {
    if |added| == 0 then members
    else
      var n := |added| - 1;
      var prev := Merged(members, added[..n]);
      if added[n] in prev then prev else prev + [added[n]]
  }

  /** Merging keeps the list as a prefix and adds exactly the missing ids,
      once each. */
  lemma {:induction false} MergedSpec(members: seq<string>, added: seq<string>)
    ensures var r := Merged(members, added);
      members <= r && (forall x :: x in r <==> x in members || x in added) &&
      (Tables.Distinct(members) ==> Tables.Distinct(r))
  {
    if |added| > 0 {
      var n := |added| - 1;
      MergedSpec(members, added[..n]);
      assert added == added[..n] + [added[n]];
    }
  }

  /** The merge loop of `handleSwitchVisibilityToPublic`. */
  method MergeMembers(members: seq<string>, added: seq<string>) returns (filteredMembers: seq<string>)
    ensures filteredMembers == Merged(members, added)
  {
    filteredMembers := members;
    for i := 0 to |added|
      invariant filteredMembers == Merged(members, added[..i])
    {
      assert added[..i + 1][..i] == added[..i];
      if added[i] !in filteredMembers {
        filteredMembers := filteredMembers + [added[i]];
      }
    }
    assert added[..|added|] == added;
  }

  /** `handleSwitchVisibilityToPublic(event)`: the pool becomes public and
      every Prime member but its borrower is whitelisted in it and listed.
      The pool is not added back to the singleton's public pools. */
  method SwitchVisibilityToPublic(st: Store, address: string)
    modifies st`pools, st`poolMembers
    ensures address !in old(st.pools) ==> st.pools == old(st.pools) && st.poolMembers == old(st.poolMembers)
    ensures address in old(st.pools) ==>
      var pool := old(st.pools)[address];
      var members := PrimeMembers(st.primes);
      st.pools == old(st.pools)[address := pool.(poolType := Public, members := SwitchedMembers(pool.members, Populated(address, members, pool.borrower)))] &&
      st.poolMembers == WhitelistAll(old(st.poolMembers), address, members, pool.borrower)
  {
    if address in st.pools {
      var pool := st.pools[address];
      pool := pool.(poolType := Public);
      var members := PopulatePoolWithMembers(st, address, pool.borrower);
      if |pool.members| > 0 {
        var filteredMembers := MergeMembers(pool.members, members);
        pool := pool.(members := filteredMembers);
      } else {
        pool := pool.(members := members);
      }
      st.pools := st.pools[address := pool];
    }
  }

  /** Switching to public keeps every membership recorded, keeps the ids the
      pool listed, and lists every Prime member but the borrower. */
  lemma SwitchVisibilityRecorded(pools: map<string, Pool>, poolMembers: map<string, PoolMember>, primes: map<string, Prime>, address: string)
    requires MembersRecorded(pools, poolMembers) && address in pools
    ensures var pool := pools[address];
      var members := PrimeMembers(primes);
      var listed := SwitchedMembers(pool.members, Populated(address, members, pool.borrower));
      var poolMembers' := WhitelistAll(poolMembers, address, members, pool.borrower);
      MembersRecorded(pools[address := pool.(poolType := Public, members := listed)], poolMembers') &&
      (forall id :: id in pool.members ==> id in listed) &&
      (forall m :: m in members && m != pool.borrower ==> CreateMemberId(address, m) in listed)
  {
    var pool := pools[address];
    var members := PrimeMembers(primes);
    var populated := Populated(address, members, pool.borrower);
    WhitelistAllRecords(poolMembers, address, members, pool.borrower);
    MergedSpec(pool.members, populated);
    forall m | m in members && m != pool.borrower
      ensures CreateMemberId(address, m) in populated
    {
      PopulatedMembers(address, members, pool.borrower, m);
    }
  }

  /** `handleDefault(event)`. */
  method Default(st: Store, ev: EventInfo)
    modifies st`pools
    ensures ev.address in old(st.pools) ==>
      st.pools == old(st.pools)[ev.address := old(st.pools)[ev.address].(status := Defaulted, defaultedAt := ev.timestamp)]
    ensures ev.address !in old(st.pools) ==> st.pools == old(st.pools)
  {
    if ev.address in st.pools {
      var pool := st.pools[ev.address];
      pool := pool.(status := Defaulted, defaultedAt := ev.timestamp);
      st.pools := st.pools[ev.address := pool];
    }
  }

  /** `handleClose(event)`. */
  method Close(st: Store, ev: EventInfo)
    modifies st`pools
    ensures ev.address in old(st.pools) ==>
      st.pools == old(st.pools)[ev.address := old(st.pools)[ev.address].(status := Closed, closedAt := ev.timestamp)]
    ensures ev.address !in old(st.pools) ==> st.pools == old(st.pools)
  {
    if ev.address in st.pools {
      var pool := st.pools[ev.address];
      pool := pool.(status := Closed, closedAt := ev.timestamp);
      st.pools := st.pools[ev.address := pool];
    }
  }

  /** The roll `handleRollCreation` saves: unaccepted and unpaid, covering
      one tenor from the pool's maturity. */
  function NewRoll(rollId: string, ev: EventInfo, startDate: int, tenor: int): Roll
  {
    Roll(rollId, ev.address, startDate, startDate + tenor, ev.timestamp, false, false)
  }

  /** `handleRollRequest(event)`: a roll over the next tenor is saved and
      becomes the pool's current one. */
  method RollRequest(st: Store, ev: EventInfo, rollId: string)
    modifies st`pools, st`rolls
    ensures ev.address !in old(st.pools) ==> st.pools == old(st.pools) && st.rolls == old(st.rolls)
    ensures ev.address in old(st.pools) ==>
      var pool := old(st.pools)[ev.address];
      st.rolls == old(st.rolls)[rollId := NewRoll(rollId, ev, pool.maturityDate, pool.tenor)] &&
      st.pools == old(st.pools)[ev.address := pool.(currentRoll := Some(rollId))]
  {
    if ev.address in st.pools {
      var pool := st.pools[ev.address];
      var roll := Roll(rollId, ev.address, pool.maturityDate, pool.maturityDate + pool.tenor, ev.timestamp, false, false);
      st.rolls := st.rolls[rollId := roll];
      pool := pool.(currentRoll := Some(rollId));
      st.pools := st.pools[ev.address := pool];
    }
  }

  /** `handleRollReject(event)`: the pool has no current roll and the roll is
      removed. */
  method RollReject(st: Store, ev: EventInfo, rollId: string)
    modifies st`pools, st`rolls
    ensures ev.address !in old(st.pools) ==> st.pools == old(st.pools) && st.rolls == old(st.rolls)
    ensures ev.address in old(st.pools) ==>
      st.rolls == old(st.rolls) - {rollId} &&
      st.pools == old(st.pools)[ev.address := old(st.pools)[ev.address].(currentRoll := None)]
  {
    if ev.address in st.pools {
      var pool := st.pools[ev.address];
      pool := pool.(currentRoll := None);
      st.pools := st.pools[ev.address := pool];
      st.rolls := st.rolls - {rollId};
    }
  }

  /** A rejected request leaves no trace of the roll: the rolls table is as
      it was before the request when the id was new. */
  lemma RollRejectUndoesRequest(rolls: map<string, Roll>, rollId: string, ev: EventInfo, startDate: int, tenor: int)
    requires rollId !in rolls
    ensures rolls[rollId := NewRoll(rollId, ev, startDate, tenor)] - {rollId} == rolls
  {
  }

  /** The rolls table after `handleRollAccepted`: a stored roll is accepted. */
  function AcceptedRolls(rolls: map<string, Roll>, rollId: string): map<string, Roll>
  {
    if rollId in rolls then rolls[rollId := rolls[rollId].(accepted := true)] else rolls
  }

  /** `handleRollAccepted(event)`. */
  method RollAccepted(st: Store, rollId: string)
    modifies st`rolls
    ensures st.rolls == AcceptedRolls(old(st.rolls), rollId)
  {
    if rollId in st.rolls {
      var roll := st.rolls[rollId];
      roll := roll.(accepted := true);
      st.rolls := st.rolls[rollId := roll];
    }
  }

  /** The pool after a roll is accepted; `next` is the index after the
      periods scheduled. */
  function RolledPool(pool: Pool, next: int): Pool
  {
    pool.(repaymentPeriodIndex := next, maturityDate := pool.maturityDate + pool.tenor)
  }

  /** The periods a roll accepted on `pool` schedules. */
  function RollPeriods(pool: Pool): seq<(int, int)>
    requires pool.repaymentType == Monthly ==> pool.monthlyRound > 0
  {
    if pool.repaymentType == Monthly then Periods(pool.maturityDate, pool.maturityDate + pool.tenor, pool.monthlyRound) else []
  }

  /** The schedule part of `handleRollAccept`: a monthly pool gets the periods
      of one more tenor from its maturity date; returns the pool's next
      period index. */
  method ScheduleRoll(st: Store, pool: Pool) returns (index: int)
    requires pool.repaymentType == Monthly ==> pool.monthlyRound > 0
    modifies st`repayments
    ensures index == pool.repaymentPeriodIndex + |RollPeriods(pool)|
    ensures st.repayments == Scheduled(old(st.repayments), pool.id, pool.repaymentPeriodIndex, RollPeriods(pool), pool.filledSize)
  {
    index := pool.repaymentPeriodIndex;
    if pool.repaymentType == Monthly {
      var startDate := pool.maturityDate;
      var endDate := startDate + pool.tenor;
      assert RollPeriods(pool) == Periods(startDate, endDate, pool.monthlyRound);
      ScheduleFromIsScheduled(st.repayments, pool.id, index, startDate, endDate, pool.monthlyRound, pool.filledSize);
      index := CreateRepayments(st, pool.id, index, startDate, endDate, pool.monthlyRound, pool.filledSize);
    } else {
      assert RollPeriods(pool) == [];
      assert RepaymentIds(pool.id, index, 0) == [];
    }
  }

  /** `handleRollAccept(event)`: the roll is accepted; a monthly pool gets the
      periods of one more tenor from its maturity date, scheduled with its
      filled size; the maturity date moves one tenor later, and the
      positions of the member who sent the transaction are rolled to it. */
  method RollAccept(st: Store, ev: EventInfo, rollId: string)
    requires ev.address in st.pools && st.pools[ev.address].repaymentType == Monthly ==> st.pools[ev.address].monthlyRound > 0
    modifies st`pools, st`rolls, st`repayments, st`positions
    ensures ev.address !in old(st.pools) ==>
      st.pools == old(st.pools) && st.rolls == old(st.rolls) && st.repayments == old(st.repayments) && st.positions == old(st.positions)
    ensures ev.address in old(st.pools) ==>
      var pool := old(st.pools)[ev.address];
      var ps := RollPeriods(pool);
      st.rolls == AcceptedRolls(old(st.rolls), rollId) &&
      st.repayments == Scheduled(old(st.repayments), pool.id, pool.repaymentPeriodIndex, ps, pool.filledSize) &&
      st.pools == old(st.pools)[ev.address := RolledPool(pool, pool.repaymentPeriodIndex + |ps|)] &&
      st.positions == RollPositionsTable(old(st.positions), old(st.pools), PositionsOf(st.poolMembers, CreateMemberId(ev.address, ev.txFrom)),
        pool.maturityDate + pool.tenor)
  {
    if ev.address in st.pools {
      var pool := st.pools[ev.address];
      RollAccepted(st, rollId);
      var index := ScheduleRoll(st, pool);
      pool := pool.(repaymentPeriodIndex := index);
      pool := pool.(maturityDate := pool.maturityDate + pool.tenor);
      RollPositions(st, CreateMemberId(ev.address, ev.txFrom), pool.maturityDate);
      st.pools := st.pools[ev.address := pool];
    }
  }

  /** The positions a membership lists, none when it is not stored. */
  function PositionsOf(poolMembers: map<string, PoolMember>, memberId: string): seq<string>
  {
    if memberId in poolMembers then poolMembers[memberId].positions else []
  }

  /** The roll a request saves ends where the pool's maturity lands once the
      roll is accepted, and the periods scheduled on acceptance run from the
      roll's start to its end. */
  lemma RollAcceptMatchesRequest(pool: Pool, rollId: string, ev: EventInfo, next: int)
    requires pool.monthlyRound > 0 && pool.tenor >= 0
    ensures var roll := NewRoll(rollId, ev, pool.maturityDate, pool.tenor);
      var ps := Periods(pool.maturityDate, pool.maturityDate + pool.tenor, pool.monthlyRound);
      RolledPool(pool, next).maturityDate == roll.endDate &&
      RolledPool(pool, next).maturityDate - pool.maturityDate == pool.tenor &&
      ps[0].0 == roll.startDate && ps[|ps| - 1].1 == roll.endDate
  {
    PeriodsChain(pool.maturityDate, pool.maturityDate + pool.tenor, pool.monthlyRound);
  }

  /** The callback `handleCallbackCreate` saves under the transaction hash. */
  function NewCallback(ev: EventInfo, lender: string): Callback
  {
    Callback(ev.txHash, ev.address, lender, ev.timestamp, false, CreateTxId(ev.txHash, ev.txIndex))
  }

  /** The memberships after appending callback `id` to `memberId`'s, when
      that membership is stored. */
  function PushedCallback(poolMembers: map<string, PoolMember>, memberId: string, id: string): map<string, PoolMember>
  {
    if memberId in poolMembers then poolMembers[memberId := poolMembers[memberId].(callbacks := poolMembers[memberId].callbacks + [id])]
    else poolMembers
  }

  /** `handleCallbackCreate(event)`: the callback is saved, a callback
      transaction for the lender's principal is recorded, and the callback is
      appended to the lender's membership. */
  method CallbackCreate(st: Store, ev: EventInfo, lender: string)
    modifies st`callbacks, st`transactions, st`poolMembers
    ensures st.callbacks == old(st.callbacks)[ev.txHash := NewCallback(ev, lender)]
    ensures st.transactions == old(st.transactions)[CreateTxId(ev.txHash, ev.txIndex) :=
      NewTransaction(CallbackTx, ev.timestamp, ev.txHash, ev.txIndex, ev.address, lender, ev.address, Principal(old(st.poolMembers), ev.address, lender))]
    ensures st.poolMembers == PushedCallback(old(st.poolMembers), CreateMemberId(ev.address, lender), ev.txHash)
  {
    var callback := Callback(ev.txHash, ev.address, lender, ev.timestamp, false, CreateTxId(ev.txHash, ev.txIndex));
    var principal := GetMemberPrincipal(st, ev.address, lender);
    HandleTx(st, CallbackTx, ev.timestamp, ev.txHash, ev.txIndex, ev.address, lender, ev.address, principal);
    var memberId := CreateMemberId(ev.address, lender);
    if memberId in st.poolMembers {
      var poolMember := st.poolMembers[memberId];
      var callbacks := poolMember.callbacks;
      callbacks := callbacks + [ev.txHash];
      poolMember := poolMember.(callbacks := callbacks);
      st.poolMembers := st.poolMembers[memberId := poolMember];
    }
    st.callbacks := st.callbacks[ev.txHash := callback];
  }

  /** The transactions after cancelling callback `id`: its transaction is
      removed when the callback is stored. */
  function CancelledTransactions(transactions: map<string, Transaction>, callbacks: map<string, Callback>, id: string): map<string, Transaction>
  {
    if id in callbacks then transactions - {callbacks[id].txHash} else transactions
  }

  /** `handleCallbackCancel(event)`: the lender's last callback and its
      transaction are removed and it is popped from the membership. With no
      callback to cancel, reading the last one is out of range and the handler
      aborts: `aborted` is set and the store is left as it was. */
  method CallbackCancel(st: Store, ev: EventInfo, lender: string) returns (aborted: bool)
    modifies st`callbacks, st`transactions, st`poolMembers
    ensures var memberId := CreateMemberId(ev.address, lender);
      aborted <==> memberId in old(st.poolMembers) && |old(st.poolMembers)[memberId].callbacks| == 0
    ensures var memberId := CreateMemberId(ev.address, lender);
      memberId !in old(st.poolMembers) || aborted ==>
        st.callbacks == old(st.callbacks) && st.transactions == old(st.transactions) && st.poolMembers == old(st.poolMembers)
    ensures var memberId := CreateMemberId(ev.address, lender);
      memberId in old(st.poolMembers) && !aborted ==>
        var member := old(st.poolMembers)[memberId];
        var id := member.callbacks[|member.callbacks| - 1];
        st.transactions == CancelledTransactions(old(st.transactions), old(st.callbacks), id) &&
        st.callbacks == old(st.callbacks) - {id} &&
        st.poolMembers == old(st.poolMembers)[memberId := member.(callbacks := member.callbacks[..|member.callbacks| - 1])]
  {
    aborted := false;
    var memberId := CreateMemberId(ev.address, lender);
    if memberId in st.poolMembers {
      var poolMember := st.poolMembers[memberId];
      var callbacks := poolMember.callbacks;
      if |callbacks| == 0 {
        aborted := true;
        return;
      }
      var callbackId := callbacks[|callbacks| - 1];
      if callbackId in st.callbacks {
        st.transactions := st.transactions - {st.callbacks[callbackId].txHash};
      }
      st.callbacks := st.callbacks - {callbackId};
      callbacks := callbacks[..|callbacks| - 1];
      poolMember := poolMember.(callbacks := callbacks);
      st.poolMembers := st.poolMembers[memberId := poolMember];
    }
  }

  /** A cancel right after a create removes exactly what the create added:
      the callback it saved, the transaction it recorded and the id it pushed,
      leaving the earlier callbacks of the membership in place. */
  lemma CancelUndoesCreate(callbacks: map<string, Callback>, transactions: map<string, Transaction>, poolMembers: map<string, PoolMember>, ev: EventInfo, lender: string, principal: int)
    requires ev.txHash !in callbacks && CreateTxId(ev.txHash, ev.txIndex) !in transactions
    requires CreateMemberId(ev.address, lender) in poolMembers
    ensures var memberId := CreateMemberId(ev.address, lender);
      var callbacks' := callbacks[ev.txHash := NewCallback(ev, lender)];
      var transactions' := transactions[CreateTxId(ev.txHash, ev.txIndex) :=
        NewTransaction(CallbackTx, ev.timestamp, ev.txHash, ev.txIndex, ev.address, lender, ev.address, principal)];
      var member' := PushedCallback(poolMembers, memberId, ev.txHash)[memberId];
      var id := member'.callbacks[|member'.callbacks| - 1];
      id == ev.txHash &&
      callbacks' - {id} == callbacks &&
      CancelledTransactions(transactions', callbacks', id) == transactions &&
      member'.(callbacks := member'.callbacks[..|member'.callbacks| - 1]) == poolMembers[memberId]
  {
    var memberId := CreateMemberId(ev.address, lender);
    var member := poolMembers[memberId];
    assert (member.callbacks + [ev.txHash])[..|member.callbacks|] == member.callbacks;
  }

  /** The pool after `handleLenderWhitelist`: a public pool turns private and
      forgets its members; the lender's membership id is then listed once. */
  function WhitelistedPool(pool: Pool, lender: string): Pool
  {
    var pool' := if pool.poolType == Public then pool.(poolType := Private, members := []) else pool;
    var memberId := CreateMemberId(pool.id, lender);
    if memberId in pool'.members then pool' else pool'.(members := pool'.members + [memberId])
  }

  /** The singleton table after a public pool turns private: the entry found
      by `handleRemoveFromPublicPool` is spliced out, which is the first public
      pool when the pool is not listed. */
  function PrivatePrimes(primes: map<string, Prime>, pool: string): map<string, Prime>
  {
    if PrimeId in primes then primes[PrimeId := primes[PrimeId].(publicPools := RemoveIncludingAsWritten(primes[PrimeId].publicPools, pool))]
    else primes
  }

  /** A pool that is public but no longer in the public pools (whitelisted
      once, then switched back to public, which does not relist it) makes a
      second whitelisting drop another pool: the first public pool. */
  lemma WhitelistUnlistedDropsFirst(instance: Prime)
    requires instance.publicPools == ["0xa", "0xb"]
    ensures PrivatePrimes(map[PrimeId := instance], "0xc")[PrimeId].publicPools == ["0xb"]
  {
    RemoveUnlistedAsWritten();
  }

  /** `handleLenderWhitelist(event)`: a public pool turns private, leaves the
      public pools and drops its member list; the lender is then whitelisted
      in the pool and listed in it. */
  method LenderWhitelist(st: Store, ev: EventInfo, lender: string)
    modifies st`pools, st`primes, st`poolMembers
    ensures ev.address !in old(st.pools) ==>
      st.pools == old(st.pools) && st.primes == old(st.primes) && st.poolMembers == old(st.poolMembers)
    ensures ev.address in old(st.pools) ==>
      var pool := old(st.pools)[ev.address];
      var memberId := CreateMemberId(ev.address, lender);
      st.pools == old(st.pools)[ev.address := WhitelistedPool(pool, lender)] &&
      st.primes == (if pool.poolType == Public then PrivatePrimes(old(st.primes), ev.address) else old(st.primes)) &&
      st.poolMembers == old(st.poolMembers)[memberId := WithStatus(old(st.poolMembers), memberId, lender, Whitelisted)]
  {
    if ev.address in st.pools {
      var pool := st.pools[ev.address];
      if pool.poolType == Public {
        pool := pool.(poolType := Private);
        RemoveFromPublicPoolAsWritten(st, ev.address);
        pool := pool.(members := []);
      }
      CreatePoolMember(st, CreateMemberId(ev.address, lender), lender, Whitelisted);
      var currentMembers := pool.members;
      var memberId := CreateMemberId(pool.id, lender);
      if memberId !in currentMembers {
        currentMembers := currentMembers + [memberId];
        pool := pool.(members := currentMembers);
      }
      st.pools := st.pools[ev.address := pool];
    }
  }

  /** Whitelisting a lender keeps every listed membership recorded and leaves
      the pool private, listing the lender's whitelisted membership; a pool
      that was public lists the lender alone. */
  lemma LenderWhitelistRecorded(pools: map<string, Pool>, poolMembers: map<string, PoolMember>, address: string, lender: string)
    requires MembersRecorded(pools, poolMembers) && address in pools && pools[address].id == address
    ensures var pool' := WhitelistedPool(pools[address], lender);
      var memberId := CreateMemberId(address, lender);
      var poolMembers' := poolMembers[memberId := WithStatus(poolMembers, memberId, lender, Whitelisted)];
      MembersRecorded(pools[address := pool'], poolMembers') &&
      pool'.poolType == Private && memberId in pool'.members && poolMembers'[memberId].status == Whitelisted &&
      (pools[address].poolType == Public ==> pool'.members == [memberId])
  {
  }

  /** `handleLenderBlacklist(event)`: a stored membership is blacklisted. */
  method LenderBlacklist(st: Store, ev: EventInfo, lender: string)
    modifies st`poolMembers
    ensures var memberId := CreateMemberId(ev.address, lender);
      memberId in old(st.poolMembers) ==>
        st.poolMembers == old(st.poolMembers)[memberId := old(st.poolMembers)[memberId].(status := Blacklisted)]
    ensures CreateMemberId(ev.address, lender) !in old(st.poolMembers) ==> st.poolMembers == old(st.poolMembers)
  {
    var memberId := CreateMemberId(ev.address, lender);
    if memberId in st.poolMembers {
      var member := st.poolMembers[memberId];
      member := member.(status := Blacklisted);
      st.poolMembers := st.poolMembers[memberId := member];
    }
  }

  /** The pool after `amount` is lent into it. */
  function LentPool(pool: Pool, amount: int): Pool
  {
    pool.(currentSize := pool.currentSize + amount, filledSize := pool.filledSize + amount, totalBorrowed := pool.totalBorrowed + amount)
  }

  /** The periods table after the size of the period `current` names, if it
      is stored, changes by `delta`. */
  function ResizedRepayments(repayments: map<string, Repayment>, current: Option<string>, delta: int): map<string, Repayment>
  {
    if current.Some? && current.value in repayments
    then repayments[current.value := repayments[current.value].(size := repayments[current.value].size + delta)]
    else repayments
  }

  /** `handleLend(event)`: the pool's current, filled and borrowed sizes and
      its current period's size grow by the amount; the lender's membership
      and a new position record the lending, and a lend transaction from the
      lender to the borrower is recorded. */
  method Lend(st: Store, ev: EventInfo, lender: string, amount: int)
    modifies st`pools, st`poolMembers, st`positions, st`transactions, st`repayments
    ensures ev.address !in old(st.pools) ==>
      st.pools == old(st.pools) && st.poolMembers == old(st.poolMembers) && st.positions == old(st.positions) &&
      st.transactions == old(st.transactions) && st.repayments == old(st.repayments)
    ensures ev.address in old(st.pools) ==>
      var pool := old(st.pools)[ev.address];
      st.pools == old(st.pools)[ev.address := LentPool(pool, amount)] &&
      st.repayments == ResizedRepayments(old(st.repayments), pool.currentRepayment, amount) &&
      st.transactions == old(st.transactions)[CreateTxId(ev.txHash, ev.txIndex) :=
        NewTransaction(TxType.Lend, ev.timestamp, ev.txHash, ev.txIndex, pool.id, lender, pool.borrower, amount)]
    ensures ev.address in old(st.pools) ==>
      var memberId := CreateMemberId(ev.address, lender);
      if memberId in old(st.poolMembers) then
        var member := old(st.poolMembers)[memberId];
        st.poolMembers == old(st.poolMembers)[memberId := LentMember(member, ev, lender, amount)] &&
        st.positions == old(st.positions)[CreatePositionId(ev.address, lender, |member.positions|) :=
          NewPosition(old(st.pools), ev, lender, amount, |member.positions|)]
      else st.poolMembers == old(st.poolMembers) && st.positions == old(st.positions)
  {
    if ev.address in st.pools {
      var pool := st.pools[ev.address];
      pool := pool.(currentSize := pool.currentSize + amount, filledSize := pool.filledSize + amount, totalBorrowed := pool.totalBorrowed + amount);
      MemberLend(st, ev, lender, amount);
      HandleTx(st, TxType.Lend, ev.timestamp, ev.txHash, ev.txIndex, pool.id, lender, pool.borrower, amount);
      if pool.currentRepayment.Some? && pool.currentRepayment.value in st.repayments {
        var repayment := st.repayments[pool.currentRepayment.value];
        repayment := repayment.(size := repayment.size + amount);
        st.repayments := st.repayments[pool.currentRepayment.value := repayment];
      }
      st.pools := st.pools[ev.address := pool];
    }
  }

  /** Lending grows the pool's three sizes by exactly the amount and changes
      nothing else of the pool; the lender's principal grows by the same
      amount. */
  lemma LendEffect(pool: Pool, member: PoolMember, ev: EventInfo, lender: string, amount: int)
    ensures var p := LentPool(pool, amount);
      var m := LentMember(member, ev, lender, amount);
      p.currentSize - pool.currentSize == amount && p.filledSize - pool.filledSize == amount &&
      p.totalBorrowed - pool.totalBorrowed == amount &&
      p.(currentSize := pool.currentSize, filledSize := pool.filledSize, totalBorrowed := pool.totalBorrowed) == pool &&
      m.principal - member.principal == p.currentSize - pool.currentSize
  {
  }

  /** The pool after a lender holding `principal` is repaid `totalPaid` in
      all at `timestamp`: the principal leaves the current size, and the
      filled size too while deposits are still open; any current roll is
      settled. */
  function RepaidPool(pool: Pool, principal: int, timestamp: int, totalPaid: int): Pool
  {
    pool.(currentSize := pool.currentSize - principal,
          filledSize := if pool.depositMaturity > timestamp then pool.filledSize - principal else pool.filledSize,
          totalDuePaid := pool.totalDuePaid + totalPaid,
          currentRoll := None)
  }

  /** The rolls table after the roll `current` names, if stored, is paid. */
  function PaidRolls(rolls: map<string, Roll>, current: Option<string>): map<string, Roll>
  {
    if current.Some? && current.value in rolls then rolls[current.value := rolls[current.value].(paid := true)] else rolls
  }

  /** The periods table after the pool's part of a repayment: while deposits
      are open, the current period shrinks by the principal. */
  function RepaySizedRepayments(repayments: map<string, Repayment>, pool: Pool, principal: int, timestamp: int): map<string, Repayment>
  {
    if pool.depositMaturity > timestamp then ResizedRepayments(repayments, pool.currentRepayment, -principal) else repayments
  }

  /** The pool's part of `handleRepay`, before the member's. */
  method SettlePool(st: Store, pool: Pool, principal: int, timestamp: int, totalPaid: int) returns (pool': Pool)
    modifies st`repayments, st`rolls
    ensures pool' == RepaidPool(pool, principal, timestamp, totalPaid)
    ensures st.repayments == RepaySizedRepayments(old(st.repayments), pool, principal, timestamp)
    ensures st.rolls == PaidRolls(old(st.rolls), pool.currentRoll)
  {
    pool' := pool.(currentSize := pool.currentSize - principal);
    if pool.depositMaturity > timestamp {
      pool' := pool'.(filledSize := pool.filledSize - principal);
      if pool.currentRepayment.Some? && pool.currentRepayment.value in st.repayments {
        var repayment := st.repayments[pool.currentRepayment.value];
        repayment := repayment.(size := repayment.size - principal);
        st.repayments := st.repayments[pool.currentRepayment.value := repayment];
      }
    }
    pool' := pool'.(totalDuePaid := pool.totalDuePaid + totalPaid);
    if pool.currentRoll.Some? {
      if pool.currentRoll.value in st.rolls {
        var roll := st.rolls[pool.currentRoll.value];
        roll := roll.(paid := true);
        st.rolls := st.rolls[pool.currentRoll.value := roll];
      }
      pool' := pool'.(currentRoll := None);
    }
  }

  /** `handleRepay(event)`: the lender is repaid in full. The pool gives up
      the lender's principal and settles its current roll, the membership and
      its positions are settled as `handleMemberRepay` does, and a repay
      transaction from the borrower to the lender is recorded. */
  method Repay(st: Store, ev: EventInfo, lender: string, repayed: int, penalty: int, spreadFee: int, originationFee: int)
    modifies st`pools, st`rolls, st`poolMembers, st`positions, st`repayments, st`repaymentPayments, st`callbacks, st`transactions
    ensures ev.address !in old(st.pools) ==>
      st.pools == old(st.pools) && st.rolls == old(st.rolls) && st.poolMembers == old(st.poolMembers) &&
      st.positions == old(st.positions) && st.repayments == old(st.repayments) &&
      st.repaymentPayments == old(st.repaymentPayments) && st.callbacks == old(st.callbacks) && st.transactions == old(st.transactions)
    ensures ev.address in old(st.pools) ==>
      var pool := old(st.pools)[ev.address];
      var principal := Principal(old(st.poolMembers), pool.id, lender);
      st.pools == old(st.pools)[ev.address := RepaidPool(pool, principal, ev.timestamp, repayed + spreadFee + originationFee)] &&
      st.rolls == PaidRolls(old(st.rolls), pool.currentRoll) &&
      st.transactions == old(st.transactions)[CreateTxId(ev.txHash, ev.txIndex) :=
        NewTransaction(TxType.Repay, ev.timestamp, ev.txHash, ev.txIndex, pool.id, pool.borrower, lender, repayed)]
    ensures ev.address in old(st.pools) && CreateMemberId(ev.address, lender) !in old(st.poolMembers) ==>
      var pool := old(st.pools)[ev.address];
      st.repayments == RepaySizedRepayments(old(st.repayments), pool, Principal(old(st.poolMembers), pool.id, lender), ev.timestamp) &&
      st.poolMembers == old(st.poolMembers) && st.positions == old(st.positions) &&
      st.repaymentPayments == old(st.repaymentPayments) && st.callbacks == old(st.callbacks)
    ensures ev.address in old(st.pools) && CreateMemberId(ev.address, lender) in old(st.poolMembers) ==>
      var pool := old(st.pools)[ev.address];
      var member := old(st.poolMembers)[CreateMemberId(ev.address, lender)];
      var sized := RepaySizedRepayments(old(st.repayments), pool, Principal(old(st.poolMembers), pool.id, lender), ev.timestamp);
      var charged := ChargedRepayment(old(st.pools), sized, ev.address);
      var callbackPaid := PaidCallback(old(st.callbacks), member);
      st.poolMembers == old(st.poolMembers)[CreateMemberId(ev.address, lender) :=
        RepaidMember(member, repayed, penalty, spreadFee, originationFee, CreateTxId(ev.txHash, ev.txIndex), ev.timestamp)] &&
      st.repayments == ChargedRepayments(sized, charged, repayed, penalty, spreadFee) &&
      st.repaymentPayments == ChargedPayments(old(st.repaymentPayments), charged, lender, repayed, penalty, spreadFee) &&
      st.callbacks == callbackPaid.0 &&
      st.positions == RepayPositions(old(st.positions), member.positions, PoolOf(old(st.pools), ev.address),
        CurrentOf(old(st.pools), st.repayments, ev.address), ev.timestamp, member.lastPaidAt, callbackPaid.1)
  {
    if ev.address in st.pools {
      var pool := st.pools[ev.address];
      var principal := GetMemberPrincipal(st, pool.id, lender);
      var totalPaid := repayed + spreadFee + originationFee;
      pool := SettlePool(st, pool, principal, ev.timestamp, totalPaid);
      assert st.pools == old(st.pools) && st.poolMembers == old(st.poolMembers);
      MemberRepay(st, ev, lender, repayed, penalty, spreadFee, originationFee);
      HandleTx(st, TxType.Repay, ev.timestamp, ev.txHash, ev.txIndex, pool.id, pool.borrower, lender, repayed);
      st.pools := st.pools[ev.address := pool];
    }
  }

  /** A full repayment returns the lender's principal to the pool: the
      current size falls by exactly what the member held, the filled size by
      the same only while deposits are open, and no roll stays current. A
      lender who lent into the pool and is then repaid leaves its current
      size where it was. */
  lemma RepayEffect(pool: Pool, member: PoolMember, ev: EventInfo, lender: string, amount: int, repayed: int, penalty: int, spreadFee: int, originationFee: int)
    ensures var m := RepaidMember(member, repayed, penalty, spreadFee, originationFee, CreateTxId(ev.txHash, ev.txIndex), ev.timestamp);
      var p := RepaidPool(pool, member.principal, ev.timestamp, repayed + spreadFee + originationFee);
      p.currentRoll.None? && p.totalDuePaid - pool.totalDuePaid == repayed + spreadFee + originationFee &&
      p.currentSize - pool.currentSize == m.principal - member.principal &&
      (pool.depositMaturity > ev.timestamp ==> p.filledSize - pool.filledSize == m.principal - member.principal) &&
      (pool.depositMaturity <= ev.timestamp ==> p.filledSize == pool.filledSize)
    ensures member.principal == 0 ==>
      var m := LentMember(member, ev, lender, amount);
      var p := RepaidPool(LentPool(pool, amount), m.principal, ev.timestamp, repayed + spreadFee + originationFee);
      p.currentSize == pool.currentSize && p.totalBorrowed == pool.totalBorrowed + amount &&
      (pool.depositMaturity > ev.timestamp ==> p.filledSize == pool.filledSize) &&
      (pool.depositMaturity <= ev.timestamp ==> p.filledSize == pool.filledSize + amount)
  {
  }

  /** The lender's `lastPaidAt` after an interest payment: one period later,
      but never past maturity. */
  function NextLastPaidAt(lastPaidAt: int, monthlyRound: int, maturityDate: int): int
  {
    if lastPaidAt + monthlyRound > maturityDate then maturityDate else lastPaidAt + monthlyRound
  }

  /** `lastPaidAt` advances by one period, clipped to maturity: it never
      passes a maturity it had not passed, and never moves back for a
      non-negative period. */
  lemma NextLastPaidAtBounds(lastPaidAt: int, monthlyRound: int, maturityDate: int)
    requires lastPaidAt <= maturityDate && monthlyRound >= 0
    ensures var next := NextLastPaidAt(lastPaidAt, monthlyRound, maturityDate);
      lastPaidAt <= next <= maturityDate &&
      (next == lastPaidAt + monthlyRound || next == maturityDate) &&
      (lastPaidAt + monthlyRound <= maturityDate ==> next == lastPaidAt + monthlyRound)
  {
  }

  /** The pool after the first interest payment event of a block at
      `timestamp`: its current period moves to the next index and
      `lastPaidAt` one period on. Later events of the same block leave both. */
  function InterestPaidPool(pool: Pool, repayments: map<string, Repayment>, timestamp: int): Pool
  {
    if pool.pendingRepaymentBlockAt != timestamp then
      var current := CurrentRepayment(repayments, pool);
      pool.(pendingRepaymentBlockAt := timestamp,
            currentRepayment := if current.Some? then Some(CreateRepaymentId(pool.id, current.value.index + 1)) else pool.currentRepayment,
            lastPaidAt := NextLastPaidAt(pool.lastPaidAt, pool.monthlyRound, pool.maturityDate))
    else pool
  }

  /** The period an interest payment is booked against: the current one for
      the first event of a block, the one before it for later events. */
  function InterestCharged(repayments: map<string, Repayment>, pool: Pool, timestamp: int): Option<string>
  {
    var current := CurrentRepayment(repayments, pool);
    if current.None? then None
    else if pool.pendingRepaymentBlockAt != timestamp then pool.currentRepayment
    else
      var previous := CreateRepaymentId(pool.id, current.value.index - 1);
      if previous in repayments then Some(previous) else None
  }

  /** The periods table after an interest payment: the period booked is
      charged, and for the first event of a block it is marked paid and the
      next period takes over its size. */
  function InterestRepayments(repayments: map<string, Repayment>, pool: Pool, timestamp: int, repayed: int, penalty: int, spreadFee: int): map<string, Repayment>
  {
    var current := CurrentRepayment(repayments, pool);
    var charged := InterestCharged(repayments, pool, timestamp);
    if charged.None? then repayments
    else if pool.pendingRepaymentBlockAt != timestamp then
      var nextId := CreateRepaymentId(pool.id, current.value.index + 1);
      var sized := if nextId in repayments then repayments[nextId := repayments[nextId].(size := current.value.size)] else repayments;
      sized[charged.value := Charged(current.value, repayed, penalty, spreadFee).(paidAt := timestamp)]
    else repayments[charged.value := Charged(repayments[charged.value], repayed, penalty, spreadFee)]
  }

  /** The period part of `handleRepayInterest`. */
  method BookInterest(st: Store, pool: Pool, timestamp: int, lender: string, repayed: int, penalty: int, spreadFee: int) returns (pool': Pool)
    modifies st`repayments, st`repaymentPayments
    ensures pool' == InterestPaidPool(pool, old(st.repayments), timestamp)
    ensures st.repayments == InterestRepayments(old(st.repayments), pool, timestamp, repayed, penalty, spreadFee)
    ensures st.repaymentPayments == ChargedPayments(old(st.repaymentPayments), InterestCharged(old(st.repayments), pool, timestamp),
      lender, repayed, penalty, spreadFee)
  {
    pool' := pool;
    if pool.pendingRepaymentBlockAt != timestamp {
      pool' := pool'.(pendingRepaymentBlockAt := timestamp);
      if pool.currentRepayment.Some? && pool.currentRepayment.value in st.repayments {
        var repayment := st.repayments[pool.currentRepayment.value];
        repayment := repayment.(paidAt := timestamp,
                                penalty := repayment.penalty + penalty,
                                repaid := repayment.repaid + repayed + spreadFee);
        var nextRepaymentId := CreateRepaymentId(pool.id, repayment.index + 1);
        if nextRepaymentId in st.repayments {
          var nextRepayment := st.repayments[nextRepaymentId];
          nextRepayment := nextRepayment.(size := repayment.size);
          st.repayments := st.repayments[nextRepaymentId := nextRepayment];
        }
        CreateOrUpdateRepaymentPayment(st, pool.currentRepayment.value, lender, repayed, penalty, spreadFee);
        pool' := pool'.(currentRepayment := Some(nextRepaymentId));
        st.repayments := st.repayments[pool.currentRepayment.value := repayment];
      }
      pool' := pool'.(lastPaidAt := NextLastPaidAt(pool.lastPaidAt, pool.monthlyRound, pool.maturityDate));
    } else {
      if pool.currentRepayment.Some? && pool.currentRepayment.value in st.repayments {
        var repayment := st.repayments[pool.currentRepayment.value];
        var previousId := CreateRepaymentId(pool.id, repayment.index - 1);
        if previousId in st.repayments {
          var previousRepayment := st.repayments[previousId];
          previousRepayment := previousRepayment.(penalty := previousRepayment.penalty + penalty,
                                                  repaid := previousRepayment.repaid + repayed + spreadFee);
          CreateOrUpdateRepaymentPayment(st, previousId, lender, repayed, penalty, spreadFee);
          st.repayments := st.repayments[previousId := previousRepayment];
        }
      }
    }
  }

  /** `handleRepayInterest(event)`: a repay-interest transaction from the
      borrower to the lender is recorded; the first event of a block pays the
      current period and moves the pool on by a period, a later one charges
      the period before; the lender's membership and positions take the
      payment up to the pool's new `lastPaidAt`. */
  method RepayInterest(st: Store, ev: EventInfo, lender: string, repayed: int, penalty: int, spreadFee: int)
    modifies st`pools, st`poolMembers, st`positions, st`repayments, st`repaymentPayments, st`transactions
    ensures ev.address !in old(st.pools) ==>
      st.pools == old(st.pools) && st.poolMembers == old(st.poolMembers) && st.positions == old(st.positions) &&
      st.repayments == old(st.repayments) && st.repaymentPayments == old(st.repaymentPayments) && st.transactions == old(st.transactions)
    ensures ev.address in old(st.pools) ==>
      var pool := old(st.pools)[ev.address];
      var pool' := InterestPaidPool(pool, old(st.repayments), ev.timestamp);
      st.pools == old(st.pools)[ev.address := pool'.(totalDuePaid := pool.totalDuePaid + repayed + spreadFee)] &&
      st.repayments == InterestRepayments(old(st.repayments), pool, ev.timestamp, repayed, penalty, spreadFee) &&
      st.repaymentPayments == ChargedPayments(old(st.repaymentPayments), InterestCharged(old(st.repayments), pool, ev.timestamp),
        lender, repayed, penalty, spreadFee) &&
      st.transactions == old(st.transactions)[CreateTxId(ev.txHash, ev.txIndex) :=
        NewTransaction(TxType.RepayInterest, ev.timestamp, ev.txHash, ev.txIndex, pool.id, pool.borrower, lender, repayed)]
    ensures ev.address in old(st.pools) ==>
      var memberId := CreateMemberId(ev.address, lender);
      var lastPaidAt := InterestPaidPool(old(st.pools)[ev.address], old(st.repayments), ev.timestamp).lastPaidAt;
      if memberId in old(st.poolMembers) then
        var member := old(st.poolMembers)[memberId];
        st.poolMembers == old(st.poolMembers)[memberId := InterestPaidMember(member, repayed, penalty, spreadFee, CreateTxId(ev.txHash, ev.txIndex), lastPaidAt)] &&
        st.positions == PayInterestPositions(old(st.positions), member.positions, PoolOf(old(st.pools), ev.address), ev.timestamp, lastPaidAt, member.lastPaidAt)
      else st.poolMembers == old(st.poolMembers) && st.positions == old(st.positions)
  {
    if ev.address in st.pools {
      var pool := st.pools[ev.address];
      HandleTx(st, TxType.RepayInterest, ev.timestamp, ev.txHash, ev.txIndex, pool.id, pool.borrower, lender, repayed);
      var totalDuePaid := pool.totalDuePaid;
      pool := BookInterest(st, pool, ev.timestamp, lender, repayed, penalty, spreadFee);
      MemberRepayInterest(st, ev, lender, repayed, penalty, spreadFee, pool.lastPaidAt);
      pool := pool.(totalDuePaid := totalDuePaid + repayed + spreadFee);
      st.pools := st.pools[ev.address := pool];
    }
  }

  /** Only the first interest payment event of a block moves the pool on:
      applying a second one of the same block changes neither `lastPaidAt` nor
      the current period. */
  lemma InterestPaidPoolOncePerBlock(pool: Pool, repayments: map<string, Repayment>, repayments': map<string, Repayment>, timestamp: int)
    ensures var once := InterestPaidPool(pool, repayments, timestamp);
      InterestPaidPool(once, repayments', timestamp) == once
  {
  }

  /** The first interest payment event of a block, with the current period
      stored, pays that period at the block time, hands its size to the next
      period and makes the next one current; `lastPaidAt` stays within
      maturity. */
  lemma InterestPaidAdvances(pool: Pool, repayments: map<string, Repayment>, timestamp: int, repayed: int, penalty: int, spreadFee: int)
    requires pool.pendingRepaymentBlockAt != timestamp
    requires pool.currentRepayment.Some? && pool.currentRepayment.value in repayments
    requires pool.lastPaidAt <= pool.maturityDate && pool.monthlyRound >= 0
    ensures var current := repayments[pool.currentRepayment.value];
      var nextId := CreateRepaymentId(pool.id, current.index + 1);
      var pool' := InterestPaidPool(pool, repayments, timestamp);
      var r := InterestRepayments(repayments, pool, timestamp, repayed, penalty, spreadFee);
      pool'.currentRepayment == Some(nextId) &&
      r[pool.currentRepayment.value].paidAt == timestamp &&
      r[pool.currentRepayment.value].repaid == current.repaid + repayed + spreadFee &&
      (nextId in repayments && nextId != pool.currentRepayment.value ==> nextId in r && r[nextId].size == current.size) &&
      pool.lastPaidAt <= pool'.lastPaidAt <= pool.maturityDate
  {
    NextLastPaidAtBounds(pool.lastPaidAt, pool.monthlyRound, pool.maturityDate);
  }
}
