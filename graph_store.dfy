/** The subgraph's entities and the store that holds them. Every entity is
    kept in the table of its type under its id: `Entity.load(id)` is a lookup,
    `entity.save()` an update and `store.remove(type, id)` a removal. Addresses,
    hashes and ids are their lower-case hex strings; amounts and timestamps are
    `BigInt`s. */
module GraphStore {
  import opened Wrappers

  datatype PoolType = Public | Private
  datatype PoolStatus = Open | Active | Defaulted | Closed
  datatype RepaymentType = Bullet | Monthly
  datatype MemberStatus = Pending | Whitelisted | Blacklisted
  datatype TxType = Lend | Repay | RepayInterest | CallbackTx

  datatype Pool = Pool(
    id: string,
    asset: string,
    index: int,
    repaymentPeriodIndex: int,
    borrower: string,
    creator: string,
    poolType: PoolType,
    status: PoolStatus,
    repaymentType: RepaymentType,
    size: int,
    filledSize: int,
    currentSize: int,
    rateMantissa: int,
    spreadRate: int,
    originationRate: int,
    penaltyRate: int,
    tenor: int,
    maturityDate: int,
    depositWindow: int,
    depositMaturity: int,
    createdAt: int,
    activeFrom: int,
    lastPaidAt: int,
    pendingRepaymentBlockAt: int,
    closedAt: int,
    defaultedAt: int,
    totalDuePaid: int,
    totalBorrowed: int,
    gracePeriod: int,
    monthlyRound: int,
    rollEndingRange: int,
    members: seq<string>,
    currentRoll: Option<string>,
    currentRepayment: Option<string>)

  /** A lender's membership of one pool. */
  datatype PoolMember = PoolMember(
    id: string,
    address: string,
    primeRef: string,
    pool: string,
    status: MemberStatus,
    principal: int,
    lastPaidAt: int,
    positions: seq<string>,
    transactions: seq<string>,
    callbacks: seq<string>,
    positionAmount: int,
    accrued: int,
    originationFeeAmount: int,
    spreadFeeAmount: int,
    penalty: int,
    interestRepaid: int,
    totalDue: int)

  /** One lending of a lender into a pool. */
  datatype Position = Position(
    id: string,
    pool: string,
    lender: string,
    amount: int,
    timestamp: int,
    interest: int,
    endAt: int,
    paid: bool,
    paidAt: Option<int>,
    penalty: int,
    interestRepaid: int,
    spreadRepaid: int,
    txHash: string)

  /** One monthly repayment period of a pool. */
  datatype Repayment = Repayment(
    id: string,
    pool: string,
    index: int,
    startDate: int,
    endDate: int,
    paidAt: int,
    penalty: int,
    repaid: int,
    size: int)

  /** What one lender received for one repayment period. */
  datatype RepaymentPayment = RepaymentPayment(
    id: string,
    repayment: string,
    lender: string,
    amount: int,
    penalty: int,
    spread: int)

  datatype Roll = Roll(
    id: string,
    pool: string,
    startDate: int,
    endDate: int,
    createdAt: int,
    accepted: bool,
    paid: bool)

  datatype Callback = Callback(
    id: string,
    pool: string,
    lender: string,
    timestamp: int,
    paid: bool,
    txHash: string)

  datatype Transaction = Transaction(
    id: string,
    createdAt: int,
    from: string,
    to: string,
    hash: string,
    pool: string,
    amount: int,
    txType: TxType)

  /** The protocol-wide singleton `_Prime`, stored under the id `clearpool`. */
  datatype Prime = Prime(
    id: string,
    publicPools: seq<string>,
    members: seq<string>,
    poolIndex: int,
    minDepositWindow: int,
    minMonthlyMaturity: int,
    liquidityMinRange: int)

  /** A Prime member. */
  datatype Member = Member(id: string, status: MemberStatus, riskScore: int)

  /** The block and transaction an event was emitted in, and the contract that
      emitted it. */
  datatype EventInfo = EventInfo(
    address: string,
    timestamp: int,
    txHash: string,
    txIndex: string,
    txFrom: string)

  class Store {
    var pools: map<string, Pool>
    var poolMembers: map<string, PoolMember>
    var positions: map<string, Position>
    var repayments: map<string, Repayment>
    var repaymentPayments: map<string, RepaymentPayment>
    var rolls: map<string, Roll>
    var callbacks: map<string, Callback>
    var transactions: map<string, Transaction>
    var primes: map<string, Prime>
    var members: map<string, Member>

    /** An empty store. */
    constructor()
      ensures pools == map[] && poolMembers == map[] && positions == map[]
      ensures repayments == map[] && repaymentPayments == map[] && rolls == map[]
      ensures callbacks == map[] && transactions == map[] && primes == map[] && members == map[]
    {
      pools := map[];
      poolMembers := map[];
      positions := map[];
      repayments := map[];
      repaymentPayments := map[];
      rolls := map[];
      callbacks := map[];
      transactions := map[];
      primes := map[];
      members := map[];
    }
  }
}
