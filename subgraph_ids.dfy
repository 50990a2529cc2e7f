/** The identifiers the subgraph builds for its entities by concatenating the
    hex forms of addresses and hashes with decimal indices. */
module SubgraphIds {
  import Text

  /** The length of a `0x`-prefixed hex address. */
  const AddressLength: nat := 42

  /** `createMemberId(pool, member)`: the pool's address followed by the member's. */
  function CreateMemberId(pool: string, member: string): string
  {
    pool + member
  }

  /** A member id splits back into the pool and the member at the pool's
      length. */
  lemma MemberIdParts(pool: string, member: string)
    ensures var id := CreateMemberId(pool, member);
      |id| == |pool| + |member| && id[..|pool|] == pool && id[|pool|..] == member
  {
  }

  /** Within one pool, distinct members have distinct ids; across pools of the
      same address length, distinct pools give distinct ids. */
  lemma MemberIdInjective(pool1: string, member1: string, pool2: string, member2: string)
    requires |pool1| == |pool2|
    ensures CreateMemberId(pool1, member1) == CreateMemberId(pool2, member2) <==> pool1 == pool2 && member1 == member2
  {
    MemberIdParts(pool1, member1);
    MemberIdParts(pool2, member2);
  }

  /** `parseMemberId(id)`: the first 42 characters, and the rest. */
  function ParseMemberId(memberId: string): (parts: seq<string>)
    ensures |parts| == 2
    ensures parts[0] + parts[1] == memberId
  {
    var poolAddr := Text.Substring(memberId, 0, AddressLength);
    var memberAddr := Text.SubstringFrom(memberId, AddressLength);
    assert |memberId| <= AddressLength ==> poolAddr == memberId;
    [poolAddr, memberAddr]
  }

  /** A member id parses back into its pool and member exactly when the pool
      part is an address-length string. */
  lemma ParseMemberIdRoundTrip(pool: string, member: string)
    requires |pool| == AddressLength
    ensures ParseMemberId(CreateMemberId(pool, member)) == [pool, member]
  {
    MemberIdParts(pool, member);
  }

  /** `createRepaymentPaymentId(repaymentId, member)`. */
  function CreateRepaymentPaymentId(repaymentId: string, member: string): string
  {
    repaymentId + member
  }

  /** One repayment's payments get distinct ids for distinct members; across
      repayments of one id length, distinct repayments give distinct ids. */
  lemma RepaymentPaymentIdInjective(repayment1: string, member1: string, repayment2: string, member2: string)
    requires |repayment1| == |repayment2|
    ensures CreateRepaymentPaymentId(repayment1, member1) == CreateRepaymentPaymentId(repayment2, member2) <==>
      repayment1 == repayment2 && member1 == member2
  {
    var a, b := CreateRepaymentPaymentId(repayment1, member1), CreateRepaymentPaymentId(repayment2, member2);
    if a == b {
      assert repayment1 == a[..|repayment1|] == b[..|repayment2|] == repayment2;
      assert member1 == a[|repayment1|..] == b[|repayment2|..] == member2;
    }
  }

  /** `createRepaymentId(pool, index)`: `<pool>-<index>`. */
  function CreateRepaymentId(pool: string, index: int): string
  {
    pool + "-" + Text.IntToDecimal(index)
  }

  /** A repayment id starts with its pool and a dash, followed by at least
      one digit. */
  lemma RepaymentIdPrefix(pool: string, index: int)
    ensures var id := CreateRepaymentId(pool, index);
      |id| > |pool| + 1 && id[..|pool| + 1] == pool + "-"
  {
  }

  /** Within one pool, distinct period indices give distinct repayment ids. */
  lemma RepaymentIdInjective(pool: string, i: int, j: int)
    ensures CreateRepaymentId(pool, i) == CreateRepaymentId(pool, j) <==> i == j
  {
    var a, b := CreateRepaymentId(pool, i), CreateRepaymentId(pool, j);
    if a == b {
      RepaymentIdPrefix(pool, i);
      assert Text.IntToDecimal(i) == a[|pool| + 1..] == b[|pool| + 1..] == Text.IntToDecimal(j);
      Text.IntToDecimalInjective(i, j);
    }
  }

  /** `createTxId(hash, index)`: `<hash>@<index>`. */
  function CreateTxId(hash: string, index: string): string
  {
    hash + "@" + index
  }

  /** A transaction id is the hash, an `@` and the index. */
  lemma TxIdParts(hash: string, index: string)
    ensures var id := CreateTxId(hash, index);
      |id| == |hash| + 1 + |index| && id[..|hash| + 1] == hash + "@" && id[|hash| + 1..] == index
  {
  }

  /** `createPositionId(pool, lender, index)`: `<pool>-<lender>-<index>`. The
      index is an AssemblyScript `number`, an `f64`, whose `toString()` writes
      an integral value with a trailing `.0`: the first position is `…-0.0`. */
  function CreatePositionId(pool: string, lender: string, index: nat): string
  {
    pool + "-" + lender + "-" + Text.NatToDecimal(index) + ".0"
  }

  /** A lender's positions in a pool get distinct ids. */
  lemma PositionIdInjective(pool: string, lender: string, i: nat, j: nat)
    ensures CreatePositionId(pool, lender, i) == CreatePositionId(pool, lender, j) <==> i == j
  {
    var a, b := CreatePositionId(pool, lender, i), CreatePositionId(pool, lender, j);
    var n := |pool| + |lender| + 2;
    if a == b {
      assert a[n..|a| - 2] == Text.NatToDecimal(i) && b[n..|b| - 2] == Text.NatToDecimal(j);
      Text.NatToDecimalInjective(i, j);
    }
  }

  /** The first position of a lender in a pool is `<pool>-<lender>-0.0`. */
  lemma FirstPositionId(pool: string, lender: string)
    ensures CreatePositionId(pool, lender, 0) == pool + "-" + lender + "-0.0"
  {
    assert Text.NatToDecimal(0) == "0";
  }
}
