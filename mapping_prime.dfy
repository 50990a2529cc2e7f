/** The handlers of the Prime contract's events: a member's creation, status
    and risk score, with whitelisting and blacklisting reflected in the Prime
    registry and the public pools. */
module PrimeMapping {
  import opened GraphStore
  import opened MappingUtil
  import opened PrimeRegistry

  /** The members table after `handleMemberCreate(member)`: a new member is
      pending with risk score 0; a known one is saved unchanged. */
  function CreatedMembers(members: map<string, Member>, member: string): map<string, Member>
  {
    if member in members then members else members[member := Member(member, Pending, 0)]
  }

  /** `handleMemberCreate(event)`. */
  method MemberCreate(st: Store, member: string)
    modifies st`members
    ensures st.members == CreatedMembers(old(st.members), member)
  {
    var m: Member;
    if member in st.members {
      m := st.members[member];
    } else {
      m := Member(member, Pending, 0);
    }
    st.members := st.members[member := m];
  }

  /** Creating a member leaves every known member as it was and knows the new
      one afterwards, pending with risk score 0 when it was new; creating it
      again changes nothing. */
  lemma CreatedMembersEffect(members: map<string, Member>, member: string)
    ensures var r := CreatedMembers(members, member);
      member in r && (forall id :: id in members ==> id in r && r[id] == members[id]) &&
      (forall id :: id in r ==> id in members || id == member) &&
      (member !in members ==> r[member].status == Pending && r[member].riskScore == 0) &&
      CreatedMembers(r, member) == r
  {
  }

  /** `handleMemberWhitelist(event)`: a known member becomes whitelisted and
      joins the Prime members and every public pool; an unknown one changes
      nothing. */
  method MemberWhitelist(st: Store, member: string)
    modifies st`members, st`primes, st`pools, st`poolMembers
    ensures member !in old(st.members) ==>
      st.members == old(st.members) && st.primes == old(st.primes) && st.pools == old(st.pools) && st.poolMembers == old(st.poolMembers)
    ensures member in old(st.members) ==>
      var instance := StoredPrime(old(st.primes));
      st.members == old(st.members)[member := old(st.members)[member].(status := Whitelisted)] &&
      st.primes == old(st.primes)[PrimeId := instance.(members := instance.members + [member])] &&
      (st.pools, st.poolMembers) == JoinPools(old(st.pools), old(st.poolMembers), instance.publicPools, instance.members + [member])
  {
    if member in st.members {
      var m := st.members[member];
      m := m.(status := Whitelisted);
      AddPrimeMember(st, member);
      st.members := st.members[member := m];
    }
  }

  /** `handleMemberBlacklist(event)`: a known member becomes blacklisted and
      `handleRemovePrimeMember` runs as written, so every Prime member's
      membership of a public pool is removed, not only this member's; an
      unknown member changes nothing. */
  method MemberBlacklist(st: Store, member: string)
    modifies st`members, st`primes, st`pools, st`poolMembers
    ensures member !in old(st.members) ==>
      st.members == old(st.members) && st.primes == old(st.primes) && st.pools == old(st.pools) && st.poolMembers == old(st.poolMembers)
    ensures member in old(st.members) ==>
      var instance := StoredPrime(old(st.primes));
      st.members == old(st.members)[member := old(st.members)[member].(status := Blacklisted)] &&
      st.primes == old(st.primes)[PrimeId := instance.(members := RemoveIncludingAsWritten(instance.members, member))] &&
      (st.pools, st.poolMembers) == LeavePoolsAsWritten(old(st.pools), old(st.poolMembers), instance.publicPools, instance.members)
  {
    if member in st.members {
      var m := st.members[member];
      m := m.(status := Blacklisted);
      RemovePrimeMemberAsWritten(st, member);
      st.members := st.members[member := m];
    }
  }

  /** `handleMemberRiskScoreChange(event)`: a known member takes the new
      score; an unknown one changes nothing. */
  method MemberRiskScoreChange(st: Store, member: string, score: int)
    modifies st`members
    ensures member in old(st.members) ==> st.members == old(st.members)[member := old(st.members)[member].(riskScore := score)]
    ensures member !in old(st.members) ==> st.members == old(st.members)
  {
    if member in st.members {
      var m := st.members[member];
      m := m.(riskScore := score);
      st.members := st.members[member := m];
    }
  }
}
