/** The Prime member registry of the subgraph: the list of public pools, the
    list of Prime members, and the pool memberships they imply. Every Prime
    member except a pool's borrower is a whitelisted member of every public
    pool. */
module PrimeRegistry {
  import opened GraphStore
  import opened SubgraphIds
  import opened MappingUtil
  import Text
  import SdkHelpers

  /** A fresh membership of the pool named by the id's first 42 characters:
      no principal, no positions, nothing paid. */
  function NewPoolMember(memberId: string, address: string, status: MemberStatus): PoolMember
  {
    PoolMember(memberId, address, address, ParseMemberId(memberId)[0], status, 0, 0, [], [], [], 0, 0, 0, 0, 0, 0, 0)
  }

  /** The membership `createPoolMember` saves under `memberId`: the stored one
      with its status replaced, or a fresh one. */
  function WithStatus(poolMembers: map<string, PoolMember>, memberId: string, address: string, status: MemberStatus): PoolMember
  {
    if memberId in poolMembers then poolMembers[memberId].(status := status) else NewPoolMember(memberId, address, status)
  }

  /** `createPoolMember` only sets the status of an existing membership; a new
      membership of `address` in `pool` belongs to that pool and starts empty. */
  lemma WithStatusEffect(poolMembers: map<string, PoolMember>, pool: string, address: string, status: MemberStatus)
    requires |pool| == AddressLength
    ensures var id := CreateMemberId(pool, address);
      var m := WithStatus(poolMembers, id, address, status);
      m.status == status &&
      (id in poolMembers ==> m.(status := poolMembers[id].status) == poolMembers[id]) &&
      (id !in poolMembers ==>
         m.id == id && m.pool == pool && m.address == address && m.primeRef == address &&
         m.principal == 0 && m.positions == [] && m.callbacks == [] && m.totalDue == 0)
  {
    ParseMemberIdRoundTrip(pool, address);
  }

  /** `createPoolMember(memberId, address, status)`. */
  method CreatePoolMember(st: Store, memberId: string, address: string, status: MemberStatus)
    modifies st`poolMembers
    ensures st.poolMembers == old(st.poolMembers)[memberId := WithStatus(old(st.poolMembers), memberId, address, status)]
  {
    var member: PoolMember;
    if memberId in st.poolMembers {
      member := st.poolMembers[memberId];
    } else {
      member := NewPoolMember(memberId, address, status);
    }
    member := member.(status := status);
    st.poolMembers := st.poolMembers[memberId := member];
  }

  /** The singleton table after `handleAddToPublicPool(pool)`: the pool is
      appended to the public pools of a stored singleton; without one nothing
      changes. */
  function WithPublicPool(primes: map<string, Prime>, pool: string): map<string, Prime>
  {
    if PrimeId in primes then primes[PrimeId := primes[PrimeId].(publicPools := primes[PrimeId].publicPools + [pool])]
    else primes
  }

  /** A stored singleton lists the pool last and keeps the pools it listed. */
  lemma WithPublicPoolEffect(primes: map<string, Prime>, pool: string)
    requires PrimeId in primes
    ensures var p := WithPublicPool(primes, pool)[PrimeId];
      |p.publicPools| == |primes[PrimeId].publicPools| + 1 && p.publicPools[|p.publicPools| - 1] == pool &&
      primes[PrimeId].publicPools <= p.publicPools && p.members == primes[PrimeId].members
  {
  }

  /** `handleAddToPublicPool(pool)`. */
  method AddToPublicPool(st: Store, pool: string)
    modifies st`primes
    ensures st.primes == WithPublicPool(old(st.primes), pool)
  {
    if PrimeId in st.primes {
      var instance := st.primes[PrimeId];
      var currentPools := instance.publicPools;
      currentPools := currentPools + [pool];
      instance := instance.(publicPools := currentPools);
      st.primes := st.primes[PrimeId := instance];
    }
  }

  /** The position of the first entry of `list` that contains `x`, or `|list|`
      when none does. */
  function FirstIncluding(list: seq<string>, x: string): (i: nat)
    ensures i <= |list|
  {
    if |list| == 0 then 0
    else if Text.Includes(list[0], x) then 0
    else 1 + FirstIncluding(list[1..], x)
  }

  /** `FirstIncluding` finds the first entry containing `x`. */
  lemma {:induction false} FirstIncludingSpec(list: seq<string>, x: string)
    ensures forall k :: 0 <= k < FirstIncluding(list, x) ==> !Text.Includes(list[k], x)
    ensures FirstIncluding(list, x) < |list| ==> Text.Includes(list[FirstIncluding(list, x)], x)
  {
    if |list| > 0 && !Text.Includes(list[0], x) {
      FirstIncludingSpec(list[1..], x);
      forall k | 0 < k < FirstIncluding(list, x)
        ensures !Text.Includes(list[k], x)
      {
        assert list[k] == list[1..][k - 1];
      }
    }
  }

  /** The index the search loops of `handleRemoveFromPublicPool` and
      `handleRemovePrimeMember` leave: the first entry containing `x`, or 0
      when there is none. */
  function LoopIndex(list: seq<string>, x: string): nat
  {
    var i := FirstIncluding(list, x);
    if i < |list| then i else 0
  }

  /** The search loop: scans `list` for an entry containing `x` and stops at the
      first; the index stays 0 when none contains it. */
  method FindIncluding(list: seq<string>, x: string) returns (index: nat)
    ensures index == LoopIndex(list, x)
  {
    FirstIncludingSpec(list, x);
    index := 0;
    var i := 0;
    while i < |list|
      invariant 0 <= i <= |list| && index == 0
      invariant forall k :: 0 <= k < i ==> !Text.Includes(list[k], x)
    {
      if Text.Includes(list[i], x) {
        index := i;
        return;
      }
      i := i + 1;
    }
  }

  /** `list.splice(index, 1)` at the loop's index, as the source does: the
      first entry when no entry contains `x`. */
  function RemoveIncludingAsWritten(list: seq<string>, x: string): (r: seq<string>)
    ensures |list| > 0 ==> |r| == |list| - 1
    ensures |list| == 0 ==> r == []
  {
    SdkHelpers.Splice(list, LoopIndex(list, x), 1).1
  }

  /** The intended removal: the first entry containing `x`, and nothing when no
      entry contains it. */
  function RemoveIncluding(list: seq<string>, x: string): (r: seq<string>)
    ensures (exists k :: 0 <= k < |list| && Text.Includes(list[k], x)) ==> |r| == |list| - 1
    ensures (forall k :: 0 <= k < |list| ==> !Text.Includes(list[k], x)) ==> r == list
  {
    FirstIncludingSpec(list, x);
    var i := FirstIncluding(list, x);
    if i < |list| then SdkHelpers.Splice(list, i, 1).1 else list
  }

  /** The intended removal drops exactly the first entry that contains `x`, and
      keeps the list when none does. */
  lemma RemoveIncludingSpec(list: seq<string>, x: string)
    ensures var r := RemoveIncluding(list, x);
      var i := FirstIncluding(list, x);
      (i == |list| ==> r == list && forall k :: 0 <= k < |list| ==> !Text.Includes(list[k], x)) &&
      (i < |list| ==> Text.Includes(list[i], x) && r == list[..i] + list[i + 1..])
  {
    FirstIncludingSpec(list, x);
  }

  /** As written, a list with no entry containing `x` loses its first entry:
      removing an unlisted pool drops another pool. */
  lemma RemoveUnlistedAsWritten()
    ensures RemoveIncludingAsWritten(["0xa", "0xb"], "0xc") == ["0xb"]
    ensures RemoveIncluding(["0xa", "0xb"], "0xc") == ["0xa", "0xb"]
  {
    assert !Text.Includes("0xa", "0xc") by {
      assert "0xa"[..3] != "0xc" by { assert "0xa"[2] != "0xc"[2]; }
    }
    assert !Text.Includes("0xb", "0xc") by {
      assert "0xb"[..3] != "0xc" by { assert "0xb"[2] != "0xc"[2]; }
    }
    assert FirstIncluding(["0xa", "0xb"], "0xc") == 2 by {
      assert ["0xa", "0xb"][1..] == ["0xb"];
      assert ["0xb"][1..] == [];
    }
  }

  /** When some entry contains `x`, the removal as written is the intended one:
      the two differ only for a list that does not contain `x`. */
  lemma RemoveIncludingAsWrittenListed(list: seq<string>, x: string)
    ensures FirstIncluding(list, x) < |list| ==> RemoveIncludingAsWritten(list, x) == RemoveIncluding(list, x)
    ensures FirstIncluding(list, x) == |list| && |list| > 0 ==> RemoveIncludingAsWritten(list, x) == list[1..]
  {
    FirstIncludingSpec(list, x);
  }

  /** `handleRemoveFromPublicPool(pool)` as written: without a stored entry
      containing the pool, the first public pool is removed. */
  method RemoveFromPublicPoolAsWritten(st: Store, pool: string)
    modifies st`primes
    ensures PrimeId in old(st.primes) ==>
      st.primes == old(st.primes)[PrimeId := old(st.primes)[PrimeId].(publicPools := RemoveIncludingAsWritten(old(st.primes)[PrimeId].publicPools, pool))]
    ensures PrimeId !in old(st.primes) ==> st.primes == old(st.primes)
  {
    if PrimeId in st.primes {
      var instance := st.primes[PrimeId];
      var currentPools := instance.publicPools;
      var index := FindIncluding(currentPools, pool);
      currentPools := SdkHelpers.Splice(currentPools, index, 1).1;
      instance := instance.(publicPools := currentPools);
      st.primes := st.primes[PrimeId := instance];
    }
  }

  /** `handleRemoveFromPublicPool(pool)` as intended: the first entry
      containing the pool is removed, and nothing when there is none. */
  method RemoveFromPublicPool(st: Store, pool: string)
    modifies st`primes
    ensures PrimeId in old(st.primes) ==>
      st.primes == old(st.primes)[PrimeId := old(st.primes)[PrimeId].(publicPools := RemoveIncluding(old(st.primes)[PrimeId].publicPools, pool))]
    ensures PrimeId !in old(st.primes) ==> st.primes == old(st.primes)
  {
    if PrimeId in st.primes {
      var instance := st.primes[PrimeId];
      var currentPools := instance.publicPools;
      var index := FindIncluding(currentPools, pool);
      FirstIncludingSpec(currentPools, pool);
      if index < |currentPools| && Text.Includes(currentPools[index], pool) {
        currentPools := SdkHelpers.Splice(currentPools, index, 1).1;
      }
      instance := instance.(publicPools := currentPools);
      st.primes := st.primes[PrimeId := instance];
    }
  }

  /** The ids of the Prime `members` that `handlePopulatePoolWithMembers` puts
      into a new `pool`, in order: all but the pool's creator. */
  function Populated(pool: string, members: seq<string>, creator: string): seq<string>
  {
    if |members| == 0 then []
    else
      var n := |members| - 1;
      if members[n] != creator then Populated(pool, members[..n], creator) + [CreateMemberId(pool, members[n])]
      else Populated(pool, members[..n], creator)
  }

  /** The memberships table after whitelisting those members one by one. */
  function WhitelistAll(poolMembers: map<string, PoolMember>, pool: string, members: seq<string>, creator: string): map<string, PoolMember>
  {
    if |members| == 0 then poolMembers
    else
      var n := |members| - 1;
      var prev := WhitelistAll(poolMembers, pool, members[..n], creator);
      var id := CreateMemberId(pool, members[n]);
      if members[n] != creator then prev[id := WithStatus(prev, id, members[n], Whitelisted)] else prev
  }

  /** A new pool lists exactly the Prime members other than its creator. */
  lemma {:induction false} PopulatedMembers(pool: string, members: seq<string>, creator: string, m: string)
    ensures CreateMemberId(pool, m) in Populated(pool, members, creator) <==> m in members && m != creator
  {
    if |members| > 0 {
      var n := |members| - 1;
      PopulatedMembers(pool, members[..n], creator, m);
      assert members == members[..n] + [members[n]];
      MemberIdInjective(pool, m, pool, members[n]);
    }
  }

  /** Whitelisting keeps every membership there was and records each member
      it lists as a whitelisted membership. */
  lemma {:induction false} WhitelistAllRecords(poolMembers: map<string, PoolMember>, pool: string, members: seq<string>, creator: string)
    ensures forall id :: id in poolMembers ==> id in WhitelistAll(poolMembers, pool, members, creator)
    ensures forall id :: id in Populated(pool, members, creator) ==>
      id in WhitelistAll(poolMembers, pool, members, creator) && WhitelistAll(poolMembers, pool, members, creator)[id].status == Whitelisted
  {
    if |members| > 0 {
      WhitelistAllRecords(poolMembers, pool, members[..|members| - 1], creator);
    }
  }

  /** `handlePopulatePoolWithMembers(pool, creator)`: whitelists every Prime
      member but the creator in the pool and returns their ids. The singleton
      is saved as it was loaded, so it is left as it was. */
  method PopulatePoolWithMembers(st: Store, pool: string, poolCreator: string) returns (poolMembers: seq<string>)
    modifies st`poolMembers
    ensures PrimeId in st.primes ==>
      poolMembers == Populated(pool, st.primes[PrimeId].members, poolCreator) &&
      st.poolMembers == WhitelistAll(old(st.poolMembers), pool, st.primes[PrimeId].members, poolCreator)
    ensures PrimeId !in st.primes ==> poolMembers == [] && st.poolMembers == old(st.poolMembers)
  {
    poolMembers := [];
    if PrimeId in st.primes {
      var instanceMembers := st.primes[PrimeId].members;
      for i := 0 to |instanceMembers|
        invariant poolMembers == Populated(pool, instanceMembers[..i], poolCreator)
        invariant st.poolMembers == WhitelistAll(old(st.poolMembers), pool, instanceMembers[..i], poolCreator)
      {
        assert instanceMembers[..i + 1][..i] == instanceMembers[..i];
        if poolCreator != instanceMembers[i] {
          var memberId := CreateMemberId(pool, instanceMembers[i]);
          CreatePoolMember(st, memberId, instanceMembers[i], Whitelisted);
          poolMembers := poolMembers + [memberId];
        }
      }
      assert instanceMembers[..|instanceMembers|] == instanceMembers;
    }
  }

  /** Every id a pool lists has a membership entity. */
  ghost predicate MembersRecorded(pools: map<string, Pool>, poolMembers: map<string, PoolMember>)
  {
    forall id, m :: id in pools && m in pools[id].members ==> m in poolMembers
  }

  /** The ids `handleAddPrimeMember` appends to a pool that lists `listed` and
      is borrowed by `borrower`: those of the Prime `members`, in order, that
      are not the borrower and not already listed. */
  function Joining(poolId: string, listed: seq<string>, borrower: string, members: seq<string>): seq<string>
  {
    if |members| == 0 then []
    else
      var n := |members| - 1;
      var id := CreateMemberId(poolId, members[n]);
      if id !in listed && borrower != members[n] then Joining(poolId, listed, borrower, members[..n]) + [id]
      else Joining(poolId, listed, borrower, members[..n])
  }

  /** The memberships table after whitelisting the joining members one by one. */
  function WhitelistJoining(poolMembers: map<string, PoolMember>, poolId: string, listed: seq<string>, borrower: string, members: seq<string>): map<string, PoolMember>
  {
    if |members| == 0 then poolMembers
    else
      var n := |members| - 1;
      var prev := WhitelistJoining(poolMembers, poolId, listed, borrower, members[..n]);
      var id := CreateMemberId(poolId, members[n]);
      if id !in listed && borrower != members[n] then prev[id := WithStatus(prev, id, members[n], Whitelisted)] else prev
  }

  /** The pools and memberships after one turn of the outer loop of
      `handleAddPrimeMember`, for the public pool `poolId`. */
  function JoinPool(pools: map<string, Pool>, poolMembers: map<string, PoolMember>, poolId: string, members: seq<string>): (map<string, Pool>, map<string, PoolMember>)
  {
    if poolId in pools then
      var pool := pools[poolId];
      (pools[poolId := pool.(members := pool.members + Joining(poolId, pool.members, pool.borrower, members))],
       WhitelistJoining(poolMembers, poolId, pool.members, pool.borrower, members))
    else (pools, poolMembers)
  }

  /** The pools and memberships after the whole outer loop. */
  function JoinPools(pools: map<string, Pool>, poolMembers: map<string, PoolMember>, poolIds: seq<string>, members: seq<string>): (map<string, Pool>, map<string, PoolMember>)
  {
    if |poolIds| == 0 then (pools, poolMembers)
    else
      var n := |poolIds| - 1;
      var prev := JoinPools(pools, poolMembers, poolIds[..n], members);
      JoinPool(prev.0, prev.1, poolIds[n], members)
  }

  /** After the inner loop, a pool lists every Prime member but its borrower. */
  lemma {:induction false} JoiningCovers(poolId: string, listed: seq<string>, borrower: string, members: seq<string>, m: string)
    requires m in members && m != borrower
    ensures CreateMemberId(poolId, m) in listed + Joining(poolId, listed, borrower, members)
  {
    var n := |members| - 1;
    if members[n] != m {
      assert m in members[..n] by { assert members == members[..n] + [members[n]]; }
      JoiningCovers(poolId, listed, borrower, members[..n], m);
    }
  }

  /** The inner loop keeps every membership and records every id it appends. */
  lemma {:induction false} WhitelistJoiningRecords(poolMembers: map<string, PoolMember>, poolId: string, listed: seq<string>, borrower: string, members: seq<string>)
    ensures forall id :: id in poolMembers ==> id in WhitelistJoining(poolMembers, poolId, listed, borrower, members)
    ensures forall id :: id in Joining(poolId, listed, borrower, members) ==>
      id in WhitelistJoining(poolMembers, poolId, listed, borrower, members) &&
      WhitelistJoining(poolMembers, poolId, listed, borrower, members)[id].status == Whitelisted
  {
    if |members| > 0 {
      WhitelistJoiningRecords(poolMembers, poolId, listed, borrower, members[..|members| - 1]);
    }
  }

  /** Adding a Prime member stores the same pools and loses no membership. */
  lemma {:induction false} JoinPoolsKeys(pools: map<string, Pool>, poolMembers: map<string, PoolMember>, poolIds: seq<string>, members: seq<string>)
    ensures var r := JoinPools(pools, poolMembers, poolIds, members);
      (forall id :: id in r.0 <==> id in pools) && (forall id :: id in poolMembers ==> id in r.1)
  {
    if |poolIds| > 0 {
      var n := |poolIds| - 1;
      JoinPoolsKeys(pools, poolMembers, poolIds[..n], members);
      var prev := JoinPools(pools, poolMembers, poolIds[..n], members);
      if poolIds[n] in prev.0 {
        var pool := prev.0[poolIds[n]];
        WhitelistJoiningRecords(prev.1, poolIds[n], pool.members, pool.borrower, members);
      }
    }
  }

  /** Adding a Prime member only appends to the member lists of the pools:
      each pool keeps its other fields and the members it listed before. */
  lemma {:induction false} JoinPoolsKeeps(pools: map<string, Pool>, poolMembers: map<string, PoolMember>, poolIds: seq<string>, members: seq<string>, id: string)
    requires id in pools
    ensures var r := JoinPools(pools, poolMembers, poolIds, members);
      id in r.0 && r.0[id].(members := pools[id].members) == pools[id] && pools[id].members <= r.0[id].members
  {
    if |poolIds| > 0 {
      var n := |poolIds| - 1;
      JoinPoolsKeeps(pools, poolMembers, poolIds[..n], members, id);
    }
  }

  /** After `handleAddPrimeMember`, every stored public pool lists every Prime
      member other than its borrower. */
  lemma {:induction false} JoinPoolsCovers(pools: map<string, Pool>, poolMembers: map<string, PoolMember>, poolIds: seq<string>, members: seq<string>, k: nat, m: string)
    requires k < |poolIds| && poolIds[k] in pools && m in members && m != pools[poolIds[k]].borrower
    ensures var r := JoinPools(pools, poolMembers, poolIds, members);
      poolIds[k] in r.0 && CreateMemberId(poolIds[k], m) in r.0[poolIds[k]].members
  {
    var n := |poolIds| - 1;
    var prev := JoinPools(pools, poolMembers, poolIds[..n], members);
    JoinPoolsKeeps(pools, poolMembers, poolIds[..n], members, poolIds[k]);
    if k < n {
      JoinPoolsCovers(pools, poolMembers, poolIds[..n], members, k, m);
      if poolIds[n] in prev.0 {
        var pool := prev.0[poolIds[n]];
        assert poolIds[..n][k] == poolIds[k];
      }
    } else {
      var pool := prev.0[poolIds[n]];
      JoiningCovers(poolIds[n], pool.members, pool.borrower, members, m);
    }
  }

  /** Adding a Prime member keeps every listed id backed by a membership. */
  lemma {:induction false} JoinPoolsRecorded(pools: map<string, Pool>, poolMembers: map<string, PoolMember>, poolIds: seq<string>, members: seq<string>)
    requires MembersRecorded(pools, poolMembers)
    ensures var r := JoinPools(pools, poolMembers, poolIds, members);
      MembersRecorded(r.0, r.1)
  {
    if |poolIds| > 0 {
      var n := |poolIds| - 1;
      JoinPoolsRecorded(pools, poolMembers, poolIds[..n], members);
      var prev := JoinPools(pools, poolMembers, poolIds[..n], members);
      if poolIds[n] in prev.0 {
        var pool := prev.0[poolIds[n]];
        WhitelistJoiningRecords(prev.1, poolIds[n], pool.members, pool.borrower, members);
      }
    }
  }

  /** One turn of the outer loop of `handleAddPrimeMember`: the inner loop over
      the Prime members, then the save of the pool. */
  method JoinPublicPool(st: Store, poolId: string, currentMembers: seq<string>)
    modifies st`pools, st`poolMembers
    ensures (st.pools, st.poolMembers) == JoinPool(old(st.pools), old(st.poolMembers), poolId, currentMembers)
  {
    if poolId in st.pools {
      var pool := st.pools[poolId];
      var poolMembers := pool.members;
      for j := 0 to |currentMembers|
        invariant poolMembers == pool.members + Joining(poolId, pool.members, pool.borrower, currentMembers[..j])
        invariant st.poolMembers == WhitelistJoining(old(st.poolMembers), poolId, pool.members, pool.borrower, currentMembers[..j])
        invariant st.pools == old(st.pools)
      {
        assert currentMembers[..j + 1][..j] == currentMembers[..j];
        var memberId := CreateMemberId(poolId, currentMembers[j]);
        if memberId !in pool.members && pool.borrower != currentMembers[j] {
          CreatePoolMember(st, memberId, currentMembers[j], Whitelisted);
          poolMembers := poolMembers + [memberId];
        }
      }
      assert currentMembers[..|currentMembers|] == currentMembers;
      st.pools := st.pools[poolId := pool.(members := poolMembers)];
    }
  }

  /** `handleAddPrimeMember(memberId)`: appends the member to the singleton's
      members, makes every Prime member a member of every public pool, and
      saves the singleton (creating it when it was not stored). */
  method AddPrimeMember(st: Store, memberId: string)
    modifies st`primes, st`pools, st`poolMembers
    ensures var instance := StoredPrime(old(st.primes));
      st.primes == old(st.primes)[PrimeId := instance.(members := instance.members + [memberId])] &&
      (st.pools, st.poolMembers) == JoinPools(old(st.pools), old(st.poolMembers), instance.publicPools, instance.members + [memberId])
  {
    var instance := GetOrCreatePrimeEntity(st);
    var currentMembers := instance.members;
    var currentPools := instance.publicPools;
    currentMembers := currentMembers + [memberId];
    instance := instance.(members := currentMembers);
    for i := 0 to |currentPools|
      invariant (st.pools, st.poolMembers) == JoinPools(old(st.pools), old(st.poolMembers), currentPools[..i], currentMembers)
      invariant st.primes == old(st.primes)
    {
      assert currentPools[..i + 1][..i] == currentPools[..i];
      JoinPublicPool(st, currentPools[i], currentMembers);
    }
    assert currentPools[..|currentPools|] == currentPools;
    st.primes := st.primes[PrimeId := instance];
  }

  /** `list.indexOf(x)` on an array: the first position holding `x`, or -1. */
  function ArrayIndexOf(list: seq<string>, x: string): (i: int)
    ensures -1 <= i < |list|
    ensures i >= 0 ==> list[i] == x
    ensures i < 0 <==> x !in list
  {
    if |list| == 0 then -1
    else if list[0] == x then 0
    else
      var j := ArrayIndexOf(list[1..], x);
      assert x in list[1..] <==> x in list;
      if j < 0 then -1 else j + 1
  }

  /** The member list the inner loop of `handleRemovePrimeMember` leaves, as
      written: for every Prime member the pool listed in `listed`, the entry at
      that member's position in `listed` is spliced out of the list being
      shortened, so later positions are off by the entries already removed. */
  function LeftAsWritten(listed: seq<string>, poolId: string, members: seq<string>): seq<string>
  {
    if |members| == 0 then listed
    else
      var n := |members| - 1;
      var prev := LeftAsWritten(listed, poolId, members[..n]);
      var id := CreateMemberId(poolId, members[n]);
      if id in listed then SdkHelpers.Splice(prev, ArrayIndexOf(listed, id), 1).1 else prev
  }

  /** The memberships the inner loop deletes, as written: that of every Prime
      member the pool listed. */
  function DroppedAsWritten(poolMembers: map<string, PoolMember>, listed: seq<string>, poolId: string, members: seq<string>): map<string, PoolMember>
  {
    if |members| == 0 then poolMembers
    else
      var n := |members| - 1;
      var prev := DroppedAsWritten(poolMembers, listed, poolId, members[..n]);
      var id := CreateMemberId(poolId, members[n]);
      if id in listed then prev - {id} else prev
  }

  /** One turn of the outer loop of `handleRemovePrimeMember`, as written. */
  function LeavePoolAsWritten(pools: map<string, Pool>, poolMembers: map<string, PoolMember>, poolId: string, members: seq<string>): (map<string, Pool>, map<string, PoolMember>)
  {
    if poolId in pools then
      var pool := pools[poolId];
      (pools[poolId := pool.(members := LeftAsWritten(pool.members, poolId, members))],
       DroppedAsWritten(poolMembers, pool.members, poolId, members))
    else (pools, poolMembers)
  }

  /** The whole outer loop, as written. */
  function LeavePoolsAsWritten(pools: map<string, Pool>, poolMembers: map<string, PoolMember>, poolIds: seq<string>, members: seq<string>): (map<string, Pool>, map<string, PoolMember>)
  {
    if |poolIds| == 0 then (pools, poolMembers)
    else
      var n := |poolIds| - 1;
      var prev := LeavePoolsAsWritten(pools, poolMembers, poolIds[..n], members);
      LeavePoolAsWritten(prev.0, prev.1, poolIds[n], members)
  }

  /** One turn of the outer loop as written: the inner loop runs over every
      Prime member, not only the one being removed. */
  method LeavePublicPoolAsWritten(st: Store, poolId: string, currentMembers: seq<string>)
    modifies st`pools, st`poolMembers
    ensures (st.pools, st.poolMembers) == LeavePoolAsWritten(old(st.pools), old(st.poolMembers), poolId, currentMembers)
  {
    if poolId in st.pools {
      var pool := st.pools[poolId];
      var poolMembers := pool.members;
      for j := 0 to |currentMembers|
        invariant poolMembers == LeftAsWritten(pool.members, poolId, currentMembers[..j])
        invariant st.poolMembers == DroppedAsWritten(old(st.poolMembers), pool.members, poolId, currentMembers[..j])
        invariant st.pools == old(st.pools)
      {
        assert currentMembers[..j + 1][..j] == currentMembers[..j];
        var memberId := CreateMemberId(poolId, currentMembers[j]);
        if memberId in pool.members {
          var index := ArrayIndexOf(pool.members, memberId);
          poolMembers := SdkHelpers.Splice(poolMembers, index, 1).1;
          st.poolMembers := st.poolMembers - {memberId};
        }
      }
      assert currentMembers[..|currentMembers|] == currentMembers;
      st.pools := st.pools[poolId := pool.(members := poolMembers)];
    }
  }

  /** `handleRemovePrimeMember(memberId)` as written: it removes every Prime
      member, not only `memberId`, from every public pool, and removes the
      first Prime member when `memberId` is not one. */
  method RemovePrimeMemberAsWritten(st: Store, memberId: string)
    modifies st`primes, st`pools, st`poolMembers
    ensures var instance := StoredPrime(old(st.primes));
      st.primes == old(st.primes)[PrimeId := instance.(members := RemoveIncludingAsWritten(instance.members, memberId))] &&
      (st.pools, st.poolMembers) == LeavePoolsAsWritten(old(st.pools), old(st.poolMembers), instance.publicPools, instance.members)
  {
    var instance := GetOrCreatePrimeEntity(st);
    var currentMembers := instance.members;
    var currentPools := instance.publicPools;
    var index := FindIncluding(currentMembers, memberId);
    for i := 0 to |currentPools|
      invariant (st.pools, st.poolMembers) == LeavePoolsAsWritten(old(st.pools), old(st.poolMembers), currentPools[..i], currentMembers)
      invariant st.primes == old(st.primes)
    {
      assert currentPools[..i + 1][..i] == currentPools[..i];
      LeavePublicPoolAsWritten(st, currentPools[i], currentMembers);
    }
    assert currentPools[..|currentPools|] == currentPools;
    currentMembers := SdkHelpers.Splice(currentMembers, index, 1).1;
    instance := instance.(members := currentMembers);
    st.primes := st.primes[PrimeId := instance];
  }

  /** The intended turn for one public pool: only `memberId`'s membership is
      removed from the pool's list and from the memberships. */
  function LeavePool(pools: map<string, Pool>, poolMembers: map<string, PoolMember>, poolId: string, memberId: string): (map<string, Pool>, map<string, PoolMember>)
  {
    var id := CreateMemberId(poolId, memberId);
    if poolId in pools && id in pools[poolId].members then
      var pool := pools[poolId];
      (pools[poolId := pool.(members := SdkHelpers.Splice(pool.members, ArrayIndexOf(pool.members, id), 1).1)],
       poolMembers - {id})
    else (pools, poolMembers)
  }

  /** The intended outer loop. */
  function LeavePools(pools: map<string, Pool>, poolMembers: map<string, PoolMember>, poolIds: seq<string>, memberId: string): (map<string, Pool>, map<string, PoolMember>)
  {
    if |poolIds| == 0 then (pools, poolMembers)
    else
      var n := |poolIds| - 1;
      var prev := LeavePools(pools, poolMembers, poolIds[..n], memberId);
      LeavePool(prev.0, prev.1, poolIds[n], memberId)
  }

  /** The ids of `memberId`'s memberships of the pools `poolIds`. */
  function LeavingIds(poolIds: seq<string>, memberId: string): (ids: seq<string>)
    ensures |ids| == |poolIds|
  {
    if |poolIds| == 0 then []
    else
      var n := |poolIds| - 1;
      LeavingIds(poolIds[..n], memberId) + [CreateMemberId(poolIds[n], memberId)]
  }

  /** Removing `memberId` as intended leaves every other membership and every
      other listed id in place. */
  lemma {:induction false} LeavePoolsKeepsOthers(pools: map<string, Pool>, poolMembers: map<string, PoolMember>, poolIds: seq<string>, memberId: string)
    ensures var r := LeavePools(pools, poolMembers, poolIds, memberId);
      (forall id :: id in poolMembers && id !in LeavingIds(poolIds, memberId) ==> id in r.1 && r.1[id] == poolMembers[id]) &&
      (forall p, m :: p in pools && m in pools[p].members && m !in LeavingIds(poolIds, memberId) ==> p in r.0 && m in r.0[p].members)
  {
    if |poolIds| > 0 {
      var n := |poolIds| - 1;
      LeavePoolsKeepsOthers(pools, poolMembers, poolIds[..n], memberId);
      var prev := LeavePools(pools, poolMembers, poolIds[..n], memberId);
      var id := CreateMemberId(poolIds[n], memberId);
      var ids := LeavingIds(poolIds, memberId);
      assert ids == LeavingIds(poolIds[..n], memberId) + [id];
      if poolIds[n] in prev.0 && id in prev.0[poolIds[n]].members {
        var listed := prev.0[poolIds[n]].members;
        var i := ArrayIndexOf(listed, id);
        assert listed == listed[..i] + [id] + listed[i + 1..];
      }
    }
  }

  /** `handleRemovePrimeMember(memberId)` as intended: only `memberId` leaves
      the public pools, and only `memberId` leaves the Prime members. */
  method RemovePrimeMember(st: Store, memberId: string)
    modifies st`primes, st`pools, st`poolMembers
    ensures var instance := StoredPrime(old(st.primes));
      st.primes == old(st.primes)[PrimeId := instance.(members := RemoveIncluding(instance.members, memberId))] &&
      (st.pools, st.poolMembers) == LeavePools(old(st.pools), old(st.poolMembers), instance.publicPools, memberId)
  {
    var instance := GetOrCreatePrimeEntity(st);
    var currentMembers := instance.members;
    var currentPools := instance.publicPools;
    var index := FindIncluding(currentMembers, memberId);
    FirstIncludingSpec(currentMembers, memberId);
    for i := 0 to |currentPools|
      invariant (st.pools, st.poolMembers) == LeavePools(old(st.pools), old(st.poolMembers), currentPools[..i], memberId)
      invariant st.primes == old(st.primes)
    {
      assert currentPools[..i + 1][..i] == currentPools[..i];
      var poolId := currentPools[i];
      var id := CreateMemberId(poolId, memberId);
      if poolId in st.pools && id in st.pools[poolId].members {
        var pool := st.pools[poolId];
        var poolMembers := SdkHelpers.Splice(pool.members, ArrayIndexOf(pool.members, id), 1).1;
        st.poolMembers := st.poolMembers - {id};
        st.pools := st.pools[poolId := pool.(members := poolMembers)];
      }
    }
    assert currentPools[..|currentPools|] == currentPools;
    if index < |currentMembers| && Text.Includes(currentMembers[index], memberId) {
      currentMembers := SdkHelpers.Splice(currentMembers, index, 1).1;
    }
    instance := instance.(members := currentMembers);
    st.primes := st.primes[PrimeId := instance];
  }

  /** The as-written half of the example below. */
  lemma LeavePoolsAsWrittenExample(pool: Pool, a: PoolMember, b: PoolMember)
    requires pool.members == ["pa", "pb"]
    ensures var r := LeavePoolsAsWritten(map["p" := pool], map["pa" := a, "pb" := b], ["p"], ["a", "b"]);
      "p" in r.0 && r.0["p"].members == ["pb"] && "pb" !in r.1 && !MembersRecorded(r.0, r.1)
  {
    var pools, pm := map["p" := pool], map["pa" := a, "pb" := b];
    var listed := pool.members;
    assert CreateMemberId("p", "a") == "pa" && CreateMemberId("p", "b") == "pb";
    assert ["a", "b"][..1] == ["a"] && ["a"][..0] == [] && ["p"][..0] == [];
    assert ArrayIndexOf(listed, "pa") == 0;
    assert ArrayIndexOf(listed, "pb") == 1 by { assert listed[1..] == ["pb"]; }
    assert LeftAsWritten(listed, "p", ["a"]) == ["pb"] by {
      assert LeftAsWritten(listed, "p", []) == listed;
      assert SdkHelpers.Splice(listed, 0, 1).1 == ["pb"];
    }
    assert LeftAsWritten(listed, "p", ["a", "b"]) == ["pb"] by {
      assert SdkHelpers.Splice(["pb"], 1, 1).1 == ["pb"];
    }
    assert DroppedAsWritten(pm, listed, "p", ["a", "b"]) == pm - {"pa"} - {"pb"} by {
      assert DroppedAsWritten(pm, listed, "p", ["a"]) == pm - {"pa"};
    }
    assert LeavePoolsAsWritten(pools, pm, ["p"][..0], ["a", "b"]) == (pools, pm);
    var r := LeavePoolsAsWritten(pools, pm, ["p"], ["a", "b"]);
    assert r == LeavePoolAsWritten(pools, pm, "p", ["a", "b"]);
    assert r.0["p"] == pool.(members := ["pb"]);
    assert "pb" in r.0["p"].members;
  }

  /** The intended half of the example below. */
  lemma LeavePoolsExample(pool: Pool, a: PoolMember, b: PoolMember)
    requires pool.members == ["pa", "pb"]
    ensures var r := LeavePools(map["p" := pool], map["pa" := a, "pb" := b], ["p"], "a");
      "p" in r.0 && r.0["p"].members == ["pb"] && "pb" in r.1 && r.1["pb"] == b
  {
    var pools, pm := map["p" := pool], map["pa" := a, "pb" := b];
    var listed := pool.members;
    assert CreateMemberId("p", "a") == "pa";
    assert ["p"][..0] == [];
    assert ArrayIndexOf(listed, "pa") == 0;
    assert LeavePools(pools, pm, ["p"][..0], "a") == (pools, pm);
    assert LeavePools(pools, pm, ["p"], "a") == LeavePool(pools, pm, "p", "a");
    assert SdkHelpers.Splice(listed, 0, 1).1 == ["pb"];
  }

  /** As written, blacklisting Prime member `a` of a public pool `p` that lists
      `a` and `b` deletes `b`'s membership too while `p` still lists it; as
      intended, `b` keeps it. */
  lemma RemovePrimeMemberAsWrittenDropsOthers(pool: Pool, a: PoolMember, b: PoolMember)
    requires pool.members == ["pa", "pb"]
    ensures var r := LeavePoolsAsWritten(map["p" := pool], map["pa" := a, "pb" := b], ["p"], ["a", "b"]);
      "p" in r.0 && r.0["p"].members == ["pb"] && "pb" !in r.1 && !MembersRecorded(r.0, r.1)
    ensures var r := LeavePools(map["p" := pool], map["pa" := a, "pb" := b], ["p"], "a");
      "p" in r.0 && r.0["p"].members == ["pb"] && "pb" in r.1 && r.1["pb"] == b
  {
    LeavePoolsAsWrittenExample(pool, a, b);
    LeavePoolsExample(pool, a, b);
  }
}
