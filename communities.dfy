/** The community store (`useCommunityStore`): a list of communities, each with the
    list of its members. A user may belong to at most five communities at once; a join
    beyond that is refused with an error and changes nothing. */
module Communities {
  import opened Common

  /** The most communities one user may be a member of. */
  const MaxCommunitiesPerUser: nat := 5

  datatype Community = Community(
    id: string,
    name: string,
    description: string,
    category: string,
    members: seq<string>,
    createdAt: int)

  /** What `joinCommunity` does: the join happens, or the thrown limit error. */
  datatype JoinOutcome = Joined | LimitReached

  /** Identifiers come from `crypto.randomUUID()` and are taken to be distinct. */
  ghost predicate DistinctIds(cs: seq<Community>)
  {
    forall i, j :: 0 <= i < j < |cs| ==> cs[i].id != cs[j].id
  }

  /** `com => com.members.includes(userId)` as a filter argument. */
  function HasMember(userId: string): Community -> bool
  {
    (c: Community) => userId in c.members
  }

  /** `getUserCommunityCount` over a list: the communities `userId` belongs to,
      each counted once however often it lists the user. */
  function MembershipCount(cs: seq<Community>, userId: string): (n: nat)
    ensures n == |Filter(HasMember(userId), cs)|
    ensures n <= |cs|
    ensures n == 0 <==> forall c :: c in cs ==> userId !in c.members
  {
    Count(HasMember(userId), cs)
  }

  /** The community `addCommunity` builds. */
  function NewCommunity(name: string, description: string, category: string,
                        id: string, now: int): (c: Community)
    ensures c.members == [] && c.id == id && c.createdAt == now
    ensures c.name == name && c.description == description && c.category == category
  {
    Community(id, name, description, category, [], now)
  }

  /** `communities.map(...)` of `joinCommunity`: `userId` appended to the members of
      the community with identifier `id`, with no check for a repeat. */
  function JoinAt(cs: seq<Community>, id: string, userId: string): (r: seq<Community>)
    ensures |r| == |cs|
    ensures forall i :: 0 <= i < |r| && cs[i].id == id ==>
              r[i] == cs[i].(members := cs[i].members + [userId])
    ensures forall i :: 0 <= i < |r| && cs[i].id != id ==> r[i] == cs[i]
  {
    seq(|cs|, i requires 0 <= i < |cs| =>
      if cs[i].id == id then cs[i].(members := cs[i].members + [userId]) else cs[i])
  }

  /** The members of one community without any occurrence of `userId`. */
  function WithoutMember(members: seq<string>, userId: string): (r: seq<string>)
    ensures IsSubsequence(r, members)
    ensures userId !in r
    ensures forall x :: x != userId ==> multiset(r)[x] == multiset(members)[x]
  {
    var r := Filter(x => x != userId, members);
    FilterMembership(x => x != userId, members, userId);
    r
  }

  /** `communities.map(...)` of `leaveCommunity`: `userId` removed from the community
      with identifier `id` only. */
  function LeaveAt(cs: seq<Community>, id: string, userId: string): (r: seq<Community>)
    ensures |r| == |cs|
    ensures forall i :: 0 <= i < |r| && cs[i].id == id ==>
              r[i] == cs[i].(members := WithoutMember(cs[i].members, userId))
    ensures forall i :: 0 <= i < |r| && cs[i].id != id ==> r[i] == cs[i]
  {
    seq(|cs|, i requires 0 <= i < |cs| =>
      if cs[i].id == id then cs[i].(members := WithoutMember(cs[i].members, userId)) else cs[i])
  }

  /** `communities.map(...)` of `removeUserFromAllCommunities`. */
  function LeaveAll(cs: seq<Community>, userId: string): (r: seq<Community>)
    ensures |r| == |cs|
    ensures forall i :: 0 <= i < |r| ==>
              r[i] == cs[i].(members := WithoutMember(cs[i].members, userId))
  {
    seq(|cs|, i requires 0 <= i < |cs| =>
      cs[i].(members := WithoutMember(cs[i].members, userId)))
  }

  /** With distinct identifiers only one community gains a member, so the joiner's
      count grows by at most one. */
  lemma JoinCountJoiner(cs: seq<Community>, id: string, userId: string)
    requires DistinctIds(cs)
    ensures MembershipCount(JoinAt(cs, id, userId), userId) <= MembershipCount(cs, userId) + 1
  {
    var r := JoinAt(cs, id, userId);
    var has := HasMember(userId);
    if k :| 0 <= k < |cs| && cs[k].id == id {
      forall i | 0 <= i < |cs| && i != k ensures has(cs[i]) <==> has(r[i]) {
        assert cs[i].id != id;
      }
      CountOneChange(has, has, cs, r, k);
    } else {
      forall i | 0 <= i < |cs| ensures has(cs[i]) <==> has(r[i]) {
        assert r[i] == cs[i];
      }
      CountPointwise(has, has, cs, r);
    }
  }

  /** A join lists nobody new but the joiner. */
  lemma JoinCountOthers(cs: seq<Community>, id: string, userId: string, other: string)
    requires other != userId
    ensures MembershipCount(JoinAt(cs, id, userId), other) == MembershipCount(cs, other)
  {
    var r := JoinAt(cs, id, userId);
    var has := HasMember(other);
    forall i | 0 <= i < |cs| ensures has(cs[i]) <==> has(r[i]) {
      if cs[i].id == id {
        assert r[i].members == cs[i].members + [userId];
      }
    }
    CountPointwise(has, has, cs, r);
  }

  /** With distinct identifiers a join adds at most one community to the joiner's
      count, and none to anybody else's. */
  lemma JoinCount(cs: seq<Community>, id: string, userId: string, other: string)
    requires DistinctIds(cs)
    ensures MembershipCount(JoinAt(cs, id, userId), userId) <= MembershipCount(cs, userId) + 1
    ensures other != userId ==>
              MembershipCount(JoinAt(cs, id, userId), other) == MembershipCount(cs, other)
  {
    JoinCountJoiner(cs, id, userId);
    if other != userId {
      JoinCountOthers(cs, id, userId, other);
    }
  }

  /** Joining a community one already belongs to does not change one's count:
      communities are counted, not occurrences. */
  lemma RejoinKeepsCount(cs: seq<Community>, id: string, userId: string)
    requires forall c :: c in cs && c.id == id ==> userId in c.members
    ensures MembershipCount(JoinAt(cs, id, userId), userId) == MembershipCount(cs, userId)
  {
    var r := JoinAt(cs, id, userId);
    forall i | 0 <= i < |cs| ensures HasMember(userId)(cs[i]) <==> HasMember(userId)(r[i]) {
      assert cs[i] in cs;
    }
    CountPointwise(HasMember(userId), HasMember(userId), cs, r);
  }

  /** Leaving can only lower the leaver's count, and leaves everyone else's as it was. */
  lemma LeaveCount(cs: seq<Community>, id: string, userId: string, other: string)
    ensures MembershipCount(LeaveAt(cs, id, userId), userId) <= MembershipCount(cs, userId)
    ensures other != userId ==>
              MembershipCount(LeaveAt(cs, id, userId), other) == MembershipCount(cs, other)
  {
    var r := LeaveAt(cs, id, userId);
    CountMonotone(HasMember(userId), HasMember(userId), cs, r);
    if other != userId {
      forall i | 0 <= i < |cs| ensures HasMember(other)(cs[i]) <==> HasMember(other)(r[i]) {
        if cs[i].id == id {
          var m := cs[i].members;
          assert other in m <==> multiset(m)[other] > 0;
          assert other in WithoutMember(m, userId) <==> multiset(WithoutMember(m, userId))[other] > 0;
        }
      }
      CountPointwise(HasMember(other), HasMember(other), cs, r);
    }
  }

  /** After `removeUserFromAllCommunities(userId)` the user belongs to nothing, and
      every other user's count is unchanged. */
  lemma LeaveAllCount(cs: seq<Community>, userId: string, other: string)
    ensures MembershipCount(LeaveAll(cs, userId), userId) == 0
    ensures other != userId ==>
              MembershipCount(LeaveAll(cs, userId), other) == MembershipCount(cs, other)
  {
    var r := LeaveAll(cs, userId);
    forall c | c in r ensures userId !in c.members {
      var i :| 0 <= i < |r| && r[i] == c;
    }
    if other != userId {
      forall i | 0 <= i < |cs| ensures HasMember(other)(cs[i]) <==> HasMember(other)(r[i]) {
        var m := cs[i].members;
        assert other in m <==> multiset(m)[other] > 0;
        assert other in WithoutMember(m, userId) <==> multiset(WithoutMember(m, userId))[other] > 0;
      }
      CountPointwise(HasMember(other), HasMember(other), cs, r);
    }
  }

  class CommunityStore {
    var communities: seq<Community>

    /** Identifiers are distinct and nobody belongs to more than five communities. */
    ghost predicate Valid()
      reads this
    {
      DistinctIds(communities) &&
      forall u :: MembershipCount(communities, u) <= MaxCommunitiesPerUser
    }

    constructor ()
      ensures Valid() && communities == []
    {
      communities := [];
    }

    /** `addCommunity`: one new community with no members, at the end. */
    method AddCommunity(name: string, description: string, category: string,
                        freshId: string, now: int)
      requires Valid()
      requires forall c :: c in communities ==> c.id != freshId
      modifies this
      ensures Valid()
      ensures communities == old(communities) + [NewCommunity(name, description, category, freshId, now)]
    {
      var c := NewCommunity(name, description, category, freshId, now);
      forall u ensures MembershipCount(communities + [c], u) == MembershipCount(communities, u) {
        CountAppend(HasMember(u), communities, [c]);
      }
      communities := communities + [c];
    }

    /** `joinCommunity(communityId, userId)`: refused, with nothing changed, once the
        user is in five communities; otherwise the join, which adds `userId` even to a
        community that already lists it. */
    method JoinCommunity(communityId: string, userId: string) returns (r: JoinOutcome)
      requires Valid()
      modifies this
      ensures Valid()
      ensures old(MembershipCount(communities, userId)) >= MaxCommunitiesPerUser ==>
                r == LimitReached && communities == old(communities)
      ensures old(MembershipCount(communities, userId)) < MaxCommunitiesPerUser ==>
                r == Joined && communities == JoinAt(old(communities), communityId, userId)
    {
      if GetUserCommunityCount(userId) >= MaxCommunitiesPerUser {
        return LimitReached;
      }
      var joined := JoinAt(communities, communityId, userId);
      forall u ensures MembershipCount(joined, u) <= MaxCommunitiesPerUser {
        JoinCount(communities, communityId, userId, u);
      }
      communities := joined;
      r := Joined;
    }

    /** `leaveCommunity(communityId, userId)`. */
    method LeaveCommunity(communityId: string, userId: string)
      requires Valid()
      modifies this
      ensures Valid()
      ensures communities == LeaveAt(old(communities), communityId, userId)
    {
      var left := LeaveAt(communities, communityId, userId);
      forall u ensures MembershipCount(left, u) <= MembershipCount(communities, u) {
        LeaveCount(communities, communityId, userId, u);
      }
      communities := left;
    }

    /** `getUserCommunityCount(userId)`. */
    function GetUserCommunityCount(userId: string): (n: nat)
      reads this
      ensures n == |Filter(HasMember(userId), communities)|
      ensures n <= |communities|
      ensures n == 0 <==> forall c :: c in communities ==> userId !in c.members
    {
      MembershipCount(communities, userId)
    }

    /** `removeUserFromAllCommunities(userId)`: the user leaves every community; the
        communities themselves, and their order, stay. */
    method RemoveUserFromAllCommunities(userId: string)
      requires Valid()
      modifies this
      ensures Valid()
      ensures communities == LeaveAll(old(communities), userId)
      ensures forall c :: c in communities ==> userId !in c.members
    {
      var left := LeaveAll(communities, userId);
      forall u ensures MembershipCount(left, u) <= MembershipCount(communities, u) {
        LeaveAllCount(communities, userId, u);
      }
      communities := left;
    }
  }
}
