/** UserGroupRepository: the queries over groups and memberships, and the
    row inserts and replacements the repository offers. A membership is live
    while its IsDeleted flag is clear. */
module UserGroupRepository {
  import opened Wrappers
  import opened Seqs
  import opened Domain
  import opened Store

  /** `m.UserId == userId && !m.IsDeleted`. */
  function LiveMembershipOf(userId: Guid): UserGroupMember -> bool {
    (m: UserGroupMember) => !m.isDeleted && m.userId == userId
  }

  function GroupIdOf(m: UserGroupMember): Guid { m.groupId }

  function UserIdOf(m: UserGroupMember): Guid { m.userId }

  /** `GetUserGroupIdsAsync`: the groups of the user's live memberships. */
  function UserGroupIds(members: seq<UserGroupMember>, userId: Guid): (r: seq<Guid>)
    ensures forall g :: g in r ==> exists m :: m in members && !m.isDeleted && m.userId == userId && m.groupId == g
    ensures forall m :: m in members && !m.isDeleted && m.userId == userId ==> m.groupId in r
  {
    var live := Filter(members, LiveMembershipOf(userId));
    var r := Map(live, GroupIdOf);
    assert forall g :: g in r ==> exists m :: m in members && !m.isDeleted && m.userId == userId && m.groupId == g by {
      forall g | g in r ensures exists m :: m in members && !m.isDeleted && m.userId == userId && m.groupId == g {
        var i :| 0 <= i < |r| && r[i] == g;
        assert live[i] in live;
      }
    }
    assert forall m :: m in members && !m.isDeleted && m.userId == userId ==> m.groupId in r by {
      forall m | m in members && !m.isDeleted && m.userId == userId ensures m.groupId in r {
        assert m in live;
        MapMember(live, GroupIdOf, m);
      }
    }
    r
  }

  /** `groupIds.Contains(m.GroupId) && !m.IsDeleted`. */
  function LiveMemberOfAny(groupIds: seq<Guid>): UserGroupMember -> bool {
    (m: UserGroupMember) => !m.isDeleted && m.groupId in groupIds
  }

  /** `GetGroupMemberUserIdsAsync`: each live member of the given groups, once. */
  function GroupMemberUserIds(members: seq<UserGroupMember>, groupIds: seq<Guid>): (r: seq<Guid>)
    ensures NoDuplicates(r)
    ensures forall u :: u in r ==> exists m :: m in members && !m.isDeleted && m.groupId in groupIds && m.userId == u
    ensures forall m :: m in members && !m.isDeleted && m.groupId in groupIds ==> m.userId in r
  {
    var live := Filter(members, LiveMemberOfAny(groupIds));
    var ids := Map(live, UserIdOf);
    var r := Distinct(ids);
    assert forall u :: u in r ==> exists m :: m in members && !m.isDeleted && m.groupId in groupIds && m.userId == u by {
      forall u | u in r ensures exists m :: m in members && !m.isDeleted && m.groupId in groupIds && m.userId == u {
        var i :| 0 <= i < |ids| && ids[i] == u;
        assert live[i] in live;
      }
    }
    assert forall m :: m in members && !m.isDeleted && m.groupId in groupIds ==> m.userId in r by {
      forall m | m in members && !m.isDeleted && m.groupId in groupIds ensures m.userId in r {
        assert m in live;
        MapMember(live, UserIdOf, m);
      }
    }
    r
  }

  /** `AreUsersInSameGroupAsync`: the two users' group-id lists intersect. */
  predicate AreUsersInSameGroup(members: seq<UserGroupMember>, a: Guid, b: Guid) {
    exists g :: g in UserGroupIds(members, a) && g in UserGroupIds(members, b)
  }

  /** Two live memberships, one for each user, in the same group. */
  predicate SharesLiveGroup(members: seq<UserGroupMember>, a: Guid, b: Guid) {
    exists m1, m2 :: m1 in members && m2 in members && !m1.isDeleted && !m2.isDeleted
      && m1.userId == a && m2.userId == b && m1.groupId == m2.groupId
  }

  /** The list intersection means a common group of two live memberships; so
      the relation is symmetric, and a user shares a group with themself
      exactly when they have a live membership at all. */
  lemma SameGroupMeaning(members: seq<UserGroupMember>, a: Guid, b: Guid)
    ensures AreUsersInSameGroup(members, a, b) <==> SharesLiveGroup(members, a, b)
    ensures AreUsersInSameGroup(members, a, b) <==> AreUsersInSameGroup(members, b, a)
    ensures AreUsersInSameGroup(members, a, a) <==> exists m :: m in members && !m.isDeleted && m.userId == a
  {
    if exists m :: m in members && !m.isDeleted && m.userId == a {
      var m :| m in members && !m.isDeleted && m.userId == a;
      assert m.groupId in UserGroupIds(members, a);
    }
    if SharesLiveGroup(members, a, b) {
      var m1, m2 :| m1 in members && m2 in members && !m1.isDeleted && !m2.isDeleted
        && m1.userId == a && m2.userId == b && m1.groupId == m2.groupId;
      assert m1.groupId in UserGroupIds(members, a) && m2.groupId in UserGroupIds(members, b);
    }
    if AreUsersInSameGroup(members, a, b) {
      var g :| g in UserGroupIds(members, a) && g in UserGroupIds(members, b);
    }
  }

  /** The row `GetMembershipAsync` and `IsMemberAsync` look for. */
  function MembershipRow(groupId: Guid, userId: Guid): UserGroupMember -> bool {
    (m: UserGroupMember) => m.groupId == groupId && m.userId == userId && !m.isDeleted
  }

  /** `IsMemberAsync`. */
  predicate IsMember(members: seq<UserGroupMember>, groupId: Guid, userId: Guid) {
    exists m :: m in members && m.groupId == groupId && m.userId == userId && !m.isDeleted
  }

  /** `GetMembershipAsync`: the live membership of the user in the group. */
  function Membership(members: seq<UserGroupMember>, groupId: Guid, userId: Guid): (r: Option<UserGroupMember>)
    ensures r.Some? <==> IsMember(members, groupId, userId)
    ensures r.Some? ==> r.value in members && r.value.groupId == groupId && r.value.userId == userId && !r.value.isDeleted
  {
    First(members, MembershipRow(groupId, userId))
  }

  /** `GetGroupMembersAsync`: the live members of the group. */
  function GroupMembers(members: seq<UserGroupMember>, groupId: Guid): (r: seq<UserGroupMember>)
    ensures forall m :: m in r <==> m in members && m.groupId == groupId && !m.isDeleted
  {
    Filter(members, (m: UserGroupMember) => m.groupId == groupId && !m.isDeleted)
  }

  /** The row `GetGroupByIdAsync(groupId)` looks for. */
  function LiveGroup(groupId: Guid): UserGroup -> bool {
    (g: UserGroup) => g.id == groupId && !g.isDeleted
  }

  /** `GetGroupByIdAsync`: the live group with that id. */
  function GroupById(groups: seq<UserGroup>, groupId: Guid): (r: Option<UserGroup>)
    ensures r.Some? ==> r.value in groups && r.value.id == groupId && !r.value.isDeleted
    ensures r.None? <==> forall g :: g in groups ==> g.id != groupId || g.isDeleted
  {
    First(groups, LiveGroup(groupId))
  }

  /** `GetGroupByInviteCodeAsync`: a live group whose code is exactly the one given. */
  function GroupByInviteCode(groups: seq<UserGroup>, inviteCode: string): (r: Option<UserGroup>)
    ensures r.Some? ==> r.value in groups && r.value.inviteCode == inviteCode && !r.value.isDeleted
    ensures r.None? <==> forall g :: g in groups ==> g.inviteCode != inviteCode || g.isDeleted
  {
    First(groups, (g: UserGroup) => g.inviteCode == inviteCode && !g.isDeleted)
  }

  /** `GetUserGroupsWithMembersAsync`: the live groups the user is a live member of. */
  function UserGroupsWithMembers(groups: seq<UserGroup>, members: seq<UserGroupMember>, userId: Guid): (r: seq<UserGroup>)
    ensures forall g :: g in r ==> g in groups && !g.isDeleted && IsMember(members, g.id, userId)
    ensures forall g :: g in groups && !g.isDeleted && IsMember(members, g.id, userId) ==> g in r
  {
    Filter(groups, (g: UserGroup) => !g.isDeleted && IsMember(members, g.id, userId))
  }

  /** `GetGroupByIdWithMembersAsync`: the group, if it is live and the user is
      a live member of it. */
  function GroupByIdWithMembers(groups: seq<UserGroup>, members: seq<UserGroupMember>, groupId: Guid, userId: Guid)
    : (r: Option<UserGroup>)
    ensures r.Some? ==> r.value in groups && r.value.id == groupId && !r.value.isDeleted && IsMember(members, groupId, userId)
    ensures r.None? <==>
      forall g :: g in groups ==> g.id != groupId || g.isDeleted || !IsMember(members, groupId, userId)
  {
    First(groups, (g: UserGroup) => g.id == groupId && !g.isDeleted && IsMember(members, g.id, userId))
  }

  /** `AddAsync`. */
  method AddGroup(db: FinanceDb, group: UserGroup) returns (r: UserGroup)
    modifies db`groups
    ensures db.groups == old(db.groups) + [group] && r == group
  {
    db.groups := db.groups + [group];
    r := group;
  }

  /** `UpdateAsync`: the stored row with the group's id is replaced. */
  method UpdateGroup(db: FinanceDb, group: UserGroup)
    requires exists i :: 0 <= i < |db.groups| && db.groups[i].id == group.id
    modifies db`groups
    ensures var i := IndexWhere(old(db.groups), (g: UserGroup) => g.id == group.id).value;
      db.groups == old(db.groups)[i := group]
  {
    var k := IndexWhere(db.groups, (g: UserGroup) => g.id == group.id);
    db.groups := db.groups[k.value := group];
  }

  /** `AddMemberAsync`. */
  method AddMember(db: FinanceDb, member: UserGroupMember) returns (r: UserGroupMember)
    modifies db`members
    ensures db.members == old(db.members) + [member] && r == member
  {
    db.members := db.members + [member];
    r := member;
  }

  /** `UpdateMemberAsync`: the stored row with the membership's id is replaced. */
  method UpdateMember(db: FinanceDb, member: UserGroupMember)
    requires exists i :: 0 <= i < |db.members| && db.members[i].id == member.id
    modifies db`members
    ensures var i := IndexWhere(old(db.members), (m: UserGroupMember) => m.id == member.id).value;
      db.members == old(db.members)[i := member]
  {
    var k := IndexWhere(db.members, (m: UserGroupMember) => m.id == member.id);
    db.members := db.members[k.value := member];
  }
}
