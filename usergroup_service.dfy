/** UserGroupService: family groups (create, edit, delete, join by invite
    code, leave, remove a member), the scope resolver that turns a view
    context into the list of users whose data may be shown, and the sharing
    of goals among members of the owner's groups. Every read of groups and
    memberships sees live rows only, as the global query filters arrange. */
module UserGroupService {
  import opened Wrappers
  import opened Seqs
  import opened Domain
  import opened Store
  import opened UserGroupRepository
  import opened GoalRepository

  // ----- DTOs -----

  /** `GroupMemberDto` without the user's name, e-mail and join date. */
  datatype GroupMemberDto = GroupMemberDto(id: Guid, userId: Guid, role: GroupRole)

  /** `UserGroupDto` without the creator's name and the creation date. */
  datatype UserGroupDto = UserGroupDto(
    id: Guid, name: string, description: Option<string>, inviteCode: string,
    createdByUserId: Guid, memberCount: int, members: seq<GroupMemberDto>)

  datatype CreateUserGroupDto = CreateUserGroupDto(name: string, description: Option<string>)
  datatype UpdateUserGroupDto = UpdateUserGroupDto(name: string, description: Option<string>)

  /** `GoalUserDto` without the user's name and the date the row was added. */
  datatype GoalUserDto = GoalUserDto(userId: Guid, isOwner: bool)

  function MemberDtoOf(m: UserGroupMember): (d: GroupMemberDto)
    ensures d.id == m.id && d.userId == m.userId && d.role == m.role
  {
    GroupMemberDto(m.id, m.userId, m.role)
  }

  function GoalUserDtoOf(gu: GoalUser): (d: GoalUserDto)
    ensures d.userId == gu.userId && d.isOwner == gu.isOwner
  {
    GoalUserDto(gu.userId, gu.isOwner)
  }

  /** The mapping of a group with its live members. */
  function GroupDtoOf(members: seq<UserGroupMember>, g: UserGroup): (d: UserGroupDto)
    ensures d.id == g.id && d.name == g.name && d.description == g.description
    ensures d.inviteCode == g.inviteCode && d.createdByUserId == g.createdByUserId
    ensures d.memberCount == |d.members|
    ensures forall m :: m in members && m.groupId == g.id && !m.isDeleted ==> MemberDtoOf(m) in d.members
    ensures forall x :: x in d.members ==> exists m :: m in members && m.groupId == g.id && !m.isDeleted && x == MemberDtoOf(m)
  {
    var live := GroupMembers(members, g.id);
    var dtos := Map(live, MemberDtoOf);
    assert forall m :: m in members && m.groupId == g.id && !m.isDeleted ==> MemberDtoOf(m) in dtos by {
      forall m | m in members && m.groupId == g.id && !m.isDeleted ensures MemberDtoOf(m) in dtos {
        MapMember(live, MemberDtoOf, m);
      }
    }
    assert forall x :: x in dtos ==> exists m :: m in members && m.groupId == g.id && !m.isDeleted && x == MemberDtoOf(m) by {
      forall x | x in dtos ensures exists m :: m in members && m.groupId == g.id && !m.isDeleted && x == MemberDtoOf(m) {
        var i :| 0 <= i < |dtos| && dtos[i] == x;
        assert live[i] in live;
      }
    }
    UserGroupDto(g.id, g.name, g.description, g.inviteCode, g.createdByUserId, |dtos|, dtos)
  }

  // ----- Scope -----

  /** `GetAccessibleUserIdsAsync`: Own is the user alone; Member is the one
      member named, if the two users share a group; All is every live member
      of the user's groups, or the user alone when they belong to none. */
  function AccessibleUserIds(members: seq<UserGroupMember>, userId: Guid, context: ViewContext, memberUserId: Option<Guid>)
    : (r: Result<seq<Guid>>)
    ensures r.Err? ==> context.Member?
  {
    match context
    case Own => Ok([userId])
    case Member =>
      if memberUserId.None? then Err(InvalidArgument)
      else if AreUsersInSameGroup(members, userId, memberUserId.value) then Ok([memberUserId.value])
      else Err(Unauthorized)
    case All =>
      var groupIds := UserGroupIds(members, userId);
      if groupIds == [] then Ok([userId]) else Ok(GroupMemberUserIds(members, groupIds))
  }

  /** What each view context lets the user see, stated through memberships:
      the All scope is the user and everyone who shares a live group with
      them, each once. */
  lemma AccessibleUserIdsMeaning(members: seq<UserGroupMember>, userId: Guid, context: ViewContext, memberUserId: Option<Guid>)
    ensures var r := AccessibleUserIds(members, userId, context, memberUserId);
      && (context.Own? ==> r == Ok([userId]))
      && (context.Member? ==> (r.Ok? <==> memberUserId.Some? && SharesLiveGroup(members, userId, memberUserId.value)))
      && (context.Member? && r.Ok? ==> r.value == [memberUserId.value])
      && (context.Member? && r.Err? ==> r.error == if memberUserId.None? then InvalidArgument else Unauthorized)
      && (r.Ok? ==> r.value != [] && NoDuplicates(r.value))
  {
    if context.Member? && memberUserId.Some? {
      SameGroupMeaning(members, userId, memberUserId.value);
    }
    if context.All? {
      AllScopeMeaning(members, userId);
    }
  }

  lemma AllScopeMeaning(members: seq<UserGroupMember>, userId: Guid)
    ensures var r := AccessibleUserIds(members, userId, All, None);
      r.Ok? && userId in r.value && NoDuplicates(r.value)
      && forall x :: x in r.value <==> x == userId || SharesLiveGroup(members, userId, x)
  {
    var groupIds := UserGroupIds(members, userId);
    var r := AccessibleUserIds(members, userId, All, None);
    if groupIds != [] {
      var ids := GroupMemberUserIds(members, groupIds);
      assert r.value == ids;
      assert groupIds[0] in groupIds;
      var own :| own in members && !own.isDeleted && own.userId == userId && own.groupId == groupIds[0];
      assert userId in ids;
      forall x ensures x in ids <==> x == userId || SharesLiveGroup(members, userId, x) {
        if x in ids {
          var m :| m in members && !m.isDeleted && m.groupId in groupIds && m.userId == x;
          var m1 :| m1 in members && !m1.isDeleted && m1.userId == userId && m1.groupId == m.groupId;
        }
        if SharesLiveGroup(members, userId, x) {
          var m1, m2 :| m1 in members && m2 in members && !m1.isDeleted && !m2.isDeleted
            && m1.userId == userId && m2.userId == x && m1.groupId == m2.groupId;
          assert m1.groupId in groupIds;
        }
      }
    }
  }

  /** The Member view of one's own id works only for users in some live group. */
  lemma MemberScopeOfSelf(members: seq<UserGroupMember>, userId: Guid)
    ensures AccessibleUserIds(members, userId, ViewContext.Member, Some(userId)).Ok? <==>
      exists m :: m in members && !m.isDeleted && m.userId == userId
  {
    SameGroupMeaning(members, userId, userId);
  }

  // ----- Invite codes -----

  /** The characters `GenerateInviteCode` draws from, and how many it draws. */
  const InviteAlphabet: string := "ABCDEFGHIJKLMNOPQRSTUVWXYZ0123456789"
  const InviteCodeLength: nat := 8

  /** A code of the generated shape: eight upper-case ASCII letters or digits. */
  predicate IsInviteCode(s: string) {
    |s| == InviteCodeLength && forall i :: 0 <= i < |s| ==> ('A' <= s[i] <= 'Z' || '0' <= s[i] <= '9')
  }

  /** A draw of `Random.Next(36)` for each of the eight positions. */
  predicate ValidPicks(picks: seq<nat>) {
    |picks| == InviteCodeLength && forall i :: 0 <= i < |picks| ==> picks[i] < |InviteAlphabet|
  }

  /** The alphabet in closed form: the letters A to Z, then the digits 0 to 9. */
  function AlphabetChar(k: nat): char
    requires k < 36
  {
    if k < 26 then ('A' as int + k) as char else ('0' as int + (k - 26)) as char
  }

  lemma AlphabetIndex()
    ensures |InviteAlphabet| == 36
    ensures forall k :: 0 <= k < 36 ==> InviteAlphabet[k] == AlphabetChar(k)
  {
  }

  /** `GenerateInviteCode`, with the random draws as a parameter. */
  function InviteCodeFrom(picks: seq<nat>): (code: string)
    requires ValidPicks(picks)
    ensures IsInviteCode(code)
  {
    AlphabetIndex();
    seq(InviteCodeLength, i requires 0 <= i < InviteCodeLength => InviteAlphabet[picks[i]])
  }

  /** The draws that yield a given code. */
  function PicksOf(code: string): (picks: seq<nat>)
    requires IsInviteCode(code)
    ensures ValidPicks(picks)
  {
    AlphabetIndex();
    seq(InviteCodeLength, i requires 0 <= i < InviteCodeLength =>
      if 'A' <= code[i] <= 'Z' then code[i] as nat - 'A' as nat else 26 + code[i] as nat - '0' as nat)
  }

  /** Every code of the generated shape can be drawn, and by exactly one
      sequence of draws. */
  lemma InviteCodeRoundTrip(code: string, picks: seq<nat>)
    requires IsInviteCode(code) && ValidPicks(picks)
    ensures InviteCodeFrom(PicksOf(code)) == code
    ensures PicksOf(InviteCodeFrom(picks)) == picks
  {
    AlphabetIndex();
    var p := PicksOf(code);
    forall i | 0 <= i < InviteCodeLength ensures InviteCodeFrom(p)[i] == code[i] {
      assert InviteAlphabet[p[i]] == AlphabetChar(p[i]);
    }
    var c := InviteCodeFrom(picks);
    forall i | 0 <= i < InviteCodeLength ensures PicksOf(c)[i] == picks[i] {
      assert c[i] == AlphabetChar(picks[i]);
    }
  }

  // ----- Group queries -----

  function GroupMapping(members: seq<UserGroupMember>): UserGroup -> UserGroupDto {
    (g: UserGroup) => GroupDtoOf(members, g)
  }

  /** `GetUserGroupsAsync`: the live groups the user is a live member of. */
  function GetUserGroups(groups: seq<UserGroup>, members: seq<UserGroupMember>, userId: Guid): (r: seq<UserGroupDto>)
    ensures |r| == |UserGroupsWithMembers(groups, members, userId)|
    ensures forall d :: d in r ==> exists g :: g in groups && !g.isDeleted && IsMember(members, g.id, userId) && d == GroupDtoOf(members, g)
    ensures forall g :: g in groups && !g.isDeleted && IsMember(members, g.id, userId) ==> GroupDtoOf(members, g) in r
  {
    var gs := UserGroupsWithMembers(groups, members, userId);
    var r := Map(gs, GroupMapping(members));
    assert forall d :: d in r ==> exists g :: g in groups && !g.isDeleted && IsMember(members, g.id, userId) && d == GroupDtoOf(members, g) by {
      forall d | d in r ensures exists g :: g in groups && !g.isDeleted && IsMember(members, g.id, userId) && d == GroupDtoOf(members, g) {
        var i :| 0 <= i < |r| && r[i] == d;
        assert gs[i] in gs;
      }
    }
    assert forall g :: g in groups && !g.isDeleted && IsMember(members, g.id, userId) ==> GroupDtoOf(members, g) in r by {
      forall g | g in groups && !g.isDeleted && IsMember(members, g.id, userId) ensures GroupDtoOf(members, g) in r {
        MapMember(gs, GroupMapping(members), g);
      }
    }
    r
  }

  /** `GetGroupByIdAsync`: the group, for a live member of it. */
  function GetGroupById(groups: seq<UserGroup>, members: seq<UserGroupMember>, groupId: Guid, userId: Guid)
    : (r: Option<UserGroupDto>)
    ensures r.Some? <==> IsMember(members, groupId, userId) && exists g :: g in groups && g.id == groupId && !g.isDeleted
    ensures r.Some? ==> exists g :: g in groups && g.id == groupId && !g.isDeleted && r.value == GroupDtoOf(members, g)
  {
    match GroupByIdWithMembers(groups, members, groupId, userId)
    case None => None
    case Some(g) => Some(GroupDtoOf(members, g))
  }

  /** `GetGroupMembersAsync`: only a live member may list the group's live members. */
  function GetGroupMembers(members: seq<UserGroupMember>, groupId: Guid, userId: Guid): (r: Result<seq<GroupMemberDto>>)
    ensures r.Err? <==> !IsMember(members, groupId, userId)
    ensures r.Err? ==> r.error == Unauthorized
    ensures r.Ok? ==> forall m :: m in members && m.groupId == groupId && !m.isDeleted ==> MemberDtoOf(m) in r.value
    ensures r.Ok? ==> forall x :: x in r.value ==> exists m :: m in members && m.groupId == groupId && !m.isDeleted && x == MemberDtoOf(m)
  {
    if !IsMember(members, groupId, userId) then Err(Unauthorized)
    else
      var live := GroupMembers(members, groupId);
      var dtos := Map(live, MemberDtoOf);
      assert forall m :: m in members && m.groupId == groupId && !m.isDeleted ==> MemberDtoOf(m) in dtos by {
        forall m | m in members && m.groupId == groupId && !m.isDeleted ensures MemberDtoOf(m) in dtos {
          MapMember(live, MemberDtoOf, m);
        }
      }
      assert forall x :: x in dtos ==> exists m :: m in members && m.groupId == groupId && !m.isDeleted && x == MemberDtoOf(m) by {
        forall x | x in dtos ensures exists m :: m in members && m.groupId == groupId && !m.isDeleted && x == MemberDtoOf(m) {
          var i :| 0 <= i < |dtos| && dtos[i] == x;
          assert live[i] in live;
        }
      }
      Ok(dtos)
  }

  // ----- Invariants of the membership table -----

  /** The unique index on (GroupId, UserId), over live rows. */
  predicate UniqueLiveMemberships(members: seq<UserGroupMember>) {
    forall i, j :: 0 <= i < j < |members| && !members[i].isDeleted && !members[j].isDeleted ==>
      members[i].groupId != members[j].groupId || members[i].userId != members[j].userId
  }

  /** Some membership row of the user in the group, live or soft-deleted,
      holds the key of the unique index on (GroupId, UserId). */
  predicate MembershipKeyTaken(members: seq<UserGroupMember>, groupId: Guid, userId: Guid) {
    exists m :: m in members && m.groupId == groupId && m.userId == userId
  }

  /** Every live group keeps a live owner: the owner cannot leave or be removed. */
  predicate GroupsHaveOwners(groups: seq<UserGroup>, members: seq<UserGroupMember>) {
    forall g :: g in groups && !g.isDeleted ==> HasLiveOwner(members, g.id)
  }

  predicate HasLiveOwner(members: seq<UserGroupMember>, groupId: Guid) {
    exists m :: m in members && !m.isDeleted && m.groupId == groupId && m.role == Owner
  }

  /** The check `membership == null || membership.Role != GroupRole.Owner` fails. */
  predicate IsGroupOwner(members: seq<UserGroupMember>, groupId: Guid, userId: Guid) {
    var m := Membership(members, groupId, userId);
    m.Some? && m.value.role == Owner
  }

  /** With one live membership per key, the owner check looks at the user's
      only live row in the group. */
  lemma IsGroupOwnerMeaning(members: seq<UserGroupMember>, groupId: Guid, userId: Guid)
    requires UniqueLiveMemberships(members)
    ensures IsGroupOwner(members, groupId, userId) <==>
      exists m :: m in members && !m.isDeleted && m.groupId == groupId && m.userId == userId && m.role == Owner
  {
    var found := Membership(members, groupId, userId);
    if exists m :: m in members && !m.isDeleted && m.groupId == groupId && m.userId == userId && m.role == Owner {
      var m :| m in members && !m.isDeleted && m.groupId == groupId && m.userId == userId && m.role == Owner;
      var i :| 0 <= i < |members| && members[i] == m;
      var j :| 0 <= j < |members| && members[j] == found.value;
      assert i == j;
    }
  }

  /** Setting the flag on a row that is not an owner's keeps both invariants,
      and the user of that row is no longer a member of its group. */
  lemma SoftDeleteMember(groups: seq<UserGroup>, members: seq<UserGroupMember>, k: nat)
    requires k < |members| && members[k].role != Owner
    ensures var after := members[k := members[k].(isDeleted := true)];
      && (UniqueLiveMemberships(members) ==> UniqueLiveMemberships(after))
      && (GroupsHaveOwners(groups, members) ==> GroupsHaveOwners(groups, after))
      && (UniqueLiveMemberships(members) && !members[k].isDeleted ==>
            !IsMember(after, members[k].groupId, members[k].userId))
  {
    var after := members[k := members[k].(isDeleted := true)];
    if GroupsHaveOwners(groups, members) {
      forall g | g in groups && !g.isDeleted ensures HasLiveOwner(after, g.id) {
        var m :| m in members && !m.isDeleted && m.groupId == g.id && m.role == Owner;
        var j :| 0 <= j < |members| && members[j] == m;
        assert after[j] == m;
      }
    }
    if UniqueLiveMemberships(members) && !members[k].isDeleted {
      forall m | m in after && m.groupId == members[k].groupId && m.userId == members[k].userId
        ensures m.isDeleted
      {
        var j :| 0 <= j < |after| && after[j] == m;
        if j != k {
          assert members[j] == m;
        }
      }
    }
  }

  /** Adding a live membership for a user who is not yet a live member of the
      group keeps both invariants. */
  lemma AddMembership(groups: seq<UserGroup>, members: seq<UserGroupMember>, m: UserGroupMember)
    requires !IsMember(members, m.groupId, m.userId)
    ensures UniqueLiveMemberships(members) ==> UniqueLiveMemberships(members + [m])
    ensures GroupsHaveOwners(groups, members) ==> GroupsHaveOwners(groups, members + [m])
  {
    var after := members + [m];
    if UniqueLiveMemberships(members) {
      forall i, j | 0 <= i < j < |after| && !after[i].isDeleted && !after[j].isDeleted
        ensures after[i].groupId != after[j].groupId || after[i].userId != after[j].userId
      {
        if j == |members| {
          assert after[i] in members;
        }
      }
    }
    if GroupsHaveOwners(groups, members) {
      forall g | g in groups && !g.isDeleted ensures HasLiveOwner(after, g.id) {
        var o :| o in members && !o.isDeleted && o.groupId == g.id && o.role == Owner;
        assert o in after;
      }
    }
  }

  /** Replacing a group row by one with the same id, or by a deleted one,
      keeps every live group owned. */
  lemma EditGroupRow(groups: seq<UserGroup>, members: seq<UserGroupMember>, k: nat, g2: UserGroup)
    requires k < |groups| && ((g2.id == groups[k].id && !groups[k].isDeleted) || g2.isDeleted)
    requires GroupsHaveOwners(groups, members)
    ensures GroupsHaveOwners(groups[k := g2], members)
  {
    forall g | g in groups[k := g2] && !g.isDeleted ensures HasLiveOwner(members, g.id) {
      var j :| 0 <= j < |groups[k := g2]| && groups[k := g2][j] == g;
      if j != k {
        assert g in groups;
      } else {
        assert groups[k] in groups;
      }
    }
  }

  // ----- Group commands -----

  /** A member of a group created with a fresh id is the only one. */
  lemma OnlyMemberOfFreshGroup(members: seq<UserGroupMember>, m: UserGroupMember)
    requires forall x :: x in members ==> x.groupId != m.groupId
    requires !m.isDeleted
    ensures GroupMembers(members + [m], m.groupId) == [m]
  {
    var p := (x: UserGroupMember) => x.groupId == m.groupId && !x.isDeleted;
    FilterSnoc(members, m, p);
    FilterNone(members, p);
  }

  /** A group just added with a fresh id, with its creator as its only
      member, is what the read-back for the creator returns. */
  lemma FreshGroupView(groups: seq<UserGroup>, members: seq<UserGroupMember>, group: UserGroup, member: UserGroupMember)
    requires forall g :: g in groups ==> g.id != group.id
    requires !group.isDeleted && !member.isDeleted && member.groupId == group.id
    ensures GetGroupById(groups + [group], members + [member], group.id, member.userId) == Some(GroupDtoOf(members + [member], group))
  {
    assert member in members + [member];
    assert group in groups + [group];
    var found := GroupByIdWithMembers(groups + [group], members + [member], group.id, member.userId);
    assert found.value == group;
  }

  /** Its only member is the creator. */
  lemma FreshGroupMembers(members: seq<UserGroupMember>, group: UserGroup, member: UserGroupMember)
    requires forall m :: m in members ==> m.groupId != group.id
    requires !member.isDeleted && member.groupId == group.id
    ensures GroupDtoOf(members + [member], group).members == [MemberDtoOf(member)]
  {
    OnlyMemberOfFreshGroup(members, member);
  }

  /** `CreateGroupAsync`: the group, with a fresh id and a drawn invite code
      not used by any other group, and its creator as the owner. The group is
      read back for the creator, which always finds it. */
  method CreateGroup(db: FinanceDb, dto: CreateUserGroupDto, userId: Guid, groupId: Guid, memberId: Guid, picks: seq<nat>)
    returns (r: UserGroupDto)
    requires ValidPicks(picks)
    requires forall g :: g in db.groups ==> g.id != groupId && g.inviteCode != InviteCodeFrom(picks)
    requires forall m :: m in db.members ==> m.id != memberId && m.groupId != groupId
    modifies db`groups, db`members
    ensures db.groups == old(db.groups) + [UserGroup(groupId, dto.name, dto.description, userId, InviteCodeFrom(picks), false)]
    ensures db.members == old(db.members) + [UserGroupMember(memberId, groupId, userId, Owner, false)]
    ensures GetGroupById(db.groups, db.members, groupId, userId) == Some(r)
    ensures IsInviteCode(r.inviteCode) && r.createdByUserId == userId
    ensures r.members == [GroupMemberDto(memberId, userId, Owner)] && r.memberCount == 1
    ensures UniqueLiveMemberships(old(db.members)) ==> UniqueLiveMemberships(db.members)
    ensures GroupsHaveOwners(old(db.groups), old(db.members)) ==> GroupsHaveOwners(db.groups, db.members)
  {
    var group := UserGroup(groupId, dto.name, dto.description, userId, InviteCodeFrom(picks), false);
    var member := UserGroupMember(memberId, groupId, userId, Owner, false);
    AddMembership(db.groups, db.members, member);
    FreshGroupView(db.groups, db.members, group, member);
    FreshGroupMembers(db.members, group, member);
    db.groups := db.groups + [group];
    db.members := db.members + [member];
    var view := GetGroupById(db.groups, db.members, groupId, userId);
    r := view.value;
  }

  /** `UpdateGroupAsync`: renames the live group, for its owner. */
  method UpdateGroup(db: FinanceDb, groupId: Guid, dto: UpdateUserGroupDto, userId: Guid) returns (r: Result<UserGroupDto>)
    modifies db`groups
    ensures var k := IndexWhere(old(db.groups), LiveGroup(groupId));
      if k.None? then r == Err(NotFound) && db.groups == old(db.groups)
      else if !IsGroupOwner(db.members, groupId, userId) then r == Err(Unauthorized) && db.groups == old(db.groups)
      else (db.groups == old(db.groups)[k.value := old(db.groups)[k.value].(name := dto.name, description := dto.description)]
            && r.Ok? && GetGroupById(db.groups, db.members, groupId, userId) == Some(r.value))
    ensures GroupsHaveOwners(old(db.groups), db.members) ==> GroupsHaveOwners(db.groups, db.members)
  {
    var k := IndexWhere(db.groups, LiveGroup(groupId));
    if k.None? {
      return Err(NotFound);
    }
    if !IsGroupOwner(db.members, groupId, userId) {
      return Err(Unauthorized);
    }
    var edited := db.groups[k.value].(name := dto.name, description := dto.description);
    if GroupsHaveOwners(db.groups, db.members) {
      EditGroupRow(db.groups, db.members, k.value, edited);
    }
    db.groups := db.groups[k.value := edited];
    assert db.groups[k.value] in db.groups;
    var view := GetGroupById(db.groups, db.members, groupId, userId);
    r := Ok(view.value);
  }

  /** `DeleteGroupAsync`: a soft delete of the live group, for its owner. */
  method DeleteGroup(db: FinanceDb, groupId: Guid, userId: Guid) returns (r: Outcome)
    modifies db`groups
    ensures var k := IndexWhere(old(db.groups), LiveGroup(groupId));
      if k.None? then r == Fail(NotFound) && db.groups == old(db.groups)
      else if !IsGroupOwner(db.members, groupId, userId) then r == Fail(Unauthorized) && db.groups == old(db.groups)
      else r == Pass && db.groups == old(db.groups)[k.value := old(db.groups)[k.value].(isDeleted := true)]
    ensures GroupsHaveOwners(old(db.groups), db.members) ==> GroupsHaveOwners(db.groups, db.members)
  {
    var k := IndexWhere(db.groups, LiveGroup(groupId));
    if k.None? {
      return Fail(NotFound);
    }
    if !IsGroupOwner(db.members, groupId, userId) {
      return Fail(Unauthorized);
    }
    var deleted := db.groups[k.value].(isDeleted := true);
    if GroupsHaveOwners(db.groups, db.members) {
      EditGroupRow(db.groups, db.members, k.value, deleted);
    }
    db.groups := db.groups[k.value := deleted];
    r := Pass;
  }

  /** `RegenerateInviteCodeAsync`: a new drawn code for the live group, for its owner. */
  method RegenerateInviteCode(db: FinanceDb, groupId: Guid, userId: Guid, picks: seq<nat>) returns (r: Result<string>)
    requires ValidPicks(picks)
    requires forall g :: g in db.groups ==> g.inviteCode != InviteCodeFrom(picks)
    modifies db`groups
    ensures var k := IndexWhere(old(db.groups), LiveGroup(groupId));
      if k.None? then r == Err(NotFound) && db.groups == old(db.groups)
      else if !IsGroupOwner(db.members, groupId, userId) then r == Err(Unauthorized) && db.groups == old(db.groups)
      else (db.groups == old(db.groups)[k.value := old(db.groups)[k.value].(inviteCode := InviteCodeFrom(picks))]
            && r == Ok(InviteCodeFrom(picks)))
    ensures r.Ok? ==> IsInviteCode(r.value) && forall g :: g in old(db.groups) ==> g.inviteCode != r.value
    ensures GroupsHaveOwners(old(db.groups), db.members) ==> GroupsHaveOwners(db.groups, db.members)
  {
    var k := IndexWhere(db.groups, LiveGroup(groupId));
    if k.None? {
      return Err(NotFound);
    }
    if !IsGroupOwner(db.members, groupId, userId) {
      return Err(Unauthorized);
    }
    var code := InviteCodeFrom(picks);
    var edited := db.groups[k.value].(inviteCode := code);
    if GroupsHaveOwners(db.groups, db.members) {
      EditGroupRow(db.groups, db.members, k.value, edited);
    }
    db.groups := db.groups[k.value := edited];
    r := Ok(code);
  }

  /** `JoinGroupAsync`: a user who is not yet a live member joins the live
      group with that exact invite code as a plain member, and gets the group
      re-read for them. A user who left keeps a soft-deleted row, which the
      membership check skips but the unique index does not, so their
      re-joining fails at `SaveChanges`. */
  method JoinGroup(db: FinanceDb, inviteCode: string, userId: Guid, memberId: Guid) returns (r: Result<UserGroupDto>)
    requires forall m :: m in db.members ==> m.id != memberId
    modifies db`members
    ensures match GroupByInviteCode(db.groups, inviteCode)
      case None => r == Err(NotFound) && db.members == old(db.members)
      case Some(g) =>
        if IsMember(old(db.members), g.id, userId) then r == Err(InvalidOperation) && db.members == old(db.members)
        else if MembershipKeyTaken(old(db.members), g.id, userId) then r == Err(Conflict) && db.members == old(db.members)
        else (db.members == old(db.members) + [UserGroupMember(memberId, g.id, userId, GroupRole.Member, false)]
              && r.Ok? && GetGroupById(db.groups, db.members, g.id, userId) == Some(r.value)
              && r.value.id == g.id && GroupMemberDto(memberId, userId, GroupRole.Member) in r.value.members)
    ensures UniqueLiveMemberships(old(db.members)) ==> UniqueLiveMemberships(db.members)
    ensures GroupsHaveOwners(db.groups, old(db.members)) ==> GroupsHaveOwners(db.groups, db.members)
  {
    var found := GroupByInviteCode(db.groups, inviteCode);
    if found.None? {
      return Err(NotFound);
    }
    var group := found.value;
    if IsMember(db.members, group.id, userId) {
      return Err(InvalidOperation);
    }
    if MembershipKeyTaken(db.members, group.id, userId) {
      return Err(Conflict);
    }
    var member := UserGroupMember(memberId, group.id, userId, GroupRole.Member, false);
    AddMembership(db.groups, db.members, member);
    db.members := db.members + [member];
    assert member in db.members;
    var view := GetGroupById(db.groups, db.members, group.id, userId);
    var g :| g in db.groups && g.id == group.id && !g.isDeleted && view.value == GroupDtoOf(db.members, g);
    assert MemberDtoOf(member) in view.value.members;
    r := Ok(view.value);
  }

  /** A membership ended by a soft delete still holds its index key, so the
      user's next `JoinGroup` for that group meets `Conflict`. */
  lemma LeftKeyStaysTaken(members: seq<UserGroupMember>, k: nat)
    requires k < |members|
    ensures var m := members[k];
      MembershipKeyTaken(members[k := m.(isDeleted := true)], m.groupId, m.userId)
  {
    var m := members[k];
    assert members[k := m.(isDeleted := true)][k] == m.(isDeleted := true);
  }

  /** `LeaveGroupAsync`: a plain member leaves; the owner may not. */
  method LeaveGroup(db: FinanceDb, groupId: Guid, userId: Guid) returns (r: Outcome)
    modifies db`members
    ensures var k := IndexWhere(old(db.members), MembershipRow(groupId, userId));
      if k.None? then r == Fail(NotFound) && db.members == old(db.members)
      else if old(db.members)[k.value].role == Owner then r == Fail(InvalidOperation) && db.members == old(db.members)
      else r == Pass && db.members == old(db.members)[k.value := old(db.members)[k.value].(isDeleted := true)]
    ensures r.Pass? && UniqueLiveMemberships(old(db.members)) ==> !IsMember(db.members, groupId, userId)
    ensures UniqueLiveMemberships(old(db.members)) ==> UniqueLiveMemberships(db.members)
    ensures GroupsHaveOwners(db.groups, old(db.members)) ==> GroupsHaveOwners(db.groups, db.members)
  {
    var k := IndexWhere(db.members, MembershipRow(groupId, userId));
    if k.None? {
      return Fail(NotFound);
    }
    if db.members[k.value].role == Owner {
      return Fail(InvalidOperation);
    }
    SoftDeleteMember(db.groups, db.members, k.value);
    db.members := db.members[k.value := db.members[k.value].(isDeleted := true)];
    r := Pass;
  }

  /** `RemoveMemberAsync`: the group's owner removes a plain member. */
  method RemoveMember(db: FinanceDb, groupId: Guid, memberUserId: Guid, requestingUserId: Guid) returns (r: Outcome)
    modifies db`members
    ensures var k := IndexWhere(old(db.members), MembershipRow(groupId, memberUserId));
      if !IsGroupOwner(old(db.members), groupId, requestingUserId) then r == Fail(Unauthorized) && db.members == old(db.members)
      else if k.None? then r == Fail(NotFound) && db.members == old(db.members)
      else if old(db.members)[k.value].role == Owner then r == Fail(InvalidOperation) && db.members == old(db.members)
      else r == Pass && db.members == old(db.members)[k.value := old(db.members)[k.value].(isDeleted := true)]
    ensures r.Pass? && UniqueLiveMemberships(old(db.members)) ==> !IsMember(db.members, groupId, memberUserId)
    ensures UniqueLiveMemberships(old(db.members)) ==> UniqueLiveMemberships(db.members)
    ensures GroupsHaveOwners(db.groups, old(db.members)) ==> GroupsHaveOwners(db.groups, db.members)
  {
    if !IsGroupOwner(db.members, groupId, requestingUserId) {
      return Fail(Unauthorized);
    }
    var k := IndexWhere(db.members, MembershipRow(groupId, memberUserId));
    if k.None? {
      return Fail(NotFound);
    }
    if db.members[k.value].role == Owner {
      return Fail(InvalidOperation);
    }
    SoftDeleteMember(db.groups, db.members, k.value);
    db.members := db.members[k.value := db.members[k.value].(isDeleted := true)];
    r := Pass;
  }

  // ----- Goal sharing -----

  datatype ShareGoalDto = ShareGoalDto(goalId: Guid, userIds: seq<Guid>)
  datatype UnshareGoalDto = UnshareGoalDto(goalId: Guid, userId: Guid)

  /** The goal lookup of sharing and unsharing: live, with that id, owned by the user. */
  function OwnedGoal(goalId: Guid, userId: Guid): Goal -> bool {
    (g: Goal) => g.id == goalId && g.userId == userId && !g.isDeleted
  }

  /** `isInSameGroup`: the target has a live membership in one of the owner's groups. */
  predicate InOwnerGroups(members: seq<UserGroupMember>, ownerGroupIds: seq<Guid>, target: Guid) {
    exists m :: m in members && !m.isDeleted && m.groupId in ownerGroupIds && m.userId == target
  }

  lemma InOwnerGroupsMeaning(members: seq<UserGroupMember>, ownerId: Guid, target: Guid)
    ensures InOwnerGroups(members, UserGroupIds(members, ownerId), target) <==> SharesLiveGroup(members, ownerId, target)
  {
    if InOwnerGroups(members, UserGroupIds(members, ownerId), target) {
      var m :| m in members && !m.isDeleted && m.groupId in UserGroupIds(members, ownerId) && m.userId == target;
      var o :| o in members && !o.isDeleted && o.userId == ownerId && o.groupId == m.groupId;
    }
  }

  /** A sharing row for the user among the rows of the goal. */
  predicate HasShare(rows: seq<GoalUser>, userId: Guid) {
    exists gu :: gu in rows && gu.userId == userId
  }

  /** The rows the sharing loop adds, in order: one guest row for each target
      other than the owner that has no row yet, counting those added earlier. */
  function NewShares(goalId: Guid, present: seq<GoalUser>, targets: seq<Guid>, ownerId: Guid): seq<GoalUser>
    decreases |targets|
  {
    if targets == [] then []
    else if targets[0] == ownerId || HasShare(present, targets[0]) then NewShares(goalId, present, targets[1..], ownerId)
    else
      var row := GoalUser(goalId, targets[0], false);
      [row] + NewShares(goalId, present + [row], targets[1..], ownerId)
  }

  /** The added rows are guest rows of the goal for targets that had none,
      one per user; afterwards every target other than the owner has a row. */
  lemma {:induction false} NewSharesShape(goalId: Guid, present: seq<GoalUser>, targets: seq<Guid>, ownerId: Guid)
    ensures var added := NewShares(goalId, present, targets, ownerId);
      && (forall gu :: gu in added ==>
            gu.goalId == goalId && !gu.isOwner && gu.userId in targets && gu.userId != ownerId && !HasShare(present, gu.userId))
      && (forall i, j :: 0 <= i < j < |added| ==> added[i].userId != added[j].userId)
      && (forall t :: t in targets && t != ownerId ==> HasShare(present + added, t))
    decreases |targets|
  {
    if targets != [] {
      var t := targets[0];
      var rest := targets[1..];
      if t == ownerId || HasShare(present, t) {
        NewSharesShape(goalId, present, rest, ownerId);
        var added := NewShares(goalId, present, rest, ownerId);
        if HasShare(present, t) {
          var gu :| gu in present && gu.userId == t;
          assert gu in present + added;
        }
      } else {
        var row := GoalUser(goalId, t, false);
        NewSharesShape(goalId, present + [row], rest, ownerId);
        var tail := NewShares(goalId, present + [row], rest, ownerId);
        var added := [row] + tail;
        assert present + added == (present + [row]) + tail;
        forall gu | gu in tail ensures gu.userId != t && !HasShare(present, gu.userId) {
          assert row in present + [row];
        }
        forall x | x in targets && x != ownerId ensures HasShare(present + added, x) {
          if x == t {
            assert row in present + added;
          } else {
            assert x in rest;
          }
        }
      }
    }
  }

  /** `ShareGoalAsync`'s rows: the loop's guest rows, then an owner row if the
      owner has none. */
  function ShareRows(goalId: Guid, present: seq<GoalUser>, targets: seq<Guid>, ownerId: Guid): seq<GoalUser> {
    NewShares(goalId, present, targets, ownerId)
      + if HasShare(present, ownerId) then [] else [GoalUser(goalId, ownerId, true)]
  }

  /** The composite key (GoalId, UserId) of the sharing table. */
  predicate UniqueGoalUserKeys(rows: seq<GoalUser>) {
    forall i, j :: 0 <= i < j < |rows| ==> rows[i].goalId != rows[j].goalId || rows[i].userId != rows[j].userId
  }

  /** After a successful share every target, and the owner, has a row for the
      goal, and the key of the sharing table stays unique. */
  lemma ShareRowsProperties(rows: seq<GoalUser>, goalId: Guid, targets: seq<Guid>, ownerId: Guid)
    ensures var after := rows + ShareRows(goalId, GoalUsersOf(rows, goalId), targets, ownerId);
      && (forall t :: t in targets ==> IsGoalSharedWithUser(after, goalId, t))
      && IsGoalSharedWithUser(after, goalId, ownerId)
      && (UniqueGoalUserKeys(rows) ==> UniqueGoalUserKeys(after))
  {
    var present := GoalUsersOf(rows, goalId);
    var added := NewShares(goalId, present, targets, ownerId);
    var extra := ShareRows(goalId, present, targets, ownerId);
    var after := rows + extra;
    NewSharesShape(goalId, present, targets, ownerId);
    assert extra[..|added|] == added;
    forall t | t in targets || t == ownerId ensures IsGoalSharedWithUser(after, goalId, t) {
      if t == ownerId && !HasShare(present, ownerId) {
        assert extra[|added|] in after;
      } else {
        var gu: GoalUser :| gu in present + added && gu.userId == t;
        if gu in added {
          var i :| 0 <= i < |added| && added[i] == gu;
          assert extra[i] == gu;
        }
        assert gu in after;
      }
    }
    if UniqueGoalUserKeys(rows) {
      forall i, j | 0 <= i < j < |after| ensures after[i].goalId != after[j].goalId || after[i].userId != after[j].userId {
        if i >= |rows| {
          var a, b := i - |rows|, j - |rows|;
          if b < |added| {
            assert extra[a] == added[a] && extra[b] == added[b];
          } else {
            assert extra[a] in added;
          }
        } else if j >= |rows| && after[i].goalId == goalId {
          assert after[i] in present;
          var b := j - |rows|;
          if b < |added| {
            assert extra[b] in added;
          }
        }
      }
    }
  }

  /** Some target other than the owner shares no live group with the owner. */
  predicate ShareRejected(members: seq<UserGroupMember>, ownerId: Guid, targets: seq<Guid>) {
    exists t :: t in targets && t != ownerId && !SharesLiveGroup(members, ownerId, t)
  }

  /** The loop has checked every target: none is outside the owner's groups. */
  lemma TargetsChecked(members: seq<UserGroupMember>, ownerId: Guid, targets: seq<Guid>)
    requires forall j :: 0 <= j < |targets| ==> targets[j] == ownerId || InOwnerGroups(members, UserGroupIds(members, ownerId), targets[j])
    ensures !ShareRejected(members, ownerId, targets)
  {
    forall t | t in targets && t != ownerId ensures SharesLiveGroup(members, ownerId, t) {
      InOwnerGroupsMeaning(members, ownerId, t);
    }
  }

  /** A target the loop rejects is a witness of the rejection. */
  lemma TargetRejected(members: seq<UserGroupMember>, ownerId: Guid, targets: seq<Guid>, i: nat)
    requires i < |targets| && targets[i] != ownerId && !InOwnerGroups(members, UserGroupIds(members, ownerId), targets[i])
    ensures ShareRejected(members, ownerId, targets)
  {
    InOwnerGroupsMeaning(members, ownerId, targets[i]);
    assert targets[i] in targets;
  }

  /** One step of the sharing loop, for the target at position i. */
  lemma NewSharesStep(goalId: Guid, present: seq<GoalUser>, added: seq<GoalUser>, targets: seq<Guid>, i: nat, ownerId: Guid)
    requires i < |targets|
    ensures var t := targets[i];
      var row := GoalUser(goalId, t, false);
      var later := targets[i + 1..];
      if t == ownerId || HasShare(present + added, t) then
        added + NewShares(goalId, present + added, targets[i..], ownerId) == added + NewShares(goalId, present + added, later, ownerId)
      else
        added + NewShares(goalId, present + added, targets[i..], ownerId)
          == (added + [row]) + NewShares(goalId, present + (added + [row]), later, ownerId)
  {
    assert targets[i..][1..] == targets[i + 1..];
    assert present + added + [GoalUser(goalId, targets[i], false)] == present + (added + [GoalUser(goalId, targets[i], false)]);
  }

  /** The loop never adds the owner, so the owner check after it sees the rows before it. */
  lemma OwnerRowAfterShares(goalId: Guid, present: seq<GoalUser>, targets: seq<Guid>, ownerId: Guid)
    ensures var added := NewShares(goalId, present, targets, ownerId);
      HasShare(present + added, ownerId) == HasShare(present, ownerId)
  {
    NewSharesShape(goalId, present, targets, ownerId);
  }

  /** The loop of `ShareGoalAsync` over the targets: it stops at the first
      target other than the owner outside the owner's groups, and otherwise
      collects the guest rows to add. */
  method CollectShares(members: seq<UserGroupMember>, goalId: Guid, present: seq<GoalUser>, targets: seq<Guid>, ownerId: Guid)
    returns (rejected: bool, added: seq<GoalUser>)
    ensures rejected == ShareRejected(members, ownerId, targets)
    ensures !rejected ==> added == NewShares(goalId, present, targets, ownerId)
  {
    var ownerGroupIds := UserGroupIds(members, ownerId);
    added := [];
    var i := 0;
    assert present + added == present && targets[i..] == targets;
    while i < |targets|
      invariant 0 <= i <= |targets|
      invariant added + NewShares(goalId, present + added, targets[i..], ownerId) == NewShares(goalId, present, targets, ownerId)
      invariant forall j :: 0 <= j < i ==> targets[j] == ownerId || InOwnerGroups(members, ownerGroupIds, targets[j])
    {
      var t := targets[i];
      NewSharesStep(goalId, present, added, targets, i, ownerId);
      if t != ownerId {
        if !InOwnerGroups(members, ownerGroupIds, t) {
          TargetRejected(members, ownerId, targets, i);
          return true, added;
        }
        if !HasShare(present + added, t) {
          added := added + [GoalUser(goalId, t, false)];
        }
      }
      i := i + 1;
    }
    TargetsChecked(members, ownerId, targets);
    assert targets[i..] == [];
    rejected := false;
  }

  /** `ShareGoalAsync`: every target other than the owner must share a live
      group with the owner; if one does not, nothing is saved. The owner gets
      a row of their own if they have none. */
  method ShareGoal(db: FinanceDb, dto: ShareGoalDto, userId: Guid) returns (r: Outcome)
    modifies db`goalUsers
    ensures match First(db.goals, OwnedGoal(dto.goalId, userId))
      case None => r == Fail(NotFound) && db.goalUsers == old(db.goalUsers)
      case Some(goal) =>
        if ShareRejected(db.members, userId, dto.userIds) then
          r == Fail(InvalidOperation) && db.goalUsers == old(db.goalUsers)
        else
          r == Pass && db.goalUsers == old(db.goalUsers) + ShareRows(goal.id, GoalUsersOf(old(db.goalUsers), goal.id), dto.userIds, userId)
  {
    var found := First(db.goals, OwnedGoal(dto.goalId, userId));
    if found.None? {
      return Fail(NotFound);
    }
    var goal := found.value;
    var present := GoalUsersOf(db.goalUsers, goal.id);
    var rejected, added := CollectShares(db.members, goal.id, present, dto.userIds, userId);
    if rejected {
      return Fail(InvalidOperation);
    }
    OwnerRowAfterShares(goal.id, present, dto.userIds, userId);
    var rows := added;
    if !HasShare(present + added, userId) {
      rows := added + [GoalUser(goal.id, userId, true)];
    }
    db.goalUsers := db.goalUsers + rows;
    r := Pass;
  }

  /** `UnshareGoalAsync`: the owner removes another user's row, if there is one. */
  method UnshareGoal(db: FinanceDb, dto: UnshareGoalDto, userId: Guid) returns (r: Outcome)
    modifies db`goalUsers
    ensures match First(db.goals, OwnedGoal(dto.goalId, userId))
      case None => r == Fail(NotFound) && db.goalUsers == old(db.goalUsers)
      case Some(goal) =>
        if dto.userId == userId then r == Fail(InvalidOperation) && db.goalUsers == old(db.goalUsers)
        else (r == Pass && db.goalUsers ==
                if IsGoalSharedWithUser(old(db.goalUsers), goal.id, dto.userId)
                then WithoutGoalUser(old(db.goalUsers), goal.id, dto.userId)
                else old(db.goalUsers))
    ensures r.Pass? ==> !IsGoalSharedWithUser(db.goalUsers, dto.goalId, dto.userId)
    ensures forall gu :: gu in old(db.goalUsers) && gu.userId == userId ==> gu in db.goalUsers
  {
    var found := First(db.goals, OwnedGoal(dto.goalId, userId));
    if found.None? {
      return Fail(NotFound);
    }
    var goal := found.value;
    if dto.userId == userId {
      return Fail(InvalidOperation);
    }
    var row := First(GoalUsersOf(db.goalUsers, goal.id), (gu: GoalUser) => gu.userId == dto.userId);
    if row.Some? {
      db.goalUsers := WithoutGoalUser(db.goalUsers, goal.id, dto.userId);
    }
    r := Pass;
  }

  /** `GetGoalUsersAsync`: the sharing rows of a live goal, for its owner or a
      user it is shared with. */
  function GetGoalUsers(goals: seq<Goal>, goalUsers: seq<GoalUser>, goalId: Guid, userId: Guid): (r: Result<seq<GoalUserDto>>)
    ensures (r == Err(NotFound)) <==> GoalById(goals, goalId).None?
    ensures (r == Err(Unauthorized)) <==> GoalById(goals, goalId).Some? && !CanView(goalUsers, GoalById(goals, goalId).value, userId)
    ensures r.Ok? ==> forall gu :: gu in goalUsers && gu.goalId == goalId ==> GoalUserDtoOf(gu) in r.value
    ensures r.Ok? ==> forall x :: x in r.value ==> exists gu :: gu in goalUsers && gu.goalId == goalId && x == GoalUserDtoOf(gu)
  {
    match GoalById(goals, goalId)
    case None => Err(NotFound)
    case Some(goal) =>
      if !CanView(goalUsers, goal, userId) then Err(Unauthorized)
      else
        var rows := GoalUsersOf(goalUsers, goal.id);
        var dtos := Map(rows, GoalUserDtoOf);
        assert forall gu :: gu in goalUsers && gu.goalId == goalId ==> GoalUserDtoOf(gu) in dtos by {
          forall gu | gu in goalUsers && gu.goalId == goalId ensures GoalUserDtoOf(gu) in dtos {
            MapMember(rows, GoalUserDtoOf, gu);
          }
        }
        assert forall x :: x in dtos ==> exists gu :: gu in goalUsers && gu.goalId == goalId && x == GoalUserDtoOf(gu) by {
          forall x | x in dtos ensures exists gu :: gu in goalUsers && gu.goalId == goalId && x == GoalUserDtoOf(gu) {
            var i :| 0 <= i < |dtos| && dtos[i] == x;
            assert rows[i] in rows;
          }
        }
        Ok(dtos)
  }
}
