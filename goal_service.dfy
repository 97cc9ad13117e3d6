/** GoalService: savings goals with their progress, listed for the scope a
    view context resolves to, and created, edited and deleted by their owner
    only. The service issues the same queries as the goal repository, so the
    lists are stated through those query functions. */
module GoalService {
  import opened Wrappers
  import opened Seqs
  import opened Calendar
  import opened Domain
  import opened Store
  import opened GoalRepository
  import opened UserGroupService

  /** `GoalDto` as the service fills it: the mapped goal, its progress, the
      ownership of the caller and the sharing rows (without the owner's name
      and the creation date). */
  datatype GoalDto = GoalDto(
    id: Guid, name: string, description: Option<string>,
    targetAmount: Money, currentAmount: Money,
    startDate: DateTime, targetDate: Option<DateTime>, isCompleted: bool,
    color: Option<string>, icon: Option<string>,
    progressPercentage: Money, remainingAmount: Money,
    ownerId: Guid, isOwner: bool, isShared: bool, sharedWith: seq<GoalUserDto>)

  datatype CreateGoalDto = CreateGoalDto(
    name: string, description: Option<string>, targetAmount: Money, currentAmount: Money,
    startDate: DateTime, targetDate: Option<DateTime>, color: Option<string>, icon: Option<string>)

  datatype UpdateGoalDto = UpdateGoalDto(
    name: string, description: Option<string>, targetAmount: Money, currentAmount: Money,
    targetDate: Option<DateTime>, color: Option<string>, icon: Option<string>)

  // ----- Progress -----

  /** For a positive target, the scaled ratio reaches 100 exactly when the
      current amount reaches the target, and is not negative for a current
      amount that is not. */
  lemma RatioMeaning(current: Money, target: Money)
    requires target > 0.0
    ensures current / target * 100.0 >= 100.0 <==> current >= target
    ensures current >= 0.0 ==> current / target * 100.0 >= 0.0
  {
    var q := current / target;
    assert q * target == current;
    if q >= 1.0 {
      assert q * target >= 1.0 * target;
    }
    if current >= target {
      assert q * target >= 1.0 * target;
    }
  }

  /** `ProgressPercentage`: the share of the target reached, capped at 100,
      and 0 for a target that is not positive. */
  function Progress(target: Money, current: Money): (p: Money)
    ensures p <= 100.0
    ensures target <= 0.0 ==> p == 0.0
    ensures target > 0.0 ==> (p == 100.0 <==> current >= target)
    ensures current >= 0.0 ==> p >= 0.0
  {
    if target > 0.0 then
      RatioMeaning(current, target);
      var scaled := current / target * 100.0;
      if scaled < 100.0 then scaled else 100.0
    else 0.0
  }

  /** `RemainingAmount`: what is left to save, never negative. */
  function Remaining(target: Money, current: Money): (r: Money)
    ensures r >= 0.0
    ensures r == 0.0 <==> current >= target
    ensures current <= target ==> current + r == target
  {
    if target - current > 0.0 then target - current else 0.0
  }

  /** The two measures agree: a positive target is fully reached exactly when
      nothing remains. */
  lemma ProgressRemainingAgree(target: Money, current: Money)
    requires target > 0.0
    ensures Progress(target, current) == 100.0 <==> Remaining(target, current) == 0.0
  {
  }

  /** The mapping of one goal for the current user. */
  function GoalDtoOf(goalUsers: seq<GoalUser>, goal: Goal, currentUserId: Guid): (d: GoalDto)
    ensures d.id == goal.id && d.name == goal.name && d.description == goal.description
    ensures d.targetAmount == goal.targetAmount && d.currentAmount == goal.currentAmount
    ensures d.startDate == goal.startDate && d.targetDate == goal.targetDate && d.isCompleted == goal.isCompleted
    ensures d.color == goal.color && d.icon == goal.icon
    ensures d.progressPercentage <= 100.0 && d.remainingAmount >= 0.0
    ensures d.ownerId == goal.userId
    ensures d.isOwner <==> goal.userId == currentUserId
    ensures d.isShared <==> |d.sharedWith| > 1
    ensures |d.sharedWith| == |GoalUsersOf(goalUsers, goal.id)|
    ensures forall gu :: gu in goalUsers && gu.goalId == goal.id ==> GoalUserDtoOf(gu) in d.sharedWith
    ensures forall x :: x in d.sharedWith ==> exists gu :: gu in goalUsers && gu.goalId == goal.id && x == GoalUserDtoOf(gu)
  {
    var rows := GoalUsersOf(goalUsers, goal.id);
    var shared := Map(rows, GoalUserDtoOf);
    assert forall gu :: gu in goalUsers && gu.goalId == goal.id ==> GoalUserDtoOf(gu) in shared by {
      forall gu | gu in goalUsers && gu.goalId == goal.id ensures GoalUserDtoOf(gu) in shared {
        MapMember(rows, GoalUserDtoOf, gu);
      }
    }
    assert forall x :: x in shared ==> exists gu :: gu in goalUsers && gu.goalId == goal.id && x == GoalUserDtoOf(gu) by {
      forall x | x in shared ensures exists gu :: gu in goalUsers && gu.goalId == goal.id && x == GoalUserDtoOf(gu) {
        var i :| 0 <= i < |shared| && shared[i] == x;
        assert rows[i] in rows;
      }
    }
    GoalDto(
      goal.id, goal.name, goal.description, goal.targetAmount, goal.currentAmount,
      goal.startDate, goal.targetDate, goal.isCompleted, goal.color, goal.icon,
      Progress(goal.targetAmount, goal.currentAmount), Remaining(goal.targetAmount, goal.currentAmount),
      goal.userId, goal.userId == currentUserId, |rows| > 1, shared)
  }

  function Mapping(goalUsers: seq<GoalUser>, currentUserId: Guid): Goal -> GoalDto {
    (g: Goal) => GoalDtoOf(goalUsers, g, currentUserId)
  }

  /** `MapGoalsWithProgress`. */
  method MapGoalsWithProgress(goalUsers: seq<GoalUser>, goals: seq<Goal>, currentUserId: Guid) returns (dtos: seq<GoalDto>)
    ensures dtos == Map(goals, Mapping(goalUsers, currentUserId))
  {
    dtos := [];
    for i := 0 to |goals|
      invariant dtos == Map(goals[..i], Mapping(goalUsers, currentUserId))
    {
      var goal := goals[i];
      var rows := GoalUsersOf(goalUsers, goal.id);
      var shared := Map(rows, GoalUserDtoOf);
      var dto := GoalDto(
        goal.id, goal.name, goal.description, goal.targetAmount, goal.currentAmount,
        goal.startDate, goal.targetDate, goal.isCompleted, goal.color, goal.icon,
        Progress(goal.targetAmount, goal.currentAmount), Remaining(goal.targetAmount, goal.currentAmount),
        goal.userId, goal.userId == currentUserId, |rows| > 1, shared);
      assert dto == GoalDtoOf(goalUsers, goal, currentUserId);
      assert Map(goals[..i + 1], Mapping(goalUsers, currentUserId)) == dtos + [dto];
      dtos := dtos + [dto];
    }
    assert goals[..|goals|] == goals;
  }

  // ----- Lists -----

  /** `GetAllGoalsAsync`, `GetActiveGoalsAsync` (isCompleted false) and
      `GetCompletedGoalsAsync` (isCompleted true): the live goals owned by or
      shared with a user of the resolved scope. */
  method GetGoals(db: FinanceDb, userId: Guid, context: ViewContext, memberUserId: Option<Guid>, isCompleted: Option<bool>)
    returns (r: Result<seq<GoalDto>>)
    ensures var scope := AccessibleUserIds(db.members, userId, context, memberUserId);
      && (scope.Err? ==> r == Err(scope.error))
      && (scope.Ok? ==> r == Ok(Map(GoalsByAccessibleUsers(db.goals, db.goalUsers, scope.value, isCompleted), Mapping(db.goalUsers, userId))))
  {
    var scope := AccessibleUserIds(db.members, userId, context, memberUserId);
    if scope.Err? {
      return Err(scope.error);
    }
    var goals := GoalsByAccessibleUsers(db.goals, db.goalUsers, scope.value, isCompleted);
    var dtos := MapGoalsWithProgress(db.goalUsers, goals, userId);
    r := Ok(dtos);
  }

  /** In the user's own view a goal is listed exactly when it is live and the
      user may open it by id. */
  lemma OwnViewListsViewableGoals(goals: seq<Goal>, goalUsers: seq<GoalUser>, userId: Guid, g: Goal)
    ensures g in GoalsByAccessibleUsers(goals, goalUsers, [userId], None) <==>
      g in goals && !g.isDeleted && CanView(goalUsers, g, userId)
  {
    if CanView(goalUsers, g, userId) && g.userId != userId {
      var gu :| gu in goalUsers && gu.goalId == g.id && gu.userId == userId;
      assert SharedWithAny(goalUsers, g.id, [userId]);
    }
  }

  /** Active and completed lists split the full list of the same scope. */
  lemma ActiveAndCompletedSplit(goals: seq<Goal>, goalUsers: seq<GoalUser>, userIds: seq<Guid>, g: Goal)
    ensures g in GoalsByAccessibleUsers(goals, goalUsers, userIds, None) <==>
      (g in GoalsByAccessibleUsers(goals, goalUsers, userIds, Some(false)) && !g.isCompleted)
      || (g in GoalsByAccessibleUsers(goals, goalUsers, userIds, Some(true)) && g.isCompleted)
  {
    CompletionSplits(goals, goalUsers, userIds, g);
  }

  /** `GetSharedGoalsAsync`: the live goals shared with the user by another owner. */
  method GetSharedGoals(db: FinanceDb, userId: Guid) returns (r: seq<GoalDto>)
    ensures r == Map(NonOwnerSharedGoals(db.goals, db.goalUsers, userId), Mapping(db.goalUsers, userId))
  {
    r := MapGoalsWithProgress(db.goalUsers, NonOwnerSharedGoals(db.goals, db.goalUsers, userId), userId);
  }

  /** `GetGoalByIdAsync`: the live goal, for its owner or a user it is shared with. */
  method GetGoalById(db: FinanceDb, goalId: Guid, userId: Guid) returns (r: Option<GoalDto>)
    ensures r.Some? <==> GoalById(db.goals, goalId).Some? && CanView(db.goalUsers, GoalById(db.goals, goalId).value, userId)
    ensures r.Some? ==> r.value == GoalDtoOf(db.goalUsers, GoalById(db.goals, goalId).value, userId)
  {
    var found := GoalById(db.goals, goalId);
    if found.None? {
      return None;
    }
    var goal := found.value;
    if !CanView(db.goalUsers, goal, userId) {
      return None;
    }
    var dtos := MapGoalsWithProgress(db.goalUsers, [goal], userId);
    r := Some(dtos[0]);
  }

  // ----- Commands -----

  /** Every live goal is marked completed exactly when its amount reaches its target. */
  predicate CompletionConsistent(goals: seq<Goal>) {
    forall g :: g in goals && !g.isDeleted ==> (g.isCompleted <==> g.currentAmount >= g.targetAmount)
  }

  /** Every live goal has a sharing row for its owner. */
  predicate OwnersHaveRows(goals: seq<Goal>, goalUsers: seq<GoalUser>) {
    forall g :: g in goals && !g.isDeleted ==> IsGoalSharedWithUser(goalUsers, g.id, g.userId)
  }

  /** Where owners have rows, reaching a goal through its sharing rows finds
      every goal reaching it through its owner does: the two repository
      queries agree. */
  lemma OwnerRowsMakeQueriesAgree(goals: seq<Goal>, goalUsers: seq<GoalUser>, userIds: seq<Guid>, isCompleted: Option<bool>, g: Goal)
    requires OwnersHaveRows(goals, goalUsers)
    ensures g in GoalsWithUsers(goals, goalUsers, userIds, isCompleted) <==>
      g in GoalsByAccessibleUsers(goals, goalUsers, userIds, isCompleted)
  {
    if g in GoalsByAccessibleUsers(goals, goalUsers, userIds, isCompleted) && g.userId in userIds {
      var gu :| gu in goalUsers && gu.goalId == g.id && gu.userId == g.userId;
    }
  }

  /** The flag update of `UpdateGoalAsync`: set when the target is reached,
      cleared when it no longer is, otherwise kept. */
  function CompletedAfterUpdate(current: Money, target: Money, wasCompleted: bool): (c: bool)
    ensures c <==> current >= target
  {
    if current >= target && !wasCompleted then true
    else if current < target && wasCompleted then false
    else wasCompleted
  }

  /** The goal `CreateGoalAsync` stores. */
  function NewGoal(dto: CreateGoalDto, userId: Guid, id: Guid): (g: Goal)
    ensures g.isCompleted <==> dto.currentAmount >= dto.targetAmount
    ensures g.id == id && g.userId == userId && !g.isDeleted
  {
    Goal(id, userId, dto.name, dto.description, dto.targetAmount, dto.currentAmount,
      dto.startDate, dto.targetDate, dto.currentAmount >= dto.targetAmount, dto.color, dto.icon, false)
  }

  /** `CreateGoalAsync`: the goal with a fresh id, owned by the user, with
      the owner's sharing row; the result is the goal read back by id. */
  method CreateGoal(db: FinanceDb, dto: CreateGoalDto, userId: Guid, newId: Guid) returns (r: GoalDto)
    requires forall g :: g in db.goals ==> g.id != newId
    requires forall gu :: gu in db.goalUsers ==> gu.goalId != newId
    modifies db`goals, db`goalUsers
    ensures db.goals == old(db.goals) + [NewGoal(dto, userId, newId)]
    ensures db.goalUsers == old(db.goalUsers) + [GoalUser(newId, userId, true)]
    ensures r == GoalDtoOf(db.goalUsers, NewGoal(dto, userId, newId), userId)
    ensures r.isOwner && !r.isShared && r.sharedWith == [GoalUserDto(userId, true)]
    ensures CompletionConsistent(old(db.goals)) ==> CompletionConsistent(db.goals)
    ensures OwnersHaveRows(old(db.goals), old(db.goalUsers)) ==> OwnersHaveRows(db.goals, db.goalUsers)
  {
    var goal := BuildGoal(dto, userId, newId);
    var row := GoalUser(newId, userId, true);
    AppendGoal(db.goals, db.goalUsers, goal, row);
    AppendedGoalFound(db.goals, db.goalUsers, goal, row);
    db.goals := db.goals + [goal];
    db.goalUsers := db.goalUsers + [row];
    r := ReadBack(db.goals, db.goalUsers, newId, userId);
    OwnerOnlyDto(db.goalUsers, goal, userId);
  }

  /** The reload after a save: the live goal with the id, mapped for the user. */
  method ReadBack(goals: seq<Goal>, goalUsers: seq<GoalUser>, goalId: Guid, userId: Guid) returns (r: GoalDto)
    requires GoalById(goals, goalId).Some?
    ensures r == GoalDtoOf(goalUsers, GoalById(goals, goalId).value, userId)
  {
    var created := GoalById(goals, goalId);
    var dtos := MapGoalsWithProgress(goalUsers, [created.value], userId);
    r := dtos[0];
  }

  /** A goal whose only sharing row is its owner's is not shown as shared. */
  lemma OwnerOnlyDto(goalUsers: seq<GoalUser>, goal: Goal, userId: Guid)
    requires goal.userId == userId && GoalUsersOf(goalUsers, goal.id) == [GoalUser(goal.id, userId, true)]
    ensures var d := GoalDtoOf(goalUsers, goal, userId);
      d.isOwner && !d.isShared && d.sharedWith == [GoalUserDto(userId, true)]
  {
  }

  /** The goal of `CreateGoalAsync` before it is stored: mapped from the
      request, owned by the user, completed when already funded. */
  method BuildGoal(dto: CreateGoalDto, userId: Guid, newId: Guid) returns (goal: Goal)
    ensures goal == NewGoal(dto, userId, newId)
  {
    goal := Goal(newId, userId, dto.name, dto.description, dto.targetAmount, dto.currentAmount,
      dto.startDate, dto.targetDate, false, dto.color, dto.icon, false);
    if goal.currentAmount >= goal.targetAmount {
      goal := goal.(isCompleted := true);
    }
  }

  /** Adding a consistent goal with a fresh id together with its owner's row
      keeps both invariants. */
  lemma AppendGoal(goals: seq<Goal>, goalUsers: seq<GoalUser>, goal: Goal, row: GoalUser)
    requires row == GoalUser(goal.id, goal.userId, true)
    requires goal.isCompleted <==> goal.currentAmount >= goal.targetAmount
    ensures CompletionConsistent(goals) ==> CompletionConsistent(goals + [goal])
    ensures OwnersHaveRows(goals, goalUsers) ==> OwnersHaveRows(goals + [goal], goalUsers + [row])
  {
    assert row in goalUsers + [row];
    if OwnersHaveRows(goals, goalUsers) {
      forall g | g in goals + [goal] && !g.isDeleted
        ensures IsGoalSharedWithUser(goalUsers + [row], g.id, g.userId)
      {
        if g != goal {
          var gu :| gu in goalUsers && gu.goalId == g.id && gu.userId == g.userId;
          assert gu in goalUsers + [row];
        }
      }
    }
  }

  /** A goal added with a fresh id is the one found by that id, and the row
      added with it is its only sharing row. */
  lemma AppendedGoalFound(goals: seq<Goal>, goalUsers: seq<GoalUser>, goal: Goal, row: GoalUser)
    requires forall g :: g in goals ==> g.id != goal.id
    requires forall gu :: gu in goalUsers ==> gu.goalId != goal.id
    requires row.goalId == goal.id && !goal.isDeleted
    ensures GoalById(goals + [goal], goal.id) == Some(goal)
    ensures GoalUsersOf(goalUsers + [row], goal.id) == [row]
  {
    assert goal in goals + [goal];
    FreshGoalRows(goalUsers, row);
  }

  /** The only sharing row of a goal with a fresh id is the one added for it. */
  lemma FreshGoalRows(goalUsers: seq<GoalUser>, row: GoalUser)
    requires forall gu :: gu in goalUsers ==> gu.goalId != row.goalId
    ensures GoalUsersOf(goalUsers + [row], row.goalId) == [row]
  {
    var p := (gu: GoalUser) => gu.goalId == row.goalId;
    FilterSnoc(goalUsers, row, p);
    FilterNone(goalUsers, p);
  }

  /** The goal after `UpdateGoalAsync`: the edited fields, and the flag
      brought in line with the new amounts. */
  function UpdatedGoal(g: Goal, dto: UpdateGoalDto): (u: Goal)
    ensures u.id == g.id && u.userId == g.userId && u.startDate == g.startDate && u.isDeleted == g.isDeleted
    ensures u.isCompleted <==> dto.currentAmount >= dto.targetAmount
  {
    g.(name := dto.name, description := dto.description, targetAmount := dto.targetAmount,
       currentAmount := dto.currentAmount, targetDate := dto.targetDate, color := dto.color, icon := dto.icon,
       isCompleted := CompletedAfterUpdate(dto.currentAmount, dto.targetAmount, g.isCompleted))
  }

  /** The row `UpdateGoalAsync` and `DeleteGoalAsync` look for. */
  function LiveGoal(goalId: Guid): Goal -> bool {
    (g: Goal) => g.id == goalId && !g.isDeleted
  }

  /** `UpdateGoalAsync`: the owner edits a live goal. */
  method UpdateGoal(db: FinanceDb, goalId: Guid, dto: UpdateGoalDto, userId: Guid) returns (r: Result<GoalDto>)
    modifies db`goals
    ensures var k := IndexWhere(old(db.goals), LiveGoal(goalId));
      if k.None? then r == Err(NotFound) && db.goals == old(db.goals)
      else if old(db.goals)[k.value].userId != userId then r == Err(Unauthorized) && db.goals == old(db.goals)
      else (db.goals == old(db.goals)[k.value := UpdatedGoal(old(db.goals)[k.value], dto)]
            && r == Ok(GoalDtoOf(db.goalUsers, db.goals[k.value], userId)))
    ensures CompletionConsistent(old(db.goals)) ==> CompletionConsistent(db.goals)
    ensures OwnersHaveRows(old(db.goals), db.goalUsers) ==> OwnersHaveRows(db.goals, db.goalUsers)
  {
    var k := IndexWhere(db.goals, LiveGoal(goalId));
    if k.None? {
      return Err(NotFound);
    }
    var goal := db.goals[k.value];
    if goal.userId != userId {
      return Err(Unauthorized);
    }
    var updated := goal.(name := dto.name, description := dto.description, targetAmount := dto.targetAmount,
      currentAmount := dto.currentAmount, targetDate := dto.targetDate, color := dto.color, icon := dto.icon);
    if updated.currentAmount >= updated.targetAmount && !updated.isCompleted {
      updated := updated.(isCompleted := true);
    } else if updated.currentAmount < updated.targetAmount && updated.isCompleted {
      updated := updated.(isCompleted := false);
    }
    assert updated == UpdatedGoal(goal, dto);
    ReplaceGoalRow(db.goals, db.goalUsers, k.value, updated);
    db.goals := db.goals[k.value := updated];
    var dtos := MapGoalsWithProgress(db.goalUsers, [updated], userId);
    r := Ok(dtos[0]);
  }

  /** Replacing a goal row by one that is consistent, or deleted, with the
      same id and owner, keeps both invariants. */
  lemma ReplaceGoalRow(goals: seq<Goal>, goalUsers: seq<GoalUser>, k: nat, g2: Goal)
    requires k < |goals| && g2.id == goals[k].id && g2.userId == goals[k].userId && (!g2.isDeleted ==> !goals[k].isDeleted)
    requires !g2.isDeleted ==> (g2.isCompleted <==> g2.currentAmount >= g2.targetAmount)
    ensures CompletionConsistent(goals) ==> CompletionConsistent(goals[k := g2])
    ensures OwnersHaveRows(goals, goalUsers) ==> OwnersHaveRows(goals[k := g2], goalUsers)
  {
    forall g | g in goals[k := g2] && !g.isDeleted && g != g2 ensures g in goals {
      var j :| 0 <= j < |goals[k := g2]| && goals[k := g2][j] == g;
    }
    if OwnersHaveRows(goals, goalUsers) && !g2.isDeleted {
      assert goals[k] in goals;
    }
  }

  /** `DeleteGoalAsync`: the owner soft-deletes a live goal. */
  method DeleteGoal(db: FinanceDb, goalId: Guid, userId: Guid) returns (r: Outcome)
    modifies db`goals
    ensures var k := IndexWhere(old(db.goals), LiveGoal(goalId));
      if k.None? then r == Fail(NotFound) && db.goals == old(db.goals)
      else if old(db.goals)[k.value].userId != userId then r == Fail(Unauthorized) && db.goals == old(db.goals)
      else r == Pass && db.goals == old(db.goals)[k.value := old(db.goals)[k.value].(isDeleted := true)]
    ensures CompletionConsistent(old(db.goals)) ==> CompletionConsistent(db.goals)
    ensures OwnersHaveRows(old(db.goals), db.goalUsers) ==> OwnersHaveRows(db.goals, db.goalUsers)
  {
    var k := IndexWhere(db.goals, LiveGoal(goalId));
    if k.None? {
      return Fail(NotFound);
    }
    if db.goals[k.value].userId != userId {
      return Fail(Unauthorized);
    }
    var deleted := db.goals[k.value].(isDeleted := true);
    ReplaceGoalRow(db.goals, db.goalUsers, k.value, deleted);
    db.goals := db.goals[k.value := deleted];
    r := Pass;
  }
}
