/** GoalRepository: the goal queries, which differ in whether a goal is
    reached through its owner, through its sharing rows or both, and the row
    inserts, replacements and removals the repository offers. Sharing rows
    (GoalUser) have no soft-delete flag: they are removed outright. */
module GoalRepository {
  import opened Wrappers
  import opened Seqs
  import opened Domain
  import opened Store

  /** Some sharing row of the goal names one of the users. */
  predicate SharedWithAny(goalUsers: seq<GoalUser>, goalId: Guid, userIds: seq<Guid>) {
    exists gu :: gu in goalUsers && gu.goalId == goalId && gu.userId in userIds
  }

  /** `IsGoalSharedWithUserAsync`: a sharing row with this exact key exists. */
  predicate IsGoalSharedWithUser(goalUsers: seq<GoalUser>, goalId: Guid, userId: Guid) {
    exists gu :: gu in goalUsers && gu.goalId == goalId && gu.userId == userId
  }

  /** The optional `isCompleted` filter: no value keeps every goal. */
  predicate CompletionMatches(g: Goal, isCompleted: Option<bool>) {
    isCompleted.None? || g.isCompleted == isCompleted.value
  }

  /** Who may read a goal: its owner, or a user it is shared with. */
  predicate CanView(goalUsers: seq<GoalUser>, goal: Goal, userId: Guid) {
    goal.userId == userId || IsGoalSharedWithUser(goalUsers, goal.id, userId)
  }

  /** `GetGoalsWithUsersAsync`: live goals reached through a sharing row only. */
  function GoalsWithUsers(goals: seq<Goal>, goalUsers: seq<GoalUser>, userIds: seq<Guid>, isCompleted: Option<bool>)
    : (r: seq<Goal>)
    ensures forall g :: g in r ==>
      g in goals && !g.isDeleted && SharedWithAny(goalUsers, g.id, userIds) && CompletionMatches(g, isCompleted)
    ensures forall g ::
      (g in goals && !g.isDeleted && SharedWithAny(goalUsers, g.id, userIds) && CompletionMatches(g, isCompleted)) ==> g in r
  {
    Filter(goals, (g: Goal) =>
      !g.isDeleted && SharedWithAny(goalUsers, g.id, userIds) && CompletionMatches(g, isCompleted))
  }

  /** Owned by one of the users, or shared with one of them. */
  predicate Accessible(goalUsers: seq<GoalUser>, g: Goal, userIds: seq<Guid>) {
    g.userId in userIds || SharedWithAny(goalUsers, g.id, userIds)
  }

  /** `GetGoalsByAccessibleUsersAsync`: live goals owned by or shared with
      one of the users. */
  function GoalsByAccessibleUsers(goals: seq<Goal>, goalUsers: seq<GoalUser>, userIds: seq<Guid>, isCompleted: Option<bool>)
    : (r: seq<Goal>)
    ensures forall g :: g in r ==>
      g in goals && !g.isDeleted && Accessible(goalUsers, g, userIds) && CompletionMatches(g, isCompleted)
    ensures forall g ::
      (g in goals && !g.isDeleted && Accessible(goalUsers, g, userIds) && CompletionMatches(g, isCompleted)) ==> g in r
  {
    Filter(goals, (g: Goal) =>
      !g.isDeleted && Accessible(goalUsers, g, userIds) && CompletionMatches(g, isCompleted))
  }

  /** `GetSharedGoalsAsync`: live goals with a sharing row for the user,
      whether or not that row marks the owner. */
  function SharedGoals(goals: seq<Goal>, goalUsers: seq<GoalUser>, userId: Guid): (r: seq<Goal>)
    ensures forall g :: g in r ==> g in goals && !g.isDeleted && IsGoalSharedWithUser(goalUsers, g.id, userId)
    ensures forall g :: g in goals && !g.isDeleted && IsGoalSharedWithUser(goalUsers, g.id, userId) ==> g in r
  {
    Filter(goals, (g: Goal) => !g.isDeleted && IsGoalSharedWithUser(goalUsers, g.id, userId))
  }

  /** A sharing row that gives the user access without making them the owner. */
  predicate SharedAsGuest(goalUsers: seq<GoalUser>, goalId: Guid, userId: Guid) {
    exists gu :: gu in goalUsers && gu.goalId == goalId && gu.userId == userId && !gu.isOwner
  }

  /** `GetNonOwnerSharedGoalsAsync`: live goals shared with the user by someone else. */
  function NonOwnerSharedGoals(goals: seq<Goal>, goalUsers: seq<GoalUser>, userId: Guid): (r: seq<Goal>)
    ensures forall g :: g in r ==> g in goals && !g.isDeleted && SharedAsGuest(goalUsers, g.id, userId)
    ensures forall g :: g in goals && !g.isDeleted && SharedAsGuest(goalUsers, g.id, userId) ==> g in r
  {
    Filter(goals, (g: Goal) => !g.isDeleted && SharedAsGuest(goalUsers, g.id, userId))
  }

  /** `GetGoalByIdAsync` and `GetGoalByIdWithUsersAsync`: the live goal with that id. */
  function GoalById(goals: seq<Goal>, goalId: Guid): (r: Option<Goal>)
    ensures r.Some? ==> r.value in goals && r.value.id == goalId && !r.value.isDeleted
    ensures r.None? <==> forall g :: g in goals ==> g.id != goalId || g.isDeleted
  {
    First(goals, (g: Goal) => g.id == goalId && !g.isDeleted)
  }

  /** `GetGoalUsersAsync`: every sharing row of the goal. */
  function GoalUsersOf(goalUsers: seq<GoalUser>, goalId: Guid): (r: seq<GoalUser>)
    ensures forall gu :: gu in r <==> gu in goalUsers && gu.goalId == goalId
  {
    Filter(goalUsers, (gu: GoalUser) => gu.goalId == goalId)
  }

  /** The table after the row with key (goalId, userId) is removed. */
  function WithoutGoalUser(goalUsers: seq<GoalUser>, goalId: Guid, userId: Guid): (r: seq<GoalUser>)
    ensures !IsGoalSharedWithUser(r, goalId, userId)
    ensures forall gu :: gu in r <==> gu in goalUsers && (gu.goalId != goalId || gu.userId != userId)
  {
    Filter(goalUsers, (gu: GoalUser) => gu.goalId != goalId || gu.userId != userId)
  }

  /** Without a completion filter a query returns exactly the goals of the
      two filtered queries together. */
  lemma CompletionSplits(goals: seq<Goal>, goalUsers: seq<GoalUser>, userIds: seq<Guid>, g: Goal)
    ensures g in GoalsByAccessibleUsers(goals, goalUsers, userIds, None) <==>
      g in GoalsByAccessibleUsers(goals, goalUsers, userIds, Some(true)) ||
      g in GoalsByAccessibleUsers(goals, goalUsers, userIds, Some(false))
    ensures g in GoalsWithUsers(goals, goalUsers, userIds, None) <==>
      g in GoalsWithUsers(goals, goalUsers, userIds, Some(true)) ||
      g in GoalsWithUsers(goals, goalUsers, userIds, Some(false))
  {
    assert CompletionMatches(g, Some(g.isCompleted));
  }

  /** Every goal shared with a user as a guest is among the goals shared with them. */
  lemma NonOwnerSharedAreShared(goals: seq<Goal>, goalUsers: seq<GoalUser>, userId: Guid)
    ensures forall g :: g in NonOwnerSharedGoals(goals, goalUsers, userId) ==> g in SharedGoals(goals, goalUsers, userId)
  {
    forall g | g in NonOwnerSharedGoals(goals, goalUsers, userId)
      ensures g in SharedGoals(goals, goalUsers, userId)
    {
      var gu :| gu in goalUsers && gu.goalId == g.id && gu.userId == userId && !gu.isOwner;
    }
  }

  /** The sharing-row query finds a subset of the owner-or-sharing query, and
      a goal whose owner has no sharing row is returned by the second only. */
  lemma WithUsersWithinAccessible(goals: seq<Goal>, goalUsers: seq<GoalUser>, userIds: seq<Guid>, isCompleted: Option<bool>, g: Goal)
    ensures g in GoalsWithUsers(goals, goalUsers, userIds, isCompleted) ==>
      g in GoalsByAccessibleUsers(goals, goalUsers, userIds, isCompleted)
    ensures (g in goals && !g.isDeleted && g.userId in userIds && CompletionMatches(g, isCompleted)
      && (forall gu :: gu in goalUsers && gu.goalId == g.id ==> gu.userId !in userIds)) ==>
      (g in GoalsByAccessibleUsers(goals, goalUsers, userIds, isCompleted)
        && g !in GoalsWithUsers(goals, goalUsers, userIds, isCompleted))
  {
  }

  /** `AddAsync`. */
  method AddGoal(db: FinanceDb, goal: Goal) returns (r: Goal)
    modifies db`goals
    ensures db.goals == old(db.goals) + [goal] && r == goal
  {
    db.goals := db.goals + [goal];
    r := goal;
  }

  /** `AddWithGoalUserAsync`: the goal and its first sharing row in one save;
      the goal is read back by id, which finds the one just added when ids
      are unique. */
  method AddWithGoalUser(db: FinanceDb, goal: Goal, goalUser: GoalUser) returns (r: Goal)
    requires forall g :: g in db.goals ==> g.id != goal.id
    modifies db`goals, db`goalUsers
    ensures db.goals == old(db.goals) + [goal] && db.goalUsers == old(db.goalUsers) + [goalUser]
    ensures r == goal
  {
    db.goals := db.goals + [goal];
    db.goalUsers := db.goalUsers + [goalUser];
    assert goal in db.goals;
    var found := First(db.goals, (g: Goal) => g.id == goal.id);
    assert found.value == goal;
    r := found.value;
  }

  /** `UpdateAsync`: the stored row with the goal's id is replaced. */
  method UpdateGoal(db: FinanceDb, goal: Goal)
    requires exists i :: 0 <= i < |db.goals| && db.goals[i].id == goal.id
    modifies db`goals
    ensures var i := IndexWhere(old(db.goals), (g: Goal) => g.id == goal.id).value;
      db.goals == old(db.goals)[i := goal]
  {
    var k := IndexWhere(db.goals, (g: Goal) => g.id == goal.id);
    db.goals := db.goals[k.value := goal];
  }

  /** `AddGoalUserAsync`. */
  method AddGoalUser(db: FinanceDb, goalUser: GoalUser) returns (r: GoalUser)
    modifies db`goalUsers
    ensures db.goalUsers == old(db.goalUsers) + [goalUser] && r == goalUser
  {
    db.goalUsers := db.goalUsers + [goalUser];
    r := goalUser;
  }

  /** `RemoveGoalUserAsync`: deletes the stored row with the same key. */
  method RemoveGoalUser(db: FinanceDb, goalUser: GoalUser)
    requires IsGoalSharedWithUser(db.goalUsers, goalUser.goalId, goalUser.userId)
    modifies db`goalUsers
    ensures db.goalUsers == WithoutGoalUser(old(db.goalUsers), goalUser.goalId, goalUser.userId)
  {
    db.goalUsers := WithoutGoalUser(db.goalUsers, goalUser.goalId, goalUser.userId);
  }
}
