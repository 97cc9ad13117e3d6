# FinanceApp — a verified model of the application core

FinanceApp is a personal and family finance API. A user keeps several kinds of record:

- **accounts**, with an initial balance;
- **transactions** on those accounts (income, expense, or a transfer to another account);
- **categories**;
- **monthly budgets** per category;
- **savings goals**.

Users can form **family groups**, joined by an eight-character invite code. A goal can be shared with members of the owner's groups. A "view context" (own, one member, everyone) decides whose data a listing shows.

Every entity except a goal's sharing row (GoalUser) is soft-deleted. Deleting sets an `IsDeleted` flag, and every query sees only live rows.

This project models, in Dafny:

- the application services: Account, Budget, Dashboard, Transaction, Goal, UserGroup, Category;
- the two custom repositories: UserGroup and Goal;
- the six validator classes.

It then proves properties of that model. The database is a class `Store.FinanceDb` with one sequence field per table. The commands are methods that replace, append or soft-delete rows. The queries are functions over the table sequences.

Module layout, one file each:

- `wrappers`: Option, Result and Outcome.
- `seqs`: filter, map, first-match, sum, sort-by-key, distinct, and their lemmas.
- `calendar`: dates, month starts, `AddMonths`, inclusive ranges.
- `domain`: entities, enums, percentage.
- `store`: `FinanceDb` and the id lookups over live rows.
- One file per service, repository or validator group.

Representation choices:

- `decimal` is modelled as `real`.
- A `Guid` is a `nat`, with `Guid.Empty` as 0.
- The paging parameters are C# `int`s: `Int32` values whose offset product wraps around as unchecked 32-bit arithmetic does.
- A `DateTime` is a valid calendar date plus a tick of the day.
- Enumerations are datatypes with an `Undefined` member for numbers outside the declared range.
- The current time, new GUIDs and the random draws of the invite code are parameters.

## Model

Source paths are relative to the repository root. "Live" means `IsDeleted` is clear.

| member | source | states |
|---|---|---|
| AccountService.BalanceDecomposition | FinanceApp.Application/Services/AccountService.cs:118-142 | the balance is the initial balance plus live incomes, minus live expenses and outgoing transfers, plus incoming transfers, each sum over its own filter |
| AccountService.BalanceOrderIndependent | FinanceApp.Application/Services/AccountService.cs:120-140 | the balance depends only on the multiset of transactions, not on their order |
| AccountService.BalanceSnoc | FinanceApp.Application/Services/AccountService.cs:120-140 | appending one transaction changes an existing account's balance by exactly that transaction's signed effect on the account |
| AccountService.TransferConservesTotal | FinanceApp.Application/Services/AccountService.cs:129-139 | a live transfer from a to b lowers a's balance and raises b's by its amount, so their sum is unchanged |
| AccountService.NonTransferDestinationIgnored | FinanceApp.Application/Services/AccountService.cs:135 | a destination account on an income or expense never affects that account's balance |
| AccountService.NewAccountBalance | FinanceApp.Application/Services/AccountService.cs:52-60 | a freshly added account, with no transaction referring to it, has its initial balance as its balance |
| AccountService.CalculateAccountBalance | FinanceApp.Application/Services/AccountService.cs:109-143 | the returned balance is the balance specification, and 0 for a missing or deleted account |
| AccountService.MapAccountsWithBalance | FinanceApp.Application/Services/AccountService.cs:145-157 | one DTO per account, in order, each carrying that account's computed balance |
| AccountService.UserAccounts | FinanceApp.Application/Services/AccountService.cs:31 | exactly the user's live accounts |
| AccountService.GetAllAccounts | FinanceApp.Application/Services/AccountService.cs:29-33 | one DTO per live account of the user, each with its balance |
| AccountService.GetAccountById | FinanceApp.Application/Services/AccountService.cs:35-46 | nothing exactly when the user owns no live account with that id; otherwise that account with its balance |
| AccountService.ActiveAccounts | FinanceApp.Application/Services/AccountService.cs:105 | exactly the user's live accounts that are active |
| AccountService.GetActiveAccounts | FinanceApp.Application/Services/AccountService.cs:103-107 | one DTO per live active account of the user, each with its balance |
| AccountService.CreateAccount | FinanceApp.Application/Services/AccountService.cs:48-62 | appends an active live account owned by the caller with the fresh id; its reported current balance equals its initial balance |
| AccountService.UpdateAccount | FinanceApp.Application/Services/AccountService.cs:64-86 | not found leaves the table unchanged; otherwise only name, active flag, colour and icon change, and the DTO carries the balance |
| AccountService.DeleteAccount | FinanceApp.Application/Services/AccountService.cs:88-101 | not found leaves the table unchanged; otherwise exactly that row is soft-deleted |
| BudgetService.SpentAmount | FinanceApp.Application/Services/BudgetService.cs:165-181 | defined exactly for months 1..12; any other month fails with InvalidArgument, as the date constructor throws |
| BudgetService.SpentInCalendarMonth | FinanceApp.Application/Services/BudgetService.cs:167-178 | the spending is the sum of the user's live expenses in that category dated in the calendar month, where the range ends at 00:00 on the last day, so an expense later that day is not counted |
| BudgetService.OverspendingAgrees | FinanceApp.Application/Services/BudgetService.cs:135-148 | with a positive limit: over budget iff percentage above 100 iff remaining negative; a spend within the limit gives 0..100 percent |
| BudgetService.NoLimitNoPercentage | FinanceApp.Application/Services/BudgetService.cs:136 | a limit of zero or less gives a percentage of 0 |
| BudgetService.BudgetDtoOf | FinanceApp.Application/Services/BudgetService.cs:189-198 | the DTO copies the budget, its spending is the month's expense sum, remaining is limit minus spent, percentage is spent over limit |
| BudgetService.MonthBudgets | FinanceApp.Application/Services/BudgetService.cs:124-127 | exactly the user's live budgets for that month and year |
| BudgetService.StatusFigures | FinanceApp.Application/Services/BudgetService.cs:135-148 | each status reports the spending, remaining and percentage of its budget, and marks overspending exactly when spent exceeds the limit |
| BudgetService.CollectStatuses | FinanceApp.Application/Services/BudgetService.cs:129-150 | fails with InvalidArgument exactly when the month is invalid and there is a budget; otherwise one status per budget |
| BudgetService.GetBudgetStatus | FinanceApp.Application/Services/BudgetService.cs:122-153 | one status per budget of the month, sorted by percentage used, highest first; fails only for an invalid month with budgets |
| BudgetService.MapBudgetsWithSpending | FinanceApp.Application/Services/BudgetService.cs:183-204 | fails exactly when some budget has a month outside 1..12; otherwise one DTO per budget in order |
| BudgetService.GetBudgetsByMonth | FinanceApp.Application/Services/BudgetService.cs:155-163 | one DTO per budget of that month and year, each reporting that month and year |
| BudgetService.UserBudgets | FinanceApp.Application/Services/BudgetService.cs:37 | exactly the user's live budgets |
| BudgetService.GetAllBudgets | FinanceApp.Application/Services/BudgetService.cs:35-39 | fails exactly when a stored budget of the user has an invalid month; otherwise one DTO per live budget |
| BudgetService.GetBudgetById | FinanceApp.Application/Services/BudgetService.cs:41-51 | nothing when the user has no live budget with that id; otherwise its DTO, or the month error |
| BudgetService.CreateBudget | FinanceApp.Application/Services/BudgetService.cs:53-85 | Unauthorized for a category the user does not own, InvalidOperation for a live duplicate (category, month, year), Conflict when only a soft-deleted row holds that key (the unique index); otherwise the row is appended, and the index's uniqueness over all rows is kept |
| BudgetService.DeletedKeyStaysTaken | FinanceApp.Infrastructure/Data/FinanceAppDbContext.cs:109 | after a soft delete, the duplicate check no longer finds the budget's key but the index still holds it, so re-creating it meets Conflict |
| BudgetService.UpdateBudget | FinanceApp.Application/Services/BudgetService.cs:87-105 | only the limit of the user's budget changes; not found leaves the table unchanged; key uniqueness is kept |
| BudgetService.DeleteBudget | FinanceApp.Application/Services/BudgetService.cs:107-120 | the user's budget is soft-deleted, or not found with no change; key uniqueness is kept |
| DashboardService.TotalsIgnoreTransfers | FinanceApp.Application/Services/DashboardService.cs:55-61 | adding a transfer changes neither the income nor the expense total of any window |
| DashboardService.ExpenseRaisesExpenses | FinanceApp.Application/Services/DashboardService.cs:59-61 | adding an expense inside the window raises the expense total by its amount and leaves income unchanged |
| DashboardService.MonthWindow | FinanceApp.Application/Services/DashboardService.cs:36-37 | the window of a month is the user's live transactions dated in that calendar month, except those on its last day after 00:00 |
| DashboardService.GroupByCategory | FinanceApp.Application/Services/DashboardService.cs:66-73 | one entry per category that occurs, each category once, each with the sum of its expenses |
| DashboardService.TopFive | FinanceApp.Application/Services/DashboardService.cs:74-75 | at most five category totals, sorted by amount descending, none of them smaller than any total left out |
| DashboardService.TopSpendingProperties | FinanceApp.Application/Services/DashboardService.cs:66-93 | the top spending lists only categories that still exist, sorted by amount, at most five, each with its share of the total expenses |
| DashboardService.ResolveTopCategories | FinanceApp.Application/Services/DashboardService.cs:78-93 | keeps, in order, the totals whose category is found, and maps each to its category id, name, colour, amount and percentage of total expenses |
| DashboardService.GetBalanceHistory | FinanceApp.Application/Services/DashboardService.cs:114-152 | one entry per month, oldest first; entry k reports the totals of the month `k - (n-1)` months from now, and the last entry is the current month |
| DashboardService.BuildHistory | FinanceApp.Application/Services/DashboardService.cs:122-149 | the counting-down loop produces entry k for the month `k - (n-1)` months from now |
| DashboardService.MonthTotals | FinanceApp.Application/Services/DashboardService.cs:124-148 | the income, expenses and balance of the month containing the target date |
| DashboardService.EntriesReportTheirMonths | FinanceApp.Application/Services/DashboardService.cs:141-148 | the entries' months are consecutive calendar months ending at the current month |
| DashboardService.Compare | FinanceApp.Application/Services/DashboardService.cs:190-210 | the changes are current minus previous, and each percentage is the change over the previous figure, 0 when that is not positive |
| DashboardService.ComparisonIsCalendarMonths | FinanceApp.Application/Services/DashboardService.cs:154-180 | the comparison sets a calendar month against the month before it, across a change of year |
| DashboardService.ChangeSign | FinanceApp.Application/Services/DashboardService.cs:190-198 | with a positive previous figure, the percentage change is positive iff the figure grew, and zero iff unchanged |
| DashboardService.GetDashboardSummaryByDateRange | FinanceApp.Application/Services/DashboardService.cs:42-112 | totals over the inclusive range ignoring transfers, balance is income minus expenses, the top five expense categories with their shares, a six-month history, and the comparison for the start month |
| DashboardService.GetDashboardSummaryByMonth | FinanceApp.Application/Services/DashboardService.cs:34-40 | InvalidArgument exactly when the month is outside 1..12; otherwise that month and year, with every field of the summary of the range from the first day to 00:00 on the last day: totals, balance, top spending categories, six-month history and comparison |
| DashboardService.GetDashboardSummary | FinanceApp.Application/Services/DashboardService.cs:28-32 | the current month and year, with every field of the summary of that month's range: totals, balance, top spending categories, six-month history and comparison |
| Calendar.MonthStart | FinanceApp.Application/Services/DashboardService.cs:36 | the first day of the month at midnight, defined exactly for months 1..12 |
| Calendar.AddMonths | FinanceApp.Application/Services/DashboardService.cs:124 | moves the month index by n, keeps the time of day, and clamps the day to the length of the target month |
| Calendar.PreviousDay | FinanceApp.Application/Services/DashboardService.cs:37 | strictly earlier than the given date, with the same time of day |
| Calendar.MonthRangeEndOfMonthStart | FinanceApp.Application/Services/DashboardService.cs:37 | one month after the first day, minus one day, is the last day of the same month |
| Calendar.InMonthRange | FinanceApp.Application/Services/BudgetService.cs:167-178 | a date lies in the range from a month's first day to `AddMonths(1).AddDays(-1)` iff it carries that year and month and is not later than 00:00 on the last day |
| Calendar.PreviousMonthStart | FinanceApp.Application/Services/DashboardService.cs:175 | one month before a month's first day is the previous month's first day, January going back to December of the previous year |
| Calendar.AtOrBeforeIsChronological | FinanceApp.Application/Services/DashboardService.cs:52-53 | the date order is the lexicographic order of year, month, day and time |
| Domain.AccountTypeOf | FinanceApp.Domain/Enums/Enums.cs:3-10 | the numbers 1..5 name the five account types and round-trip; any other number is undefined |
| Domain.TransactionTypeOf | FinanceApp.Domain/Enums/Enums.cs:12-17 | the numbers 1..3 name Income, Expense and Transfer and round-trip; any other is undefined |
| Domain.CategoryTypeOf | FinanceApp.Domain/Enums/Enums.cs:19-23 | the numbers 1..2 name Income and Expense and round-trip; any other is undefined |
| Domain.PercentageMeaning | FinanceApp.Application/Services/BudgetService.cs:136 | with a positive whole, the percentage times the whole is the part times 100; otherwise it is 0 |
| Domain.PercentageOrder | FinanceApp.Application/Services/BudgetService.cs:136-148 | with a positive whole: above 100 iff the part exceeds the whole, positive iff the part is, and within 0..100 for a part within 0..whole |
| Store.AccountById | FinanceApp.Application/Services/TransactionService.cs:66 | a live account with that id, or nothing exactly when there is none |
| Store.CategoryById | FinanceApp.Application/Services/BudgetService.cs:56 | a live category with that id, or nothing exactly when there is none |
| Store.TransactionById | FinanceApp.Application/Services/TransactionService.cs:51 | a live transaction with that id, or nothing exactly when there is none |
| Store.OwnsAccountIsUserAccount | FinanceApp.Application/Services/TransactionService.cs:35-58 | with unique ids, "the account looked up by id belongs to the user" and "some live account of the user has that id" agree |
| TransactionService.DetailsOf | FinanceApp.Application/Services/TransactionService.cs:233-245 | the DTO copies the transaction and names its account, category and destination; the destination name is present exactly for a destination account that is still live |
| TransactionService.DeletedAccountShowsFallback | FinanceApp.Application/Services/TransactionService.cs:243 | once the account of a transaction is soft-deleted, its details show the fallback account name |
| TransactionService.MapTransactionsWithDetails | FinanceApp.Application/Services/TransactionService.cs:227-251 | one details DTO per transaction, in order |
| TransactionService.Listing | FinanceApp.Application/Services/TransactionService.cs:41-42 | exactly the transactions that pass the filter, sorted by date, newest first |
| TransactionService.PageProperties | FinanceApp.Application/Services/TransactionService.cs:39-44 | a page holds at most pageSize of the user's live transactions, newest first; it is the slice of the full listing at the page's 32-bit offset, empty at or past the end, and the first page for a negative offset |
| TransactionService.OffsetMeaning | FinanceApp.Application/Services/TransactionService.cs:43 | the offset equals (pageNumber - 1) * pageSize iff that product fits in 32 bits, and is congruent to it modulo 2^32 |
| TransactionService.HugePageWrapsToFirst | FinanceApp.Application/Services/TransactionService.cs:43 | page 2^30 of size 4 has offset -4, so it returns the four newest transactions |
| TransactionService.GetAllTransactions | FinanceApp.Application/Services/TransactionService.cs:32-47 | the details of the requested page, its offset computed with 32-bit wrap-around |
| TransactionService.GetTransactionById | FinanceApp.Application/Services/TransactionService.cs:49-61 | the details exactly when the transaction is live and on an account of the user |
| TransactionService.GetTransactionsByAccount | FinanceApp.Application/Services/TransactionService.cs:171-183 | Unauthorized exactly when the user does not own the account; otherwise its live transactions, newest first |
| TransactionService.GetTransactionsByCategory | FinanceApp.Application/Services/TransactionService.cs:185-197 | Unauthorized exactly when the user does not own the category; otherwise its live transactions, newest first |
| TransactionService.GetTransactionsByType | FinanceApp.Application/Services/TransactionService.cs:199-210 | the user's live transactions of that type, newest first |
| TransactionService.GetTransactionsByDateRange | FinanceApp.Application/Services/TransactionService.cs:212-225 | the user's live transactions dated within the inclusive range, newest first |
| TransactionService.DateRangeIncludesBounds | FinanceApp.Application/Services/TransactionService.cs:217-220 | a transaction dated exactly on either bound is listed |
| TransactionService.TypeListingsSplitLedger | FinanceApp.Application/Services/TransactionService.cs:199-210 | each of the user's transactions appears in the listing of its own type and in no other |
| TransactionService.CreateKeepsLedgerRules | FinanceApp.Application/Services/TransactionService.cs:80-104 | an allowed creation keeps transfers well formed and every category fitting its transaction type |
| TransactionService.CreatedTransferConservesTotal | FinanceApp.Application/Services/TransactionService.cs:87-111 | a created transfer moves its amount from the source balance to the destination balance |
| TransactionService.CreateTransaction | FinanceApp.Application/Services/TransactionService.cs:63-114 | the checks in source order (account owned; category owned; type fits category; for a transfer a present, owned, different destination) with their errors; succeeds iff all pass, and then appends the row |
| TransactionService.UpdateKeepsTransfersWellFormed | FinanceApp.Application/Services/TransactionService.cs:140-144 | an update keeps the type and destination, so well-formed transfers stay well formed |
| TransactionService.UpdateMayBreakCategoryFit | FinanceApp.Application/Services/TransactionService.cs:131-146 | an update to an owned category of the other kind is accepted and leaves an income filed under an expense category |
| TransactionService.UpdateTransaction | FinanceApp.Application/Services/TransactionService.cs:116-149 | not found, or Unauthorized unless both the account and the new category are the user's; otherwise only category, amount, date, description and notes change |
| TransactionService.DeleteTransaction | FinanceApp.Application/Services/TransactionService.cs:151-169 | not found, or Unauthorized for another user's account, with no change; otherwise exactly that row is soft-deleted |
| TransactionService.DeletedTransactionNotFound | FinanceApp.Application/Services/TransactionService.cs:153-168 | with unique ids, a deleted transaction is no longer found by id |
| GoalService.Progress | FinanceApp.Application/Services/GoalService.cs:230-232 | at most 100, 0 without a positive target, exactly 100 iff the target is reached, and never negative for a non-negative amount |
| GoalService.Remaining | FinanceApp.Application/Services/GoalService.cs:233 | never negative, 0 iff the target is reached, and otherwise what the current amount lacks |
| GoalService.ProgressRemainingAgree | FinanceApp.Application/Services/GoalService.cs:230-233 | with a positive target, full progress and nothing remaining coincide |
| GoalService.GoalDtoOf | FinanceApp.Application/Services/GoalService.cs:229-243 | copies the goal; isOwner iff the viewer owns it; sharedWith holds exactly the goal's sharing rows; isShared iff more than one row |
| GoalService.MapGoalsWithProgress | FinanceApp.Application/Services/GoalService.cs:223-249 | one DTO per goal, in order |
| GoalService.GetGoals | FinanceApp.Application/Services/GoalService.cs:36-49 | the scope's error, or the live goals owned by or shared with a user in scope, filtered by completion; the active (176-189) and completed (196-209) listings are the same query with a fixed filter |
| GoalService.OwnViewListsViewableGoals | FinanceApp.Application/Services/GoalService.cs:44-45 | in the own view a goal is listed iff it is live and the user may open it |
| GoalService.ActiveAndCompletedSplit | FinanceApp.Application/Services/GoalService.cs:184-205 | every listed goal is in exactly one of the active and completed listings, according to its flag |
| GoalService.GetSharedGoals | FinanceApp.Application/Services/GoalService.cs:211-221 | the live goals shared with the user as a guest |
| GoalService.GetGoalById | FinanceApp.Application/Services/GoalService.cs:51-68 | the goal exactly when it is live and the user owns it or has a sharing row |
| GoalService.OwnerRowsMakeQueriesAgree | FinanceApp.Application/Services/GoalService.cs:91-98 | when every goal's owner has a sharing row, the sharing-row query and the owner-or-sharing query agree |
| GoalService.CompletedAfterUpdate | FinanceApp.Application/Services/GoalService.cs:140-146 | the completion flag after an update is exactly "current amount reaches target" |
| GoalService.NewGoal | FinanceApp.Application/Services/GoalService.cs:74-86 | a live goal of the caller with the fresh id, completed iff the current amount reaches the target |
| GoalService.CreateGoal | FinanceApp.Application/Services/GoalService.cs:70-110 | appends the goal and its owner row; the DTO shows the owner as sole sharer; completion and owner-row invariants are kept |
| GoalService.ReadBack | FinanceApp.Application/Services/GoalService.cs:103-109 | the goal read back by id, mapped for the viewer |
| GoalService.UpdatedGoal | FinanceApp.Application/Services/GoalService.cs:129-146 | keeps id, owner, start date and deletion flag, and recomputes completion |
| GoalService.UpdateGoal | FinanceApp.Application/Services/GoalService.cs:112-151 | not found, or Unauthorized for a non-owner, with no change; otherwise replaces the row and keeps both invariants |
| GoalService.DeleteGoal | FinanceApp.Application/Services/GoalService.cs:153-169 | not found, or Unauthorized for a non-owner, with no change; otherwise soft-deletes the row and keeps both invariants |
| GoalRepository.GoalsWithUsers | FinanceApp.Infrastructure/Repositories/GoalRepository.cs:17-31 | exactly the live goals with a sharing row for one of the users, matching the completion filter |
| GoalRepository.GoalsByAccessibleUsers | FinanceApp.Infrastructure/Repositories/GoalRepository.cs:33-48 | exactly the live goals owned by or shared with one of the users, matching the completion filter |
| GoalRepository.SharedGoals | FinanceApp.Infrastructure/Repositories/GoalRepository.cs:50-58 | exactly the live goals with a sharing row for the user |
| GoalRepository.NonOwnerSharedGoals | FinanceApp.Infrastructure/Repositories/GoalRepository.cs:60-68 | exactly the live goals with a non-owner sharing row for the user |
| GoalRepository.GoalById | FinanceApp.Infrastructure/Repositories/GoalRepository.cs:70-83 | a live goal with that id, or nothing exactly when there is none |
| GoalRepository.GoalUsersOf | FinanceApp.Infrastructure/Repositories/GoalRepository.cs:126-132 | exactly the sharing rows of the goal |
| GoalRepository.WithoutGoalUser | FinanceApp.Infrastructure/Repositories/GoalRepository.cs:120-124 | every row except those with the key, which is then no longer present |
| GoalRepository.CompletionSplits | FinanceApp.Infrastructure/Repositories/GoalRepository.cs:25-45 | without a completion filter, a query returns exactly the union of its completed and not-completed results |
| GoalRepository.NonOwnerSharedAreShared | FinanceApp.Infrastructure/Repositories/GoalRepository.cs:56-66 | every goal shared with a user as a guest is among the goals shared with them |
| GoalRepository.WithUsersWithinAccessible | FinanceApp.Infrastructure/Repositories/GoalRepository.cs:23-40 | the sharing-row query returns a subset of the owner-or-sharing query, and strictly less for an owner without a row |
| GoalRepository.AddGoal | FinanceApp.Infrastructure/Repositories/GoalRepository.cs:85-90 | appends the goal |
| GoalRepository.AddWithGoalUser | FinanceApp.Infrastructure/Repositories/GoalRepository.cs:92-105 | appends the goal and its first sharing row, and reads back exactly that goal |
| GoalRepository.UpdateGoal | FinanceApp.Infrastructure/Repositories/GoalRepository.cs:107-111 | replaces the row with the goal's id |
| GoalRepository.AddGoalUser | FinanceApp.Infrastructure/Repositories/GoalRepository.cs:113-118 | appends the sharing row |
| GoalRepository.RemoveGoalUser | FinanceApp.Infrastructure/Repositories/GoalRepository.cs:120-124 | removes the row with that key |
| UserGroupRepository.UserGroupIds | FinanceApp.Infrastructure/Repositories/UserGroupRepository.cs:97-103 | exactly the groups of the user's live memberships |
| UserGroupRepository.GroupMemberUserIds | FinanceApp.Infrastructure/Repositories/UserGroupRepository.cs:105-112 | every live member of the given groups, each once |
| UserGroupRepository.SameGroupMeaning | FinanceApp.Infrastructure/Repositories/UserGroupRepository.cs:114-119 | two users are in the same group iff they hold live memberships in a common group; the relation is symmetric, and holds for a user and themself iff they have a live membership |
| UserGroupRepository.Membership | FinanceApp.Infrastructure/Repositories/UserGroupRepository.cs:64-68 | the user's live membership row in the group, present exactly when the user is a member |
| UserGroupRepository.GroupMembers | FinanceApp.Infrastructure/Repositories/UserGroupRepository.cs:83-89 | exactly the live memberships of the group |
| UserGroupRepository.GroupById | FinanceApp.Infrastructure/Repositories/UserGroupRepository.cs:36-42 | a live group with that id, or nothing exactly when there is none |
| UserGroupRepository.GroupByInviteCode | FinanceApp.Infrastructure/Repositories/UserGroupRepository.cs:44-49 | a live group with exactly that code, or nothing exactly when there is none |
| UserGroupRepository.UserGroupsWithMembers | FinanceApp.Infrastructure/Repositories/UserGroupRepository.cs:17-25 | exactly the live groups the user is a live member of |
| UserGroupRepository.GroupByIdWithMembers | FinanceApp.Infrastructure/Repositories/UserGroupRepository.cs:27-34 | the live group with that id if the user is a live member of it, nothing otherwise |
| UserGroupRepository.AddGroup | FinanceApp.Infrastructure/Repositories/UserGroupRepository.cs:51-56 | appends the group |
| UserGroupRepository.UpdateGroup | FinanceApp.Infrastructure/Repositories/UserGroupRepository.cs:58-62 | replaces the row with the group's id |
| UserGroupRepository.AddMember | FinanceApp.Infrastructure/Repositories/UserGroupRepository.cs:70-75 | appends the membership |
| UserGroupRepository.UpdateMember | FinanceApp.Infrastructure/Repositories/UserGroupRepository.cs:77-81 | replaces the row with the membership's id |
| UserGroupService.MemberDtoOf | FinanceApp.Application/Mappings/MappingProfile.cs:70-72 | the member DTO carries the membership's id, user and role |
| UserGroupService.GoalUserDtoOf | FinanceApp.Application/Mappings/MappingProfile.cs:75-76 | the sharing DTO carries the row's user and owner flag |
| UserGroupService.GroupDtoOf | FinanceApp.Application/Mappings/MappingProfile.cs:61-64 | copies the group; its members are exactly the group's live memberships and the count is their number |
| UserGroupService.AccessibleUserIds | FinanceApp.Application/Services/UserGroupService.cs:226-274 | fails only in the member view |
| UserGroupService.AccessibleUserIdsMeaning | FinanceApp.Application/Services/UserGroupService.cs:226-274 | own view is the user alone; the member view succeeds iff a member is named who shares a live group with the user, and otherwise fails with InvalidArgument or Unauthorized; every scope is non-empty without repeats |
| UserGroupService.AllScopeMeaning | FinanceApp.Application/Services/UserGroupService.cs:253-269 | the all view is the user together with exactly those who share a live group with them, each once |
| UserGroupService.MemberScopeOfSelf | FinanceApp.Application/Services/UserGroupService.cs:233-251 | naming oneself in the member view works iff one has a live membership |
| UserGroupService.AlphabetIndex | FinanceApp.Application/Services/UserGroupService.cs:374 | the invite alphabet is the 26 capital letters followed by the ten digits |
| UserGroupService.InviteCodeFrom | FinanceApp.Application/Services/UserGroupService.cs:372-378 | eight draws below 36 give eight capital letters or digits |
| UserGroupService.PicksOf | FinanceApp.Application/Services/UserGroupService.cs:372-378 | a code of that shape gives eight draws below 36 |
| UserGroupService.InviteCodeRoundTrip | FinanceApp.Application/Services/UserGroupService.cs:372-378 | codes and draws correspond one-to-one: every code of the shape is drawn by exactly one sequence |
| UserGroupService.GetUserGroups | FinanceApp.Application/Services/UserGroupService.cs:28-38 | one DTO for each live group the user is a live member of, and nothing else |
| UserGroupService.GetGroupById | FinanceApp.Application/Services/UserGroupService.cs:40-49 | the group exactly when it is live and the user is a live member |
| UserGroupService.GetGroupMembers | FinanceApp.Application/Services/UserGroupService.cs:210-224 | Unauthorized exactly for a non-member; otherwise exactly the group's live members |
| UserGroupService.IsGroupOwnerMeaning | FinanceApp.Application/Services/UserGroupService.cs:87-89 | with unique live memberships, the owner check holds iff the user has a live owner membership in the group |
| UserGroupService.SoftDeleteMember | FinanceApp.Application/Services/UserGroupService.cs:157-162 | soft-deleting a non-owner membership keeps unique memberships and an owner for every group, and ends that user's membership |
| UserGroupService.AddMembership | FinanceApp.Application/Services/UserGroupService.cs:129-143 | adding a membership for a non-member keeps unique memberships and an owner for every group |
| UserGroupService.EditGroupRow | FinanceApp.Application/Services/UserGroupService.cs:93-96 | editing a live group, or deleting one, keeps an owner for every live group |
| UserGroupService.OnlyMemberOfFreshGroup | FinanceApp.Application/Services/UserGroupService.cs:56-72 | a group with a fresh id has its creator's membership as its only member |
| UserGroupService.FreshGroupView | FinanceApp.Application/Services/UserGroupService.cs:73-75 | reading a freshly created group back for its creator finds it |
| UserGroupService.FreshGroupMembers | FinanceApp.Application/Services/UserGroupService.cs:62-75 | the fresh group's member list is its creator alone |
| UserGroupService.CreateGroup | FinanceApp.Application/Services/UserGroupService.cs:51-76 | appends the group with a generated unused code and the creator as owner; the DTO is what the creator reads back, with one member; both invariants are kept |
| UserGroupService.UpdateGroup | FinanceApp.Application/Services/UserGroupService.cs:78-99 | not found, or Unauthorized for a non-owner, with no change; otherwise only name and description change |
| UserGroupService.DeleteGroup | FinanceApp.Application/Services/UserGroupService.cs:101-118 | not found, or Unauthorized for a non-owner, with no change; otherwise the group is soft-deleted |
| UserGroupService.RegenerateInviteCode | FinanceApp.Application/Services/UserGroupService.cs:189-208 | not found, or Unauthorized for a non-owner, with no change; otherwise only the code changes, to a generated code no group had |
| UserGroupService.JoinGroup | FinanceApp.Application/Services/UserGroupService.cs:120-147 | NotFound for an unknown code, InvalidOperation for a live member, Conflict for a former member whose soft-deleted row still holds the (GroupId, UserId) index key; otherwise a plain membership is appended and the DTO is the group re-read for the user, listing the new member; both invariants are kept |
| UserGroupService.LeftKeyStaysTaken | FinanceApp.Infrastructure/Data/FinanceAppDbContext.cs:152 | a soft-deleted membership still holds its index key, so that user's re-joining meets Conflict |
| UserGroupService.LeaveGroup | FinanceApp.Application/Services/UserGroupService.cs:149-164 | NotFound for a non-member and InvalidOperation for the owner, with no change; otherwise the membership is soft-deleted and the user is no longer a member |
| UserGroupService.RemoveMember | FinanceApp.Application/Services/UserGroupService.cs:166-187 | Unauthorized unless the requester owns the group, NotFound for a non-member, InvalidOperation for the owner; otherwise that membership is soft-deleted |
| UserGroupService.InOwnerGroupsMeaning | FinanceApp.Application/Services/UserGroupService.cs:286-297 | "member of one of the owner's groups" is "shares a live group with the owner" |
| UserGroupService.NewSharesShape | FinanceApp.Application/Services/UserGroupService.cs:291-314 | the loop adds guest rows only for targets other than the owner that had none, one per user, and afterwards every such target has a row |
| UserGroupService.ShareRowsProperties | FinanceApp.Application/Services/UserGroupService.cs:291-327 | after sharing, every target and the owner have a row for the goal, and the (goal, user) key stays unique |
| UserGroupService.TargetsChecked | FinanceApp.Application/Services/UserGroupService.cs:291-300 | if every target passed the loop's group check, no target is rejected |
| UserGroupService.TargetRejected | FinanceApp.Application/Services/UserGroupService.cs:296-300 | a target that fails the group check is a witness that the share is rejected |
| UserGroupService.OwnerRowAfterShares | FinanceApp.Application/Services/UserGroupService.cs:316-327 | the loop never adds the owner, so the owner-row check after it sees the old rows |
| UserGroupService.CollectShares | FinanceApp.Application/Services/UserGroupService.cs:291-314 | rejects exactly when some target other than the owner shares no live group with them; otherwise returns exactly the guest rows to add |
| UserGroupService.ShareGoal | FinanceApp.Application/Services/UserGroupService.cs:276-331 | NotFound unless the user owns the live goal, InvalidOperation with nothing saved on a rejected target; otherwise appends the guest rows and, if missing, the owner's row |
| UserGroupService.UnshareGoal | FinanceApp.Application/Services/UserGroupService.cs:333-352 | NotFound unless the user owns the goal, InvalidOperation for unsharing oneself; otherwise that user's row is gone and the owner's rows stay |
| UserGroupService.GetGoalUsers | FinanceApp.Application/Services/UserGroupService.cs:354-370 | NotFound exactly for a missing goal, Unauthorized exactly for a viewer who may not open it; otherwise exactly the goal's sharing rows |
| CategoryService.ToDto | FinanceApp.Application/Mappings/MappingProfile.cs:23 | the DTO copies the category's id, name, type, colour and icon |
| CategoryService.UserCategories | FinanceApp.Application/Services/CategoryService.cs:28 | exactly the user's live categories |
| CategoryService.GetAllCategories | FinanceApp.Application/Services/CategoryService.cs:26-30 | one DTO per live category of the user, and nothing else |
| CategoryService.GetCategoryById | FinanceApp.Application/Services/CategoryService.cs:32-37 | nothing exactly when the user has no live category with that id; otherwise its DTO |
| CategoryService.GetCategoriesByType | FinanceApp.Application/Services/CategoryService.cs:86-90 | exactly the user's live categories of that type |
| CategoryService.ByTypeWithinAll | FinanceApp.Application/Services/CategoryService.cs:86-90 | a category appears in the full listing and in the listing of its own type, and in no other type's listing |
| CategoryService.NewCategory | FinanceApp.Application/Services/CategoryService.cs:43-45 | a live category of the caller with the fresh id, copying the request |
| CategoryService.CreateCategory | FinanceApp.Application/Services/CategoryService.cs:39-49 | appends the new category and returns its DTO |
| CategoryService.CreatedCategoryFound | FinanceApp.Application/Services/CategoryService.cs:39-49 | the created category is what the caller then gets by its id |
| CategoryService.UpdateCategory | FinanceApp.Application/Services/CategoryService.cs:51-69 | not found with no change; otherwise only name, colour and icon change, the type and owner stay |
| CategoryService.DeleteCategory | FinanceApp.Application/Services/CategoryService.cs:71-84 | not found with no change; otherwise exactly that row is soft-deleted |
| CategoryService.DeletedCategoryGone | FinanceApp.Application/Services/CategoryService.cs:71-84 | with unique ids, a deleted category can no longer be found |
| CategoryService.DefaultCategory | FinanceApp.Application/Services/CategoryService.cs:96-119 | default i is live, owned by the user, with the i-th id, an expense for the first nine and an income after them |
| CategoryService.DefaultCategories | FinanceApp.Application/Services/CategoryService.cs:96-114 | thirteen defaults, the i-th being default i |
| CategoryService.DefaultsPartition | FinanceApp.Application/Services/CategoryService.cs:96-114 | the first nine defaults are expense categories and the last four income categories |
| CategoryService.DefaultsShape | FinanceApp.Application/Services/CategoryService.cs:96-114 | thirteen live defaults of the user: nine expense and four income |
| CategoryService.DefaultsKeepIdsUnique | FinanceApp.Application/Services/CategoryService.cs:116-119 | distinct fresh ids keep the table's ids unique |
| CategoryService.CreateDefaultCategories | FinanceApp.Application/Services/CategoryService.cs:92-120 | the loop appends the thirteen defaults in order |
| Validators.Utf16Length | FinanceApp.Application/Validators/AccountValidators.cs:10-12 | the string length the length rules compare: between one and two units per character, one for each character of the Basic Multilingual Plane |
| Validators.LengthLimitCountsUnits | FinanceApp.Application/Validators/AccountValidators.cs:10-12 | a string within a limit has at most that many characters, and a full-length string with a character beyond the Basic Multilingual Plane exceeds it |
| Validators.WideCharCountsTwice | FinanceApp.Application/Validators/AccountValidators.cs:10-12 | a character beyond the Basic Multilingual Plane adds at least one unit |
| Validators.RequiredText | FinanceApp.Application/Validators/AccountValidators.cs:10-12 | reports NotEmpty iff the text is blank and MaximumLength iff it is too long, nothing else; passes iff neither |
| Validators.OptionalText | FinanceApp.Application/Validators/UserGroupValidators.cs:14-15 | an absent text passes; a present one passes iff within the limit |
| Validators.ValidateCreateAccount | FinanceApp.Application/Validators/AccountValidators.cs:8-16 | passes iff the name is non-blank and within 100 units and the type is a declared member; IsInEnum reported iff it is not |
| Validators.ValidateUpdateAccount | FinanceApp.Application/Validators/AccountValidators.cs:21-26 | passes iff the name is non-blank and within 100 units |
| Validators.AcceptedAccountType | FinanceApp.Application/Validators/AccountValidators.cs:14-15 | an accepted type is one of the numbers 1..5 and round-trips |
| Validators.ValidateCreateCategory | FinanceApp.Application/Validators/CategoryValidators.cs:8-16 | passes iff the name is non-blank and within 100 units and the type is Income or Expense |
| Validators.ValidateUpdateCategory | FinanceApp.Application/Validators/CategoryValidators.cs:21-26 | passes iff the name is non-blank and within 100 units |
| Validators.AcceptedCategoryListedOnce | FinanceApp.Application/Validators/CategoryValidators.cs:14-15 | an accepted category, once created, is listed under exactly one of income and expense |
| Validators.DestinationRules | FinanceApp.Application/Validators/TransactionValidators.cs:27-33 | NotEqual iff a destination equals the source, NotEmpty iff a transfer has no destination; a present `Guid.Empty` passes, since `NotEmpty` on a `Guid?` only rejects null |
| Validators.EmptyDestinationPasses | FinanceApp.Application/Validators/TransactionValidators.cs:31-33 | a transfer to `Guid.Empty` from a non-empty account passes both destination rules |
| Validators.ValidateCreateTransaction | FinanceApp.Application/Validators/TransactionValidators.cs:11-33 | passes iff account and category are non-empty, the amount positive, the description non-blank within 500 units, the type declared and the destination rules hold |
| Validators.ValidateUpdateTransaction | FinanceApp.Application/Validators/TransactionValidators.cs:41-49 | passes iff the category is non-empty, the amount positive and the description non-blank within 500 units |
| Validators.AcceptedTransactionShape | FinanceApp.Application/Validators/TransactionValidators.cs:27-33 | for an accepted request the service's checks reduce to ownership and category fit, since the destination is present and differs |
| Validators.AcceptedTransferConserves | FinanceApp.Application/Validators/TransactionValidators.cs:17-33 | an accepted transfer strictly lowers the source balance, strictly raises the destination's, and keeps their sum |
| Validators.ValidateCreateBudget | FinanceApp.Application/Validators/BudgetValidators.cs:10-21 | passes iff the category is non-empty, the month in 1..12, the year in 2000..2100 and the limit positive |
| Validators.ValidateUpdateBudget | FinanceApp.Application/Validators/BudgetValidators.cs:29-30 | passes iff the limit is positive |
| Validators.AcceptedBudgetMonth | FinanceApp.Application/Validators/BudgetValidators.cs:13-14 | an accepted month has a first day and a computable spending |
| Validators.ValidateCreateGoal | FinanceApp.Application/Validators/GoalValidators.cs:10-25 | passes iff the name is valid, the target positive, the current amount non-negative, the start date set and any target date strictly later |
| Validators.ValidateUpdateGoal | FinanceApp.Application/Validators/GoalValidators.cs:33-41 | passes iff the name is valid, the target positive and the current amount non-negative |
| Validators.AcceptedGoalFigures | FinanceApp.Application/Validators/GoalValidators.cs:14-25 | an accepted goal has progress within 0..100, remaining within 0..target, and a target date after the start date |
| Validators.ValidateCreateUserGroup | FinanceApp.Application/Validators/UserGroupValidators.cs:10-15 | passes iff the name is non-blank within 100 units and any description is within 500 |
| Validators.ValidateUpdateUserGroup | FinanceApp.Application/Validators/UserGroupValidators.cs:23-28 | passes iff the name is non-blank within 100 units and any description is within 500 |
| Validators.ValidateJoinGroup | FinanceApp.Application/Validators/UserGroupValidators.cs:36-38 | passes iff the code is non-blank and within 20 units |
| Validators.ValidateShareGoal | FinanceApp.Application/Validators/UserGroupValidators.cs:46-50 | passes iff the goal id is non-empty and at least one user is named |
| Validators.ValidateUnshareGoal | FinanceApp.Application/Validators/UserGroupValidators.cs:58-62 | passes iff both ids are non-empty |
| Validators.GeneratedCodesAccepted | FinanceApp.Application/Validators/UserGroupValidators.cs:36-38 | every generated invite code passes the join rules |

## Left out

- I/O, asynchrony, and the atomicity of `SaveChangesAsync`. Each service call is one sequential step on the store, and concurrent requests are not modelled.
- Logging and exceptions other than the domain errors. The middleware maps exceptions to HTTP responses; here they are the `Err`/`Fail` values NotFound, Unauthorized, InvalidOperation and InvalidArgument.
- `DateTime.UtcNow`, `Guid.NewGuid()` and `Random.Next(36)` are parameters (`now`, fresh ids, `picks`). Freshness and uniqueness of generated ids are preconditions.
- The possibility that a generated invite code clashes with an existing one is excluded by a freshness precondition. The source draws once and relies on the database's unique index.
- `DateTimeKind`, UTC conversion, and the year range 1..9999. Dates are calendar dates with a time of day. Only their order, month arithmetic and day clamping are modelled.
- `decimal` precision and rounding. Amounts are exact reals, so a percentage or a division never rounds.
- User names, e-mail addresses and audit timestamps (CreatedAt, UpdatedAt, JoinedAt, AddedAt) in entities and DTOs. They come from navigation properties or the clock and do not affect any decision.
- Entity Framework's relationship fix-up and change tracking. The share loop is assumed to see the rows it added earlier, so a repeated target gets one row.
- The generic repository (`IRepository<T>`) is not part of this model beyond what the services use:
  - `GetByIdAsync` is the first live row with the id;
  - `FindAsync` is a filter over live rows;
  - `DeleteAsync` sets `IsDeleted`.
- Group scopes ignore whether the group itself is deleted. The membership queries filter only membership rows, and the model follows them.
- Undefined enum values reaching a service, and the `default` branch of the view-context switch. The validators reject undefined numbers first, and the view-context datatype has exactly three members.
- FluentValidation's messages, cascade modes and localisation. A validator returns, in rule order, the property and rule it broke.
- `GoalService` DTO shape: the model follows the fields the service's mapping code fills, not the field list in the DTO declaration file where the two differ.
- `BudgetService.CreateBudget` with a month outside 1..12 stores the row and then fails while mapping it. The model keeps that order. `Validators.AcceptedBudgetMonth` shows that an accepted request never reaches it.
- `TransactionService.CreateKeepsLedgerRules`, `GoalRepository.WithUsersWithinAccessible` and `CategoryService.ByTypeWithinAll` follow directly from the definitions they relate, and are stated for the reader rather than for their proof.
- Controllers, model binders, the `ViewContext` type converter, the mapping profile, authentication (`AuthService`), migrations and the rest of the `DbContext` configuration (keys, foreign keys, cascade rules, column types) are outside the modelled core. The model relies on three of its unique indexes: Budget (UserId, CategoryId, Month, Year) at FinanceAppDbContext.cs:109 and UserGroupMember (GroupId, UserId) at :152, both modelled as a `Conflict` failure; UserGroup.InviteCode at :138 is replaced by a freshness precondition, as stated above.
