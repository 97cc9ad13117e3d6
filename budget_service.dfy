/** BudgetService: monthly spending limits per category, the amount spent
    against each, and the month's status report. */
module BudgetService {
  import opened Wrappers
  import opened Seqs
  import opened Calendar
  import opened Domain
  import opened Store

  datatype CreateBudgetDto = CreateBudgetDto(categoryId: Guid, month: int, year: int, limitAmount: Money)

  datatype UpdateBudgetDto = UpdateBudgetDto(limitAmount: Money)

  datatype BudgetDto = BudgetDto(
    id: Guid, categoryId: Guid, categoryName: string, month: int, year: int,
    limitAmount: Money, spentAmount: Money, remainingAmount: Money, percentageUsed: Money)

  datatype BudgetStatusDto = BudgetStatusDto(
    id: Guid, categoryName: string, month: int, year: int,
    limitAmount: Money, spentAmount: Money, remainingAmount: Money, percentageUsed: Money,
    isExceeded: bool)

  /** The transactions `CalculateSpentAmount` sums: live expenses of the
      category, from one of the user's accounts, dated within [start, end]. */
  function SpentFilter(accounts: seq<Account>, userId: Guid, categoryId: Guid, start: DateTime, end: DateTime): Transaction -> bool {
    (t: Transaction) =>
      !t.isDeleted && IsUserAccount(accounts, userId, t.accountId) && t.categoryId == categoryId
      && t.transactionType == TransactionType.Expense && InRange(t.date, start, end)
  }

  /** `CalculateSpentAmount`: the sum over the range that starts on the first of
      the month and ends one day before the first of the next month; a month
      outside 1..12 makes `new DateTime` throw. */
  function SpentAmount(accounts: seq<Account>, transactions: seq<Transaction>, userId: Guid,
                       categoryId: Guid, month: int, year: int): (r: Result<Money>)
    ensures r.Ok? <==> 1 <= month <= 12
    ensures r.Err? ==> r.error == InvalidArgument
  {
    var start :- MonthStart(year, month);
    Ok(SumOf(Filter(transactions, SpentFilter(accounts, userId, categoryId, start, MonthRangeEnd(start))), Amount))
  }

  /** The calendar reading of the range: an expense counts when it is dated in
      the budget's month, except that on the month's last day only one stamped
      exactly 00:00 counts. */
  function InBudgetMonth(accounts: seq<Account>, userId: Guid, categoryId: Guid, month: int, year: int): Transaction -> bool
    requires 1 <= month <= 12
  {
    (t: Transaction) =>
      !t.isDeleted && IsUserAccount(accounts, userId, t.accountId) && t.categoryId == categoryId
      && t.transactionType == TransactionType.Expense
      && t.date.year == year && t.date.month == month
      && (t.date.day < DaysInMonth(year, month) || t.date.tick == 0)
  }

  lemma SpentInCalendarMonth(accounts: seq<Account>, ts: seq<Transaction>, userId: Guid,
                             categoryId: Guid, month: int, year: int)
    requires 1 <= month <= 12
    ensures SpentAmount(accounts, ts, userId, categoryId, month, year) ==
      Ok(SumOf(Filter(ts, InBudgetMonth(accounts, userId, categoryId, month, year)), Amount))
  {
    var start := MonthStart(year, month).value;
    var p := SpentFilter(accounts, userId, categoryId, start, MonthRangeEnd(start));
    var q := InBudgetMonth(accounts, userId, categoryId, month, year);
    forall t | t in ts ensures p(t) <==> q(t) {
      InMonthRange(t.date, year, month);
    }
    FilterExt(ts, p, q);
  }

  /** With a positive limit the three ways the report expresses overspending
      agree: IsExceeded, more than 100 percent used, and a negative remainder.
      Up to the limit, and with nothing refunded, the percentage lies in 0..100. */
  lemma OverspendingAgrees(spent: Money, limit: Money)
    requires limit > 0.0
    ensures spent > limit <==> Percentage(spent, limit) > 100.0
    ensures spent > limit <==> limit - spent < 0.0
    ensures 0.0 <= spent <= limit ==> 0.0 <= Percentage(spent, limit) <= 100.0
  {
    PercentageOrder(spent, limit);
  }

  /** Without a positive limit nothing counts as used, whatever was spent. */
  lemma NoLimitNoPercentage(spent: Money, limit: Money)
    requires limit <= 0.0
    ensures Percentage(spent, limit) == 0.0
  {
    PercentageMeaning(spent, limit);
  }
  /** One element of `MapBudgetsWithSpending`'s result. */
  function BudgetDtoOf(accounts: seq<Account>, categories: seq<Category>, transactions: seq<Transaction>,
                       userId: Guid, b: Budget): (d: BudgetDto)
    requires 1 <= b.month <= 12
    ensures d.id == b.id && d.categoryId == b.categoryId && d.month == b.month && d.year == b.year
    ensures d.limitAmount == b.limitAmount
    ensures d.spentAmount == SpentAmount(accounts, transactions, userId, b.categoryId, b.month, b.year).value
    ensures d.remainingAmount == d.limitAmount - d.spentAmount
    ensures d.percentageUsed == Percentage(d.spentAmount, d.limitAmount)
  {
    var spent := SpentAmount(accounts, transactions, userId, b.categoryId, b.month, b.year).value;
    BudgetDto(b.id, b.categoryId, CategoryName(categories, b.categoryId), b.month, b.year,
              b.limitAmount, spent, b.limitAmount - spent, Percentage(spent, b.limitAmount))
  }

  /** One element of `GetBudgetStatusAsync`'s result, before the ordering. */
  function StatusOf(accounts: seq<Account>, categories: seq<Category>, transactions: seq<Transaction>,
                    userId: Guid, b: Budget, month: int, year: int): BudgetStatusDto
    requires 1 <= month <= 12
  {
    var spent := SpentAmount(accounts, transactions, userId, b.categoryId, month, year).value;
    BudgetStatusDto(b.id, CategoryName(categories, b.categoryId), month, year, b.limitAmount,
                    spent, b.limitAmount - spent, Percentage(spent, b.limitAmount), spent > b.limitAmount)
  }

  function Statuses(accounts: seq<Account>, categories: seq<Category>, transactions: seq<Transaction>,
                    userId: Guid, budgets: seq<Budget>, month: int, year: int): (r: seq<BudgetStatusDto>)
    requires 1 <= month <= 12
    ensures |r| == |budgets|
    ensures forall i :: 0 <= i < |budgets| ==> r[i] == StatusOf(accounts, categories, transactions, userId, budgets[i], month, year)
  {
    seq(|budgets|, i requires 0 <= i < |budgets| => StatusOf(accounts, categories, transactions, userId, budgets[i], month, year))
  }

  /** The ordering key of the status report. */
  function PercentageKey(s: BudgetStatusDto): real { s.percentageUsed }

  /** `FindAsync(b => b.UserId == userId && b.Month == month && b.Year == year)`. */
  function MonthBudgets(budgets: seq<Budget>, userId: Guid, month: int, year: int): (r: seq<Budget>)
    ensures forall i :: 0 <= i < |r| ==>
      r[i] in budgets && !r[i].isDeleted && r[i].userId == userId && r[i].month == month && r[i].year == year
    ensures forall b :: b in budgets && !b.isDeleted && b.userId == userId && b.month == month && b.year == year ==> b in r
  {
    var r := Filter(budgets, (b: Budget) => !b.isDeleted && b.userId == userId && b.month == month && b.year == year);
    assert forall b :: b in budgets && !b.isDeleted && b.userId == userId && b.month == month && b.year == year ==> b in r by {
      forall b | b in budgets && !b.isDeleted && b.userId == userId && b.month == month && b.year == year ensures b in r {
        var i :| 0 <= i < |budgets| && budgets[i] == b;
      }
    }
    r
  }

  /** Every status reports the requested month and keeps its figures consistent. */
  lemma StatusFigures(accounts: seq<Account>, categories: seq<Category>, transactions: seq<Transaction>,
                      userId: Guid, budgets: seq<Budget>, month: int, year: int)
    requires 1 <= month <= 12
    ensures forall s :: s in Statuses(accounts, categories, transactions, userId, budgets, month, year) ==>
      s.month == month && s.year == year && s.remainingAmount == s.limitAmount - s.spentAmount
      && (s.isExceeded <==> s.spentAmount > s.limitAmount)
  {
  }

  /** The loop of `GetBudgetStatusAsync`, before the ordering. */
  method CollectStatuses(db: FinanceDb, userId: Guid, budgets: seq<Budget>, month: int, year: int)
    returns (r: Result<seq<BudgetStatusDto>>)
    ensures r.Err? <==> !(1 <= month <= 12) && |budgets| > 0
    ensures r.Err? ==> r.error == InvalidArgument
    ensures r.Ok? && 1 <= month <= 12 ==>
      r.value == Statuses(db.accounts, db.categories, db.transactions, userId, budgets, month, year)
    ensures r.Ok? && !(1 <= month <= 12) ==> r.value == []
  {
    var statuses: seq<BudgetStatusDto> := [];
    for i := 0 to |budgets|
      invariant |statuses| == i
      invariant 0 < i ==> 1 <= month <= 12
      invariant 1 <= month <= 12 ==> statuses == Statuses(db.accounts, db.categories, db.transactions, userId, budgets, month, year)[..i]
    {
      var b := budgets[i];
      var spent := SpentAmount(db.accounts, db.transactions, userId, b.categoryId, month, year);
      if spent.Err? {
        return Err(spent.error);
      }
      var remaining := b.limitAmount - spent.value;
      var percentage := Percentage(spent.value, b.limitAmount);
      statuses := statuses + [BudgetStatusDto(b.id, CategoryName(db.categories, b.categoryId), month, year,
                                              b.limitAmount, spent.value, remaining, percentage, spent.value > b.limitAmount)];
    }
    r := Ok(statuses);
  }

  /** `GetBudgetStatusAsync`: one status per budget of the month, most used
      first. A month outside 1..12 fails as soon as there is a budget to
      report on. */
  method GetBudgetStatus(db: FinanceDb, userId: Guid, month: int, year: int) returns (r: Result<seq<BudgetStatusDto>>)
    ensures r.Err? <==> !(1 <= month <= 12) && |MonthBudgets(db.budgets, userId, month, year)| > 0
    ensures r.Err? ==> r.error == InvalidArgument
    ensures r.Ok? ==> |r.value| == |MonthBudgets(db.budgets, userId, month, year)|
    ensures r.Ok? ==> SortedDesc(r.value, PercentageKey)
    ensures r.Ok? && 1 <= month <= 12 ==>
      multiset(r.value) == multiset(Statuses(db.accounts, db.categories, db.transactions, userId,
                                             MonthBudgets(db.budgets, userId, month, year), month, year))
    ensures r.Ok? ==> forall s :: s in r.value ==>
      s.month == month && s.year == year && s.remainingAmount == s.limitAmount - s.spentAmount
      && (s.isExceeded <==> s.spentAmount > s.limitAmount)
  {
    var budgets := MonthBudgets(db.budgets, userId, month, year);
    var statuses := CollectStatuses(db, userId, budgets, month, year);
    if statuses.Err? {
      return Err(statuses.error);
    }
    var sorted := SortDesc(statuses.value, PercentageKey);
    if 1 <= month <= 12 {
      StatusFigures(db.accounts, db.categories, db.transactions, userId, budgets, month, year);
      forall s | s in sorted
        ensures s.month == month && s.year == year && s.remainingAmount == s.limitAmount - s.spentAmount
        ensures s.isExceeded <==> s.spentAmount > s.limitAmount
      {
        assert s in multiset(statuses.value);
      }
    }
    r := Ok(sorted);
  }

  /** `MapBudgetsWithSpending`: one DTO per budget, in order; the first budget
      whose month is outside 1..12 makes the whole call fail. */
  method MapBudgetsWithSpending(db: FinanceDb, budgets: seq<Budget>, userId: Guid) returns (r: Result<seq<BudgetDto>>)
    ensures r.Err? <==> exists i :: 0 <= i < |budgets| && !(1 <= budgets[i].month <= 12)
    ensures r.Err? ==> r.error == InvalidArgument
    ensures r.Ok? ==> |r.value| == |budgets|
    ensures r.Ok? ==> forall i :: 0 <= i < |budgets| ==>
      r.value[i] == BudgetDtoOf(db.accounts, db.categories, db.transactions, userId, budgets[i])
  {
    var dtos: seq<BudgetDto> := [];
    for i := 0 to |budgets|
      invariant |dtos| == i
      invariant forall k :: 0 <= k < i ==> 1 <= budgets[k].month <= 12
      invariant forall k :: 0 <= k < i ==>
        dtos[k] == BudgetDtoOf(db.accounts, db.categories, db.transactions, userId, budgets[k])
    {
      var b := budgets[i];
      var spent := SpentAmount(db.accounts, db.transactions, userId, b.categoryId, b.month, b.year);
      if spent.Err? {
        return Err(spent.error);
      }
      var remaining := b.limitAmount - spent.value;
      var percentage := Percentage(spent.value, b.limitAmount);
      dtos := dtos + [BudgetDto(b.id, b.categoryId, CategoryName(db.categories, b.categoryId), b.month, b.year,
                                b.limitAmount, spent.value, remaining, percentage)];
    }
    r := Ok(dtos);
  }

  /** `GetBudgetsByMonthAsync`. */
  method GetBudgetsByMonth(db: FinanceDb, userId: Guid, month: int, year: int) returns (r: Result<seq<BudgetDto>>)
    ensures r.Err? <==> !(1 <= month <= 12) && |MonthBudgets(db.budgets, userId, month, year)| > 0
    ensures r.Ok? ==> |r.value| == |MonthBudgets(db.budgets, userId, month, year)|
    ensures r.Ok? ==> forall d :: d in r.value ==> d.month == month && d.year == year
  {
    var budgets := MonthBudgets(db.budgets, userId, month, year);
    r := MapBudgetsWithSpending(db, budgets, userId);
    if |budgets| > 0 {
      assert budgets[0].month == month;
    }
    if r.Ok? {
      assert forall i :: 0 <= i < |budgets| ==> r.value[i].month == month && r.value[i].year == year;
    }
  }

  /** `FindAsync(b => b.UserId == userId)`. */
  function UserBudgets(budgets: seq<Budget>, userId: Guid): (r: seq<Budget>)
    ensures forall b :: b in r ==> b in budgets && !b.isDeleted && b.userId == userId
    ensures forall b :: b in budgets && !b.isDeleted && b.userId == userId ==> b in r
  {
    Filter(budgets, (b: Budget) => !b.isDeleted && b.userId == userId)
  }

  /** `GetAllBudgetsAsync`: every live budget of the user, with its spending. */
  method GetAllBudgets(db: FinanceDb, userId: Guid) returns (r: Result<seq<BudgetDto>>)
    ensures r.Err? <==> exists b :: b in UserBudgets(db.budgets, userId) && !(1 <= b.month <= 12)
    ensures r.Ok? ==> |r.value| == |UserBudgets(db.budgets, userId)|
    ensures r.Ok? ==> forall i :: 0 <= i < |r.value| ==>
      r.value[i] == BudgetDtoOf(db.accounts, db.categories, db.transactions, userId, UserBudgets(db.budgets, userId)[i])
  {
    var budgets := UserBudgets(db.budgets, userId);
    r := MapBudgetsWithSpending(db, budgets, userId);
    assert (exists b :: b in budgets && !(1 <= b.month <= 12)) <==>
      (exists i :: 0 <= i < |budgets| && !(1 <= budgets[i].month <= 12));
  }

  /** The lookup Get, Update and Delete share:
      `FindAsync(b => b.Id == budgetId && b.UserId == userId).FirstOrDefault()`. */
  function OwnedBudget(budgetId: Guid, userId: Guid): Budget -> bool {
    (b: Budget) => !b.isDeleted && b.id == budgetId && b.userId == userId
  }

  /** `GetBudgetByIdAsync`: nothing for a budget that is not the user's. */
  method GetBudgetById(db: FinanceDb, budgetId: Guid, userId: Guid) returns (r: Result<Option<BudgetDto>>)
    ensures IndexWhere(db.budgets, OwnedBudget(budgetId, userId)).None? ==> r == Ok(None)
    ensures IndexWhere(db.budgets, OwnedBudget(budgetId, userId)).Some? ==>
      var b := db.budgets[IndexWhere(db.budgets, OwnedBudget(budgetId, userId)).value];
      (r.Ok? <==> 1 <= b.month <= 12)
      && (r.Ok? ==> r == Ok(Some(BudgetDtoOf(db.accounts, db.categories, db.transactions, userId, b))))
  {
    var k := IndexWhere(db.budgets, OwnedBudget(budgetId, userId));
    if k.None? {
      return Ok(None);
    }
    var dtos := MapBudgetsWithSpending(db, [db.budgets[k.value]], userId);
    if dtos.Err? {
      return Err(dtos.error);
    }
    r := Ok(Some(dtos.value[0]));
  }

  /** `FindAsync(b => b.UserId == userId && b.CategoryId == ... && b.Month == ... && b.Year == ...).Any()`. */
  predicate HasBudgetFor(budgets: seq<Budget>, userId: Guid, categoryId: Guid, month: int, year: int) {
    exists b :: b in budgets && !b.isDeleted && b.userId == userId && b.categoryId == categoryId
      && b.month == month && b.year == year
  }

  /** Some row, live or soft-deleted, holds the key (UserId, CategoryId,
      Month, Year): the query filter hides deleted rows from `FindAsync` but
      not from the unique index. */
  predicate KeyTaken(budgets: seq<Budget>, userId: Guid, categoryId: Guid, month: int, year: int) {
    exists b :: b in budgets && b.userId == userId && b.categoryId == categoryId
      && b.month == month && b.year == year
  }

  /** The unique index on (UserId, CategoryId, Month, Year), over every row. */
  predicate UniqueBudgetKeys(budgets: seq<Budget>) {
    forall i, j :: 0 <= i < j < |budgets| ==>
      (budgets[i].userId, budgets[i].categoryId, budgets[i].month, budgets[i].year)
      != (budgets[j].userId, budgets[j].categoryId, budgets[j].month, budgets[j].year)
  }

  /** Once a budget is soft-deleted its key is no longer found by the
      duplicate check, yet the index still holds it: re-creating that budget
      fails at `SaveChanges`. */
  lemma {:induction false} DeletedKeyStaysTaken(budgets: seq<Budget>, i: nat)
    requires UniqueBudgetKeys(budgets) && i < |budgets|
    ensures var b := budgets[i];
      var after := budgets[i := b.(isDeleted := true)];
      KeyTaken(after, b.userId, b.categoryId, b.month, b.year)
      && !HasBudgetFor(after, b.userId, b.categoryId, b.month, b.year)
  {
    var b := budgets[i];
    var after := budgets[i := b.(isDeleted := true)];
    assert after[i] in after;
    forall c | c in after && !c.isDeleted
      ensures (c.userId, c.categoryId, c.month, c.year) != (b.userId, b.categoryId, b.month, b.year)
    {
      var j :| 0 <= j < |after| && after[j] == c;
      assert j != i && c == budgets[j];
      if j < i {
        assert (budgets[j].userId, budgets[j].categoryId, budgets[j].month, budgets[j].year)
          != (budgets[i].userId, budgets[i].categoryId, budgets[i].month, budgets[i].year);
      } else {
        assert (budgets[i].userId, budgets[i].categoryId, budgets[i].month, budgets[i].year)
          != (budgets[j].userId, budgets[j].categoryId, budgets[j].month, budgets[j].year);
      }
    }
  }

  /** `CreateBudgetAsync`. A key held only by a soft-deleted row passes the
      duplicate check and then fails at the unique index, leaving the table
      unchanged. The budget is stored before the DTO is built, so a month
      outside 1..12 leaves the new row in place and then fails. */
  method CreateBudget(db: FinanceDb, dto: CreateBudgetDto, userId: Guid, newId: Guid) returns (r: Result<BudgetDto>)
    requires forall b :: b in db.budgets ==> b.id != newId
    modifies db`budgets
    ensures !OwnsCategory(db.categories, userId, dto.categoryId) ==>
      r == Err(Unauthorized) && db.budgets == old(db.budgets)
    ensures (OwnsCategory(db.categories, userId, dto.categoryId)
             && HasBudgetFor(old(db.budgets), userId, dto.categoryId, dto.month, dto.year)) ==>
      r == Err(InvalidOperation) && db.budgets == old(db.budgets)
    ensures (OwnsCategory(db.categories, userId, dto.categoryId)
             && !HasBudgetFor(old(db.budgets), userId, dto.categoryId, dto.month, dto.year)
             && KeyTaken(old(db.budgets), userId, dto.categoryId, dto.month, dto.year)) ==>
      r == Err(Conflict) && db.budgets == old(db.budgets)
    ensures (OwnsCategory(db.categories, userId, dto.categoryId)
             && !KeyTaken(old(db.budgets), userId, dto.categoryId, dto.month, dto.year)) ==>
      db.budgets == old(db.budgets) + [Budget(newId, userId, dto.categoryId, dto.month, dto.year, dto.limitAmount, false)]
      && (r.Ok? <==> 1 <= dto.month <= 12)
      && (r.Err? ==> r.error == InvalidArgument)
      && (r.Ok? ==> r.value == BudgetDtoOf(db.accounts, db.categories, db.transactions, userId, db.budgets[|db.budgets| - 1]))
    ensures UniqueBudgetKeys(old(db.budgets)) ==> UniqueBudgetKeys(db.budgets)
  {
    if !OwnsCategory(db.categories, userId, dto.categoryId) {
      return Err(Unauthorized);
    }
    if HasBudgetFor(db.budgets, userId, dto.categoryId, dto.month, dto.year) {
      return Err(InvalidOperation);
    }
    if KeyTaken(db.budgets, userId, dto.categoryId, dto.month, dto.year) {
      return Err(Conflict);
    }
    var budget := Budget(newId, userId, dto.categoryId, dto.month, dto.year, dto.limitAmount, false);
    ghost var before := db.budgets;
    db.budgets := db.budgets + [budget];
    if UniqueBudgetKeys(before) {
      forall i, j | 0 <= i < j < |db.budgets|
        ensures (db.budgets[i].userId, db.budgets[i].categoryId, db.budgets[i].month, db.budgets[i].year)
             != (db.budgets[j].userId, db.budgets[j].categoryId, db.budgets[j].month, db.budgets[j].year)
      {
        if j == |before| {
          assert db.budgets[i] in before;
        }
      }
    }
    var dtos := MapBudgetsWithSpending(db, [budget], userId);
    if dtos.Err? {
      return Err(dtos.error);
    }
    r := Ok(dtos.value[0]);
  }

  /** `UpdateBudgetAsync`: only the limit changes; the row is saved before the
      DTO is built. */
  method UpdateBudget(db: FinanceDb, budgetId: Guid, dto: UpdateBudgetDto, userId: Guid) returns (r: Result<BudgetDto>)
    modifies db`budgets
    ensures var k := IndexWhere(old(db.budgets), OwnedBudget(budgetId, userId));
      match k
      case None => r == Err(NotFound) && db.budgets == old(db.budgets)
      case Some(i) =>
        db.budgets == old(db.budgets)[i := old(db.budgets)[i].(limitAmount := dto.limitAmount)]
        && (r.Ok? <==> 1 <= db.budgets[i].month <= 12)
        && (r.Ok? ==> r.value == BudgetDtoOf(db.accounts, db.categories, db.transactions, userId, db.budgets[i]))
    ensures UniqueBudgetKeys(old(db.budgets)) ==> UniqueBudgetKeys(db.budgets)
  {
    var k := IndexWhere(db.budgets, OwnedBudget(budgetId, userId));
    if k.None? {
      return Err(NotFound);
    }
    var budget := db.budgets[k.value].(limitAmount := dto.limitAmount);
    db.budgets := db.budgets[k.value := budget];
    var dtos := MapBudgetsWithSpending(db, [budget], userId);
    if dtos.Err? {
      return Err(dtos.error);
    }
    r := Ok(dtos.value[0]);
  }

  /** `DeleteBudgetAsync`: a soft delete of the user's budget. */
  method DeleteBudget(db: FinanceDb, budgetId: Guid, userId: Guid) returns (r: Outcome)
    modifies db`budgets
    ensures var k := IndexWhere(old(db.budgets), OwnedBudget(budgetId, userId));
      match k
      case None => r == Fail(NotFound) && db.budgets == old(db.budgets)
      case Some(i) => r == Pass && db.budgets == old(db.budgets)[i := old(db.budgets)[i].(isDeleted := true)]
    ensures UniqueBudgetKeys(old(db.budgets)) ==> UniqueBudgetKeys(db.budgets)
  {
    var k := IndexWhere(db.budgets, OwnedBudget(budgetId, userId));
    if k.None? {
      return Fail(NotFound);
    }
    db.budgets := db.budgets[k.value := db.budgets[k.value].(isDeleted := true)];
    r := Pass;
  }
}
