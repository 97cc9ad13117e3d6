/** DashboardService: income and expense totals over a date range, the five
    categories with the largest expenses, a month-by-month history and the
    comparison with the previous month. */
module DashboardService {
  import opened Wrappers
  import opened Seqs
  import opened Calendar
  import opened Domain
  import opened Store

  /** The service leaves UserId and UserName at their defaults; they are not modelled. */
  datatype CategorySpendingDto = CategorySpendingDto(
    categoryId: Guid, categoryName: string, amount: Money, percentage: Money, color: Option<string>)

  datatype MonthlyBalanceDto = MonthlyBalanceDto(
    month: int, year: int, income: Money, expenses: Money, balance: Money)

  datatype ComparisonDto = ComparisonDto(
    currentMonthIncome: Money, previousMonthIncome: Money, incomeChange: Money, incomeChangePercentage: Money,
    currentMonthExpenses: Money, previousMonthExpenses: Money, expensesChange: Money, expensesChangePercentage: Money)

  datatype DashboardSummaryDto = DashboardSummaryDto(
    totalIncome: Money, totalExpenses: Money, balance: Money, month: int, year: int,
    topSpendingCategories: seq<CategorySpendingDto>, balanceHistory: seq<MonthlyBalanceDto>,
    comparison: ComparisonDto)

  /** The months of history the summary asks for. */
  const HistoryMonths: nat := 6

  /** How many categories the summary ranks. */
  const TopCount: nat := 5

  function Window(accounts: seq<Account>, ts: seq<Transaction>, userId: Guid, lo: DateTime, hi: DateTime): seq<Transaction> {
    Filter(ts, InWindow(accounts, userId, lo, hi))
  }

  function OfType(k: TransactionType): Transaction -> bool {
    (t: Transaction) => t.transactionType == k
  }

  /** `Where(t => t.Type == k).Sum(t => t.Amount)`. */
  function TotalOf(ts: seq<Transaction>, k: TransactionType): Money {
    SumOf(Filter(ts, OfType(k)), Amount)
  }

  /** Transfers enter neither the income nor the expense total. */
  lemma TotalsIgnoreTransfers(accounts: seq<Account>, ts: seq<Transaction>, userId: Guid,
                              lo: DateTime, hi: DateTime, t: Transaction)
    requires t.transactionType == Transfer
    ensures TotalOf(Window(accounts, ts + [t], userId, lo, hi), TransactionType.Income) ==
            TotalOf(Window(accounts, ts, userId, lo, hi), TransactionType.Income)
    ensures TotalOf(Window(accounts, ts + [t], userId, lo, hi), TransactionType.Expense) ==
            TotalOf(Window(accounts, ts, userId, lo, hi), TransactionType.Expense)
  {
    var w := Window(accounts, ts, userId, lo, hi);
    FilterSnoc(ts, t, InWindow(accounts, userId, lo, hi));
    if InWindow(accounts, userId, lo, hi)(t) {
      assert Window(accounts, ts + [t], userId, lo, hi) == w + [t];
      FilterSnoc(w, t, OfType(TransactionType.Income));
      FilterSnoc(w, t, OfType(TransactionType.Expense));
      assert Filter(w + [t], OfType(TransactionType.Income)) == Filter(w, OfType(TransactionType.Income));
      assert Filter(w + [t], OfType(TransactionType.Expense)) == Filter(w, OfType(TransactionType.Expense));
    } else {
      assert Window(accounts, ts + [t], userId, lo, hi) == w;
    }
  }

  /** An expense of the user in the window raises the expense total by its
      amount and leaves the income total alone. */
  lemma ExpenseRaisesExpenses(accounts: seq<Account>, ts: seq<Transaction>, userId: Guid,
                              lo: DateTime, hi: DateTime, t: Transaction)
    requires t.transactionType == TransactionType.Expense && InWindow(accounts, userId, lo, hi)(t)
    ensures TotalOf(Window(accounts, ts + [t], userId, lo, hi), TransactionType.Expense) ==
            TotalOf(Window(accounts, ts, userId, lo, hi), TransactionType.Expense) + t.amount
    ensures TotalOf(Window(accounts, ts + [t], userId, lo, hi), TransactionType.Income) ==
            TotalOf(Window(accounts, ts, userId, lo, hi), TransactionType.Income)
  {
    var w := Window(accounts, ts, userId, lo, hi);
    FilterSnoc(ts, t, InWindow(accounts, userId, lo, hi));
    assert Window(accounts, ts + [t], userId, lo, hi) == w + [t];
    FilterSnoc(w, t, OfType(TransactionType.Income));
    FilterSnoc(w, t, OfType(TransactionType.Expense));
    var e := Filter(w, OfType(TransactionType.Expense));
    assert Filter(w + [t], OfType(TransactionType.Income)) == Filter(w, OfType(TransactionType.Income));
    assert Filter(w + [t], OfType(TransactionType.Expense)) == e + [t];
    SumOfSnoc(e, t, Amount);
  }

  /** The window a month's first day builds holds the user's transactions
      dated in that calendar month, except those on its last day after 00:00. */
  lemma MonthWindow(accounts: seq<Account>, ts: seq<Transaction>, userId: Guid, y: int, m: int)
    requires 1 <= m <= 12
    ensures Window(accounts, ts, userId, MonthStart(y, m).value, MonthRangeEnd(MonthStart(y, m).value)) ==
      Filter(ts, (t: Transaction) => !t.isDeleted && IsUserAccount(accounts, userId, t.accountId)
                 && t.date.year == y && t.date.month == m && (t.date.day < DaysInMonth(y, m) || t.date.tick == 0))
  {
    var lo := MonthStart(y, m).value;
    forall t | t in ts ensures InRange(t.date, lo, MonthRangeEnd(lo)) <==>
      t.date.year == y && t.date.month == m && (t.date.day < DaysInMonth(y, m) || t.date.tick == 0)
    {
      InMonthRange(t.date, y, m);
    }
    FilterExt(ts, InWindow(accounts, userId, lo, MonthRangeEnd(lo)),
      (t: Transaction) => !t.isDeleted && IsUserAccount(accounts, userId, t.accountId)
        && t.date.year == y && t.date.month == m && (t.date.day < DaysInMonth(y, m) || t.date.tick == 0));
  }

  /** One group of `GroupBy(t => t.CategoryId).Select(g => new { g.Key, Amount = g.Sum(...) })`. */
  datatype CategoryTotal = CategoryTotal(categoryId: Guid, amount: Money)

  function CategoryOf(t: Transaction): Guid { t.categoryId }

  function InCategory(id: Guid): Transaction -> bool {
    (t: Transaction) => t.categoryId == id
  }

  function CategorySum(expenses: seq<Transaction>, id: Guid): Money {
    SumOf(Filter(expenses, InCategory(id)), Amount)
  }

  function TotalFor(expenses: seq<Transaction>): Guid -> CategoryTotal {
    (id: Guid) => CategoryTotal(id, CategorySum(expenses, id))
  }

  function CategoryIds(expenses: seq<Transaction>): seq<Guid> {
    Map(expenses, CategoryOf)
  }

  /** The groups, in order of each category's first occurrence: one per
      category, each with that category's sum. */
  function GroupByCategory(expenses: seq<Transaction>): (r: seq<CategoryTotal>)
    ensures forall g :: g in r ==> g.amount == CategorySum(expenses, g.categoryId)
    ensures forall t :: t in expenses ==> TotalFor(expenses)(t.categoryId) in r
    ensures forall i, j :: 0 <= i < j < |r| ==> r[i].categoryId != r[j].categoryId
    ensures forall g :: g in r ==> g.categoryId in CategoryIds(expenses)
  {
    var ids := Distinct(CategoryIds(expenses));
    var r := Map(ids, TotalFor(expenses));
    forall t | t in expenses ensures TotalFor(expenses)(t.categoryId) in r {
      MapMember(expenses, CategoryOf, t);
      MapMember(ids, TotalFor(expenses), t.categoryId);
    }
    forall g | g in r ensures g.categoryId in CategoryIds(expenses) && g.amount == CategorySum(expenses, g.categoryId) {
      var i :| 0 <= i < |r| && r[i] == g;
      assert ids[i] in ids;
    }
    r
  }

  function AmountKey(g: CategoryTotal): real { g.amount }

  /** `OrderByDescending(x => x.Amount).Take(5)`: at most five groups, largest
      first, and none of the groups left out is larger than one kept. */
  function TopFive(expenses: seq<Transaction>): (r: seq<CategoryTotal>)
    ensures |r| == if |GroupByCategory(expenses)| < TopCount then |GroupByCategory(expenses)| else TopCount
    ensures SortedDesc(r, AmountKey)
    ensures forall g :: g in r ==> g in GroupByCategory(expenses)
    ensures forall g, h :: g in GroupByCategory(expenses) && g !in r && h in r ==> g.amount <= h.amount
  {
    var groups := GroupByCategory(expenses);
    var sorted := SortDesc(groups, AmountKey);
    TakeSortedDesc(sorted, TopCount, AmountKey);
    SameElements(sorted, groups);
    SameElements(groups, sorted);
    Take(sorted, TopCount)
  }

  /** `GetByIdAsync(item.CategoryId) != null`. */
  function Resolves(categories: seq<Category>): CategoryTotal -> bool {
    (g: CategoryTotal) => CategoryById(categories, g.categoryId).Some?
  }

  function SpendingOf(categories: seq<Category>, g: CategoryTotal, totalExpenses: Money): CategorySpendingDto
    requires CategoryById(categories, g.categoryId).Some?
  {
    var c := CategoryById(categories, g.categoryId).value;
    CategorySpendingDto(g.categoryId, c.name, g.amount, Percentage(g.amount, totalExpenses), c.color)
  }

  function SpendingKey(d: CategorySpendingDto): real { d.amount }

  /** The top list of the summary: the five largest groups, without those
      whose category the repository cannot find. */
  function TopSpending(categories: seq<Category>, expenses: seq<Transaction>, totalExpenses: Money): seq<CategorySpendingDto> {
    SpendingsOf(categories, Filter(TopFive(expenses), Resolves(categories)), totalExpenses)
  }

  /** The DTOs of groups whose categories all resolve, in order. */
  function SpendingsOf(categories: seq<Category>, kept: seq<CategoryTotal>, totalExpenses: Money): (r: seq<CategorySpendingDto>)
    requires forall i :: 0 <= i < |kept| ==> CategoryById(categories, kept[i].categoryId).Some?
    ensures |r| == |kept|
    ensures forall i :: 0 <= i < |r| ==> r[i] == SpendingOf(categories, kept[i], totalExpenses)
  {
    seq(|kept|, i requires 0 <= i < |kept| => SpendingOf(categories, kept[i], totalExpenses))
  }

  lemma SpendingsSorted(categories: seq<Category>, kept: seq<CategoryTotal>, totalExpenses: Money)
    requires forall i :: 0 <= i < |kept| ==> CategoryById(categories, kept[i].categoryId).Some?
    requires SortedDesc(kept, AmountKey)
    ensures SortedDesc(SpendingsOf(categories, kept, totalExpenses), SpendingKey)
  {
    var r := SpendingsOf(categories, kept, totalExpenses);
    forall i, j | 0 <= i < j < |r| ensures SpendingKey(r[i]) >= SpendingKey(r[j]) {
      assert AmountKey(kept[i]) >= AmountKey(kept[j]);
    }
  }

  lemma SpendingsMember(categories: seq<Category>, kept: seq<CategoryTotal>, totalExpenses: Money, g: CategoryTotal)
    requires forall i :: 0 <= i < |kept| ==> CategoryById(categories, kept[i].categoryId).Some?
    requires g in kept
    ensures Resolves(categories)(g)
    ensures SpendingOf(categories, g, totalExpenses) in SpendingsOf(categories, kept, totalExpenses)
  {
    var k :| 0 <= k < |kept| && kept[k] == g;
    assert SpendingsOf(categories, kept, totalExpenses)[k] == SpendingOf(categories, g, totalExpenses);
  }

  /** At most five entries, largest first; each is a category the repository
      finds, with its name and colour, its expense sum and its share of all
      expenses; and every top group whose category is found is listed. */
  lemma TopSpendingProperties(categories: seq<Category>, expenses: seq<Transaction>, totalExpenses: Money)
    ensures var r := TopSpending(categories, expenses, totalExpenses);
      |r| <= TopCount
      && SortedDesc(r, SpendingKey)
      && (forall i :: 0 <= i < |r| ==>
        r[i].amount == CategorySum(expenses, r[i].categoryId)
        && CategoryById(categories, r[i].categoryId).Some?
        && r[i].categoryName == CategoryById(categories, r[i].categoryId).value.name
        && r[i].color == CategoryById(categories, r[i].categoryId).value.color
        && r[i].percentage == Percentage(r[i].amount, totalExpenses))
      && (forall g :: g in TopFive(expenses) && Resolves(categories)(g) ==> SpendingOf(categories, g, totalExpenses) in r)
  {
    var top := TopFive(expenses);
    var kept := Filter(top, Resolves(categories));
    var r := SpendingsOf(categories, kept, totalExpenses);
    FilterSortedDesc(top, Resolves(categories), AmountKey);
    SpendingsSorted(categories, kept, totalExpenses);
    forall i | 0 <= i < |r| ensures r[i].amount == CategorySum(expenses, r[i].categoryId) {
      assert kept[i] in kept;
      assert kept[i] in GroupByCategory(expenses);
    }
    forall g | g in top && Resolves(categories)(g) ensures SpendingOf(categories, g, totalExpenses) in r {
      assert g in kept;
      SpendingsMember(categories, kept, totalExpenses, g);
    }
  }

  /** The loop that resolves each top group's category and drops the ones not found. */
  method ResolveTopCategories(categories: seq<Category>, top: seq<CategoryTotal>, totalExpenses: Money)
    returns (r: seq<CategorySpendingDto>)
    ensures r == SpendingsOf(categories, Filter(top, Resolves(categories)), totalExpenses)
  {
    r := [];
    for i := 0 to |top|
      invariant r == SpendingsOf(categories, Filter(top[..i], Resolves(categories)), totalExpenses)
    {
      ResolveStep(categories, top, i, totalExpenses);
      var category := CategoryById(categories, top[i].categoryId);
      if category.Some? {
        var item := top[i];
        var dto := CategorySpendingDto(item.categoryId, category.value.name, item.amount,
                                       Percentage(item.amount, totalExpenses), category.value.color);
        assert dto == SpendingOf(categories, item, totalExpenses);
        r := r + [dto];
      }
    }
    assert top[..|top|] == top;
  }

  /** One step of that loop: the next group is appended when it resolves. */
  lemma ResolveStep(categories: seq<Category>, top: seq<CategoryTotal>, i: nat, totalExpenses: Money)
    requires i < |top|
    ensures Resolves(categories)(top[i]) ==>
      SpendingsOf(categories, Filter(top[..i + 1], Resolves(categories)), totalExpenses)
      == SpendingsOf(categories, Filter(top[..i], Resolves(categories)), totalExpenses)
         + [SpendingOf(categories, top[i], totalExpenses)]
    ensures !Resolves(categories)(top[i]) ==>
      Filter(top[..i + 1], Resolves(categories)) == Filter(top[..i], Resolves(categories))
  {
    assert top[..i + 1] == top[..i] + [top[i]];
    FilterSnoc(top[..i], top[i], Resolves(categories));
    if Resolves(categories)(top[i]) {
      SpendingsSnoc(categories, Filter(top[..i], Resolves(categories)), top[i], totalExpenses);
    }
  }

  lemma SpendingsSnoc(categories: seq<Category>, kept: seq<CategoryTotal>, g: CategoryTotal, totalExpenses: Money)
    requires forall i :: 0 <= i < |kept| ==> CategoryById(categories, kept[i].categoryId).Some?
    requires CategoryById(categories, g.categoryId).Some?
    ensures SpendingsOf(categories, kept + [g], totalExpenses)
         == SpendingsOf(categories, kept, totalExpenses) + [SpendingOf(categories, g, totalExpenses)]
  {
    var whole := kept + [g];
    assert forall i :: 0 <= i < |whole| ==> CategoryById(categories, whole[i].categoryId).Some? by {
      forall i | 0 <= i < |whole| ensures CategoryById(categories, whole[i].categoryId).Some? {
        if i < |kept| {
          assert whole[i] == kept[i];
        }
      }
    }
  }

  /** One entry of the history, for the month `target` falls in. */
  function MonthEntry(accounts: seq<Account>, ts: seq<Transaction>, userId: Guid, target: DateTime): MonthlyBalanceDto {
    var start := MonthStart(target.year, target.month).value;
    var w := Window(accounts, ts, userId, start, MonthRangeEnd(start));
    var income := TotalOf(w, TransactionType.Income);
    var expenses := TotalOf(w, TransactionType.Expense);
    MonthlyBalanceDto(target.month, target.year, income, expenses, income - expenses)
  }

  /** The month an entry reports, counted from January of year 0. */
  function EntryMonthIndex(e: MonthlyBalanceDto): int { e.year * 12 + e.month - 1 }

  /** `GetBalanceHistoryAsync`: one entry per month for the `numberOfMonths`
      months that end with the month of `now`, oldest first. */
  method GetBalanceHistory(db: FinanceDb, userId: Guid, numberOfMonths: nat, now: DateTime)
    returns (history: seq<MonthlyBalanceDto>)
    ensures |history| == numberOfMonths
    ensures forall k :: 0 <= k < |history| ==>
      history[k] == MonthEntry(db.accounts, db.transactions, userId, AddMonths(now, k - (numberOfMonths - 1)))
    ensures forall k :: 0 <= k < |history| ==>
      1 <= history[k].month <= 12 && EntryMonthIndex(history[k]) == MonthIndex(now) - (numberOfMonths - 1 - k)
      && history[k].balance == history[k].income - history[k].expenses
    ensures |history| > 0 ==> history[|history| - 1].month == now.month && history[|history| - 1].year == now.year
  {
    history := BuildHistory(db.accounts, db.transactions, userId, numberOfMonths, now);
    EntriesReportTheirMonths(db.accounts, db.transactions, userId, now, numberOfMonths, history);
  }

  /** Entry `k` of a history of `n` months covers the month `n - 1 - k`
      months before the month of `now`. */
  predicate HistoryEntries(accounts: seq<Account>, ts: seq<Transaction>, userId: Guid, now: DateTime, n: nat,
                           history: seq<MonthlyBalanceDto>) {
    forall k :: 0 <= k < |history| ==> history[k] == MonthEntry(accounts, ts, userId, AddMonths(now, k - (n - 1)))
  }

  /** The loop of `GetBalanceHistoryAsync`, from `numberOfMonths - 1` months
      back up to the month of `now`. */
  method BuildHistory(accounts: seq<Account>, ts: seq<Transaction>, userId: Guid, numberOfMonths: nat, now: DateTime)
    returns (history: seq<MonthlyBalanceDto>)
    ensures |history| == numberOfMonths
    ensures HistoryEntries(accounts, ts, userId, now, numberOfMonths, history)
  {
    history := [];
    for i := numberOfMonths downto 0
      invariant |history| == numberOfMonths - i
      invariant HistoryEntries(accounts, ts, userId, now, numberOfMonths, history)
    {
      var target := AddMonths(now, -i);
      assert target == AddMonths(now, |history| - (numberOfMonths - 1)) by {
        assert -i == |history| - (numberOfMonths - 1);
      }
      var entry := MonthTotals(accounts, ts, userId, target);
      HistoryEntriesSnoc(accounts, ts, userId, now, numberOfMonths, history, entry);
      history := history + [entry];
    }
  }

  /** A history stays well formed when the entry of the next month is appended. */
  lemma HistoryEntriesSnoc(accounts: seq<Account>, ts: seq<Transaction>, userId: Guid, now: DateTime, n: nat,
                           history: seq<MonthlyBalanceDto>, entry: MonthlyBalanceDto)
    requires HistoryEntries(accounts, ts, userId, now, n, history)
    requires entry == MonthEntry(accounts, ts, userId, AddMonths(now, |history| - (n - 1)))
    ensures HistoryEntries(accounts, ts, userId, now, n, history + [entry])
  {
    var h := history + [entry];
    forall k | 0 <= k < |h|
      ensures h[k] == MonthEntry(accounts, ts, userId, AddMonths(now, k - (n - 1)))
    {
      if k < |history| {
        assert h[k] == history[k];
      }
    }
  }

  /** The body of the history loop: the totals of the month `target` falls in. */
  method MonthTotals(accounts: seq<Account>, ts: seq<Transaction>, userId: Guid, target: DateTime)
    returns (entry: MonthlyBalanceDto)
    ensures entry == MonthEntry(accounts, ts, userId, target)
  {
    var startDate := MonthStart(target.year, target.month).value;
    var endDate := MonthRangeEnd(startDate);
    var transactions := Window(accounts, ts, userId, startDate, endDate);
    var income := TotalOf(transactions, TransactionType.Income);
    var expenses := TotalOf(transactions, TransactionType.Expense);
    entry := MonthlyBalanceDto(target.month, target.year, income, expenses, income - expenses);
  }

  /** The entries built for consecutive months report those months, and the
      last one reports the month of `now`. */
  lemma EntriesReportTheirMonths(accounts: seq<Account>, ts: seq<Transaction>, userId: Guid, now: DateTime,
                                 n: nat, history: seq<MonthlyBalanceDto>)
    requires |history| == n && HistoryEntries(accounts, ts, userId, now, n, history)
    ensures forall k :: 0 <= k < n ==>
      1 <= history[k].month <= 12 && EntryMonthIndex(history[k]) == MonthIndex(now) - (n - 1 - k)
      && history[k].balance == history[k].income - history[k].expenses
    ensures n > 0 ==> history[n - 1].month == now.month && history[n - 1].year == now.year
  {
    if |history| > 0 {
      var last := AddMonths(now, 0);
      MixedRadix(last.year, last.month - 1, now.year, now.month - 1, 12);
      MixedRadix(now.year, now.month - 1, last.year, last.month - 1, 12);
    }
  }

  /** The totals of a month-long window: [start, start.AddMonths(1).AddDays(-1)]. */
  function WindowIncome(accounts: seq<Account>, ts: seq<Transaction>, userId: Guid, start: DateTime): Money {
    TotalOf(Window(accounts, ts, userId, start, MonthRangeEnd(start)), TransactionType.Income)
  }

  function WindowExpenses(accounts: seq<Account>, ts: seq<Transaction>, userId: Guid, start: DateTime): Money {
    TotalOf(Window(accounts, ts, userId, start, MonthRangeEnd(start)), TransactionType.Expense)
  }

  /** The comparison of a month's totals with the previous month's: each
      change is current minus previous, and its percentage is taken of the
      previous figure (0 when there was none). */
  function Compare(currentIncome: Money, previousIncome: Money, currentExpenses: Money, previousExpenses: Money)
    : (c: ComparisonDto)
    ensures c.currentMonthIncome == currentIncome && c.previousMonthIncome == previousIncome
    ensures c.currentMonthExpenses == currentExpenses && c.previousMonthExpenses == previousExpenses
    ensures c.incomeChange == c.currentMonthIncome - c.previousMonthIncome
    ensures c.expensesChange == c.currentMonthExpenses - c.previousMonthExpenses
    ensures c.incomeChangePercentage == Percentage(c.incomeChange, c.previousMonthIncome)
    ensures c.expensesChangePercentage == Percentage(c.expensesChange, c.previousMonthExpenses)
  {
    ComparisonDto(
      currentIncome, previousIncome, currentIncome - previousIncome, Percentage(currentIncome - previousIncome, previousIncome),
      currentExpenses, previousExpenses, currentExpenses - previousExpenses, Percentage(currentExpenses - previousExpenses, previousExpenses))
  }

  /** `GetComparisonWithPreviousMonthAsync`: the window that starts at
      `currentStart` against the one that starts a month earlier. */
  function Comparison(accounts: seq<Account>, ts: seq<Transaction>, userId: Guid, currentStart: DateTime): ComparisonDto {
    var previousStart := AddMonths(currentStart, -1);
    Compare(WindowIncome(accounts, ts, userId, currentStart), WindowIncome(accounts, ts, userId, previousStart),
            WindowExpenses(accounts, ts, userId, currentStart), WindowExpenses(accounts, ts, userId, previousStart))
  }

  /** For a month's first day, the "previous" window is the previous calendar
      month, across a year boundary too, and the "current" one is the month itself. */
  lemma ComparisonIsCalendarMonths(accounts: seq<Account>, ts: seq<Transaction>, userId: Guid, y: int, m: int)
    requires 1 <= m <= 12
    ensures var c := Comparison(accounts, ts, userId, MonthStart(y, m).value);
      var (py, pm) := if m == 1 then (y - 1, 12) else (y, m - 1);
      c.currentMonthIncome == WindowIncome(accounts, ts, userId, MonthStart(y, m).value)
      && c.previousMonthIncome == WindowIncome(accounts, ts, userId, MonthStart(py, pm).value)
      && c.currentMonthExpenses == WindowExpenses(accounts, ts, userId, MonthStart(y, m).value)
      && c.previousMonthExpenses == WindowExpenses(accounts, ts, userId, MonthStart(py, pm).value)
  {
    PreviousMonthStart(y, m);
    var (py, pm) := if m == 1 then (y - 1, 12) else (y, m - 1);
    assert AddMonths(MonthStart(y, m).value, -1) == MonthStart(py, pm).value;
  }

  /** With earlier income to compare against, the change percentage is positive
      exactly when income grew. */
  lemma ChangeSign(current: Money, previous: Money)
    requires previous > 0.0
    ensures Percentage(current - previous, previous) > 0.0 <==> current > previous
    ensures Percentage(current - previous, previous) == 0.0 <==> current == previous
  {
    PercentageOrder(current - previous, previous);
  }

  /** `r` is the summary of the range `startDate..endDate` seen at `now`:
      the range's income and expense totals and their difference, the top
      spending categories of its expenses, the month and year of its start,
      the balance history of the months up to `now`, and the comparison of
      the start's month with the month before. */
  ghost predicate IsSummary(accounts: seq<Account>, ts: seq<Transaction>, categories: seq<Category>, userId: Guid,
                            startDate: DateTime, endDate: DateTime, now: DateTime, r: DashboardSummaryDto)
  {
    var w := Window(accounts, ts, userId, startDate, endDate);
    r.totalIncome == TotalOf(w, TransactionType.Income)
    && r.totalExpenses == TotalOf(w, TransactionType.Expense)
    && r.topSpendingCategories == TopSpending(categories, Filter(w, OfType(TransactionType.Expense)), r.totalExpenses)
    && r.balance == r.totalIncome - r.totalExpenses
    && r.month == startDate.month && r.year == startDate.year
    && |r.balanceHistory| == HistoryMonths
    && (forall k :: 0 <= k < HistoryMonths ==>
          r.balanceHistory[k] == MonthEntry(accounts, ts, userId, AddMonths(now, k - (HistoryMonths - 1))))
    && r.comparison == Comparison(accounts, ts, userId, startDate)
  }

  /** `GetDashboardSummaryByDateRangeAsync`; `now` is the clock reading the
      history is taken from. */
  method GetDashboardSummaryByDateRange(db: FinanceDb, userId: Guid, startDate: DateTime, endDate: DateTime, now: DateTime)
    returns (r: DashboardSummaryDto)
    ensures IsSummary(db.accounts, db.transactions, db.categories, userId, startDate, endDate, now, r)
  {
    var transactions := Window(db.accounts, db.transactions, userId, startDate, endDate);
    var totalIncome := TotalOf(transactions, TransactionType.Income);
    var totalExpenses := TotalOf(transactions, TransactionType.Expense);
    var expenses := Filter(transactions, OfType(TransactionType.Expense));
    var top := TopFive(expenses);
    var topSpending := ResolveTopCategories(db.categories, top, totalExpenses);
    assert topSpending == TopSpending(db.categories, expenses, totalExpenses);
    var history := GetBalanceHistory(db, userId, HistoryMonths, now);
    var comparison := Comparison(db.accounts, db.transactions, userId, startDate);
    r := DashboardSummaryDto(totalIncome, totalExpenses, totalIncome - totalExpenses,
                             startDate.month, startDate.year, topSpending, history, comparison);
  }

  /** `GetDashboardSummaryByMonthAsync`: the summary of the range from the
      month's first day to its last day at 00:00; a month outside 1..12 makes
      `new DateTime` throw. */
  method GetDashboardSummaryByMonth(db: FinanceDb, userId: Guid, month: int, year: int, now: DateTime)
    returns (r: Result<DashboardSummaryDto>)
    ensures r.Ok? <==> 1 <= month <= 12
    ensures r.Err? ==> r.error == InvalidArgument
    ensures r.Ok? ==>
      var start := MonthStart(year, month).value;
      r.value.month == month && r.value.year == year
      && IsSummary(db.accounts, db.transactions, db.categories, userId, start, MonthRangeEnd(start), now, r.value)
  {
    var start := MonthStart(year, month);
    if start.Err? {
      return Err(start.error);
    }
    var summary := GetDashboardSummaryByDateRange(db, userId, start.value, MonthRangeEnd(start.value), now);
    r := Ok(summary);
  }

  /** `GetDashboardSummaryAsync`: the summary of the month `now` is in; the
      clock's month is always valid, so it never fails. */
  method GetDashboardSummary(db: FinanceDb, userId: Guid, now: DateTime) returns (r: DashboardSummaryDto)
    ensures r.month == now.month && r.year == now.year
    ensures var start := MonthStart(now.year, now.month).value;
      IsSummary(db.accounts, db.transactions, db.categories, userId, start, MonthRangeEnd(start), now, r)
  {
    var summary := GetDashboardSummaryByMonth(db, userId, now.month, now.year, now);
    r := summary.value;
  }
}
