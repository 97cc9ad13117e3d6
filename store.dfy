/** The database context: one table per entity, the generic repository's
    lookups over them, and the keys the database enforces. Every read sees
    only rows whose IsDeleted flag is clear, as the global query filters
    arrange; deletion through the generic repository sets that flag. */
module Store {
  import opened Wrappers
  import opened Seqs
  import opened Calendar
  import opened Domain

  /** The names the services show for a row they can no longer find. */
  const RemovedAccountName: string := "Conta removida"
  const RemovedCategoryName: string := "Categoria removida"

  class FinanceDb {
    var accounts: seq<Account>
    var categories: seq<Category>
    var transactions: seq<Transaction>
    var budgets: seq<Budget>
    var goals: seq<Goal>
    var goalUsers: seq<GoalUser>
    var groups: seq<UserGroup>
    var members: seq<UserGroupMember>

    constructor ()
      ensures accounts == [] && categories == [] && transactions == [] && budgets == []
      ensures goals == [] && goalUsers == [] && groups == [] && members == []
    {
      accounts, categories, transactions, budgets := [], [], [], [];
      goals, goalUsers, groups, members := [], [], [], [];
    }
  }

  /** The generic repository's `GetByIdAsync`: the live row with that id. */
  function AccountById(accounts: seq<Account>, id: Guid): (r: Option<Account>)
    ensures r.Some? ==> r.value in accounts && r.value.id == id && !r.value.isDeleted
    ensures r.None? <==> forall a :: a in accounts ==> a.id != id || a.isDeleted
  {
    First(accounts, (a: Account) => a.id == id && !a.isDeleted)
  }

  function CategoryById(categories: seq<Category>, id: Guid): (r: Option<Category>)
    ensures r.Some? ==> r.value in categories && r.value.id == id && !r.value.isDeleted
    ensures r.None? <==> forall c :: c in categories ==> c.id != id || c.isDeleted
  {
    First(categories, (c: Category) => c.id == id && !c.isDeleted)
  }

  /** The row `GetByIdAsync(id)` looks for in the transaction table. */
  function TransactionRow(id: Guid): Transaction -> bool {
    (t: Transaction) => t.id == id && !t.isDeleted
  }

  function TransactionById(transactions: seq<Transaction>, id: Guid): (r: Option<Transaction>)
    ensures r.Some? ==> r.value in transactions && r.value.id == id && !r.value.isDeleted
    ensures r.None? <==> forall t :: t in transactions ==> t.id != id || t.isDeleted
  {
    First(transactions, TransactionRow(id))
  }

  /** `accountIds.Contains(id)` where `accountIds` are the ids of the user's
      accounts as `FindAsync(a => a.UserId == userId)` returns them. */
  predicate IsUserAccount(accounts: seq<Account>, userId: Guid, id: Guid) {
    exists a :: a in accounts && !a.isDeleted && a.userId == userId && a.id == id
  }

  /** `category?.Name ?? "Categoria removida"` after `GetByIdAsync`. */
  function CategoryName(categories: seq<Category>, id: Guid): string {
    match CategoryById(categories, id)
    case Some(c) => c.name
    case None => RemovedCategoryName
  }

  /** `account?.Name ?? "Conta removida"` after `GetByIdAsync`. */
  function AccountName(accounts: seq<Account>, id: Guid): string {
    match AccountById(accounts, id)
    case Some(a) => a.name
    case None => RemovedAccountName
  }

  /** `FindAsync(t => accountIds.Contains(t.AccountId) && t.Date >= lo && t.Date <= hi)`
      with `accountIds` the user's accounts. */
  function InWindow(accounts: seq<Account>, userId: Guid, lo: DateTime, hi: DateTime): Transaction -> bool {
    (t: Transaction) => !t.isDeleted && IsUserAccount(accounts, userId, t.accountId) && InRange(t.date, lo, hi)
  }

  /** `GetByIdAsync(id)` followed by the check `account != null && account.UserId == userId`. */
  predicate OwnsAccount(accounts: seq<Account>, userId: Guid, id: Guid) {
    var a := AccountById(accounts, id);
    a.Some? && a.value.userId == userId
  }

  predicate OwnsCategory(categories: seq<Category>, userId: Guid, id: Guid) {
    var c := CategoryById(categories, id);
    c.Some? && c.value.userId == userId
  }

  /** Primary keys: no two rows of a table share an id. */
  predicate UniqueIds<T>(rows: seq<T>, id: T -> Guid) {
    forall i, j :: 0 <= i < j < |rows| ==> id(rows[i]) != id(rows[j])
  }

  /** With unique ids, the owner check through `GetByIdAsync` and the user's
      account list agree. */
  lemma OwnsAccountIsUserAccount(accounts: seq<Account>, userId: Guid, id: Guid)
    requires UniqueIds(accounts, (a: Account) => a.id)
    ensures OwnsAccount(accounts, userId, id) <==> IsUserAccount(accounts, userId, id)
  {
    if IsUserAccount(accounts, userId, id) {
      var a :| a in accounts && !a.isDeleted && a.userId == userId && a.id == id;
      var b := AccountById(accounts, id).value;
      var i :| 0 <= i < |accounts| && accounts[i] == a;
      var j :| 0 <= j < |accounts| && accounts[j] == b;
      assert i == j;
    }
  }
}
