/** The entities of the finance domain as rows of the store, and the
    enumerations they use. Navigation properties become ids; the audit
    columns (CreatedAt, UpdatedAt, JoinedAt, AddedAt) are not modelled. */
module Domain {
  import opened Wrappers
  import opened Calendar

  /** A `System.Guid`, as an opaque number; `Guid.Empty` is 0. */
  type Guid = nat
  const EmptyGuid: Guid := 0

  /** A `decimal` amount. */
  type Money = real

  /** A value of a C# enum is a number; `Undefined` stands for every number
      that names none of the declared members. */
  datatype AccountType = CheckingAccount | SavingsAccount | Wallet | Investment | CreditCard | Undefined
  datatype TransactionType = Income | Expense | Transfer | Undefined
  datatype CategoryType = Income | Expense | Undefined

  /** Not declared in the enums file; the roles the group service assigns. */
  datatype GroupRole = Owner | Member

  /** Not declared in the enums file; the views the scope resolver accepts. */
  datatype ViewContext = Own | Member | All

  /** The numbers the declared members stand for. */
  function AccountTypeCode(t: AccountType): (n: int)
    requires !t.Undefined?
    ensures 1 <= n <= 5
  {
    match t
    case CheckingAccount => 1
    case SavingsAccount => 2
    case Wallet => 3
    case Investment => 4
    case CreditCard => 5
  }

  function TransactionTypeCode(t: TransactionType): (n: int)
    requires !t.Undefined?
    ensures 1 <= n <= 3
  {
    match t
    case Income => 1
    case Expense => 2
    case Transfer => 3
  }

  function CategoryTypeCode(t: CategoryType): (n: int)
    requires !t.Undefined?
    ensures 1 <= n <= 2
  {
    match t
    case Income => 1
    case Expense => 2
  }

  /** The enum value a number denotes. */
  function AccountTypeOf(n: int): (t: AccountType)
    ensures t.Undefined? <==> !(1 <= n <= 5)
    ensures !t.Undefined? ==> AccountTypeCode(t) == n
  {
    if n == 1 then CheckingAccount else if n == 2 then SavingsAccount
    else if n == 3 then Wallet else if n == 4 then Investment
    else if n == 5 then CreditCard else AccountType.Undefined
  }

  function TransactionTypeOf(n: int): (t: TransactionType)
    ensures t.Undefined? <==> !(1 <= n <= 3)
    ensures !t.Undefined? ==> TransactionTypeCode(t) == n
  {
    if n == 1 then TransactionType.Income else if n == 2 then TransactionType.Expense
    else if n == 3 then Transfer else TransactionType.Undefined
  }

  function CategoryTypeOf(n: int): (t: CategoryType)
    ensures t.Undefined? <==> !(1 <= n <= 2)
    ensures !t.Undefined? ==> CategoryTypeCode(t) == n
  {
    if n == 1 then CategoryType.Income else if n == 2 then CategoryType.Expense
    else CategoryType.Undefined
  }

  datatype Account = Account(
    id: Guid, userId: Guid, name: string, accountType: AccountType,
    initialBalance: Money, isActive: bool,
    color: Option<string>, icon: Option<string>, isDeleted: bool)

  datatype Category = Category(
    id: Guid, userId: Guid, name: string, categoryType: CategoryType,
    color: Option<string>, icon: Option<string>, isDeleted: bool)

  datatype Transaction = Transaction(
    id: Guid, accountId: Guid, categoryId: Guid, amount: Money, date: DateTime,
    description: string, transactionType: TransactionType, isRecurring: bool,
    notes: Option<string>, destinationAccountId: Option<Guid>, isDeleted: bool)

  /** `whole > 0 ? (part / whole) * 100 : 0`, the percentage every report uses. */
  function Percentage(part: Money, whole: Money): Money {
    if whole > 0.0 then (part / whole) * 100.0 else 0.0
  }

  /** The percentage is the number p with p% of the whole equal to the part,
      and 0 when the whole is not positive. */
  lemma PercentageMeaning(part: Money, whole: Money)
    ensures whole > 0.0 ==> Percentage(part, whole) * whole == part * 100.0
    ensures whole <= 0.0 ==> Percentage(part, whole) == 0.0
  {
  }

  /** Multiplying by a positive number keeps the order. */
  lemma ScaleOrder(a: real, b: real, c: real)
    requires c > 0.0
    ensures a < b <==> a * c < b * c
    ensures a == b <==> a * c == b * c
  {
    if a < b {
      assert (b - a) * c > 0.0;
    } else if b < a {
      assert (a - b) * c > 0.0;
    }
  }

  /** With a positive whole, the percentage exceeds 100 exactly when the part
      exceeds the whole, is positive exactly when the part is, and lies in
      0..100 when the part does in 0..whole. */
  lemma PercentageOrder(part: Money, whole: Money)
    requires whole > 0.0
    ensures Percentage(part, whole) > 100.0 <==> part > whole
    ensures Percentage(part, whole) > 0.0 <==> part > 0.0
    ensures Percentage(part, whole) == 0.0 <==> part == 0.0
    ensures 0.0 <= part <= whole ==> 0.0 <= Percentage(part, whole) <= 100.0
  {
    var p := Percentage(part, whole);
    PercentageMeaning(part, whole);
    ScaleOrder(100.0, p, whole);
    ScaleOrder(0.0, p, whole);
    ScaleOrder(p, 100.0, whole);
    ScaleOrder(p, 0.0, whole);
  }

  /** The `t => t.Amount` selector the ledger sums use. */
  function Amount(t: Transaction): Money { t.amount }

  datatype Budget = Budget(
    id: Guid, userId: Guid, categoryId: Guid, month: int, year: int,
    limitAmount: Money, isDeleted: bool)

  datatype Goal = Goal(
    id: Guid, userId: Guid, name: string, description: Option<string>,
    targetAmount: Money, currentAmount: Money,
    startDate: DateTime, targetDate: Option<DateTime>, isCompleted: bool,
    color: Option<string>, icon: Option<string>, isDeleted: bool)

  /** A row of the goal-sharing table; its key is (goalId, userId) and it is
      removed outright, not soft-deleted. */
  datatype GoalUser = GoalUser(goalId: Guid, userId: Guid, isOwner: bool)

  datatype UserGroup = UserGroup(
    id: Guid, name: string, description: Option<string>,
    createdByUserId: Guid, inviteCode: string, isDeleted: bool)

  datatype UserGroupMember = UserGroupMember(
    id: Guid, groupId: Guid, userId: Guid, role: GroupRole, isDeleted: bool)
}
