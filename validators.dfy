/** The input rules the API checks before a request reaches a service, as
    FluentValidation states them. A validator runs every rule and reports
    each one that fails, as a property name and the rule it broke; a request
    is accepted when nothing is reported. */
module Validators {
  import opened Wrappers
  import opened Seqs
  import opened Calendar
  import opened Domain
  import opened Store
  import AccountService
  import BudgetService
  import CategoryService
  import GoalService
  import TransactionService
  import UserGroupService

  // ----- The rule vocabulary -----

  datatype Rule = NotEmpty | MaximumLength(max: nat) | IsInEnum | GreaterThan | GreaterThanOrEqualTo
               | LessThanOrEqualTo | InclusiveBetween | NotEqual

  datatype Violation = Violation(property: string, rule: Rule)

  /** `char.IsWhiteSpace`: the separators of the Unicode space, line and
      paragraph categories, the control characters U+0009 to U+000D, and U+0085. */
  predicate IsWhiteSpace(c: char) {
    var n := c as int;
    (0x09 <= n <= 0x0D) || n == 0x20 || n == 0x85 || n == 0xA0 || n == 0x1680
    || (0x2000 <= n <= 0x200A) || n == 0x2028 || n == 0x2029 || n == 0x202F || n == 0x205F || n == 0x3000
  }

  /** `string.IsNullOrWhiteSpace` of a present string: what `NotEmpty` rejects. */
  predicate IsBlank(s: string) {
    forall i :: 0 <= i < |s| ==> IsWhiteSpace(s[i])
  }

  /** `string.Length`: UTF-16 code units, two for a character outside the
      Basic Multilingual Plane. `MaximumLength` compares this count. */
  function Utf16Length(s: string): (n: nat)
    ensures |s| <= n <= 2 * |s|
    ensures (forall i :: 0 <= i < |s| ==> s[i] as int <= 0xFFFF) ==> n == |s|
    decreases |s|
  {
    if s == [] then 0
    else Utf16Length(s[..|s| - 1]) + (if s[|s| - 1] as int > 0xFFFF then 2 else 1)
  }

  /** A string within a length limit has at most that many characters, but
      one character beyond the Basic Multilingual Plane costs two units. */
  lemma LengthLimitCountsUnits(s: string, max: nat)
    ensures Utf16Length(s) <= max ==> |s| <= max
    ensures |s| == max && (exists i :: 0 <= i < |s| && s[i] as int > 0xFFFF) ==> Utf16Length(s) > max
  {
    if |s| == max && exists i :: 0 <= i < |s| && s[i] as int > 0xFFFF {
      var i :| 0 <= i < |s| && s[i] as int > 0xFFFF;
      WideCharCountsTwice(s, i);
    }
  }

  lemma {:induction false} WideCharCountsTwice(s: string, i: nat)
    requires i < |s| && s[i] as int > 0xFFFF
    ensures Utf16Length(s) >= |s| + 1
    decreases |s|
  {
    if i < |s| - 1 {
      WideCharCountsTwice(s[..|s| - 1], i);
    }
  }

  /** The one-rule check: nothing when it holds, its violation otherwise. */
  function Check(holds: bool, v: Violation): (r: seq<Violation>)
    ensures r == [] <==> holds
    ensures v in r <==> !holds
  {
    if holds then [] else [v]
  }

  /** `RuleFor(x => x.P).NotEmpty().MaximumLength(max)` on a string. */
  function RequiredText(property: string, s: string, max: nat): (r: seq<Violation>)
    ensures Violation(property, NotEmpty) in r <==> IsBlank(s)
    ensures Violation(property, MaximumLength(max)) in r <==> Utf16Length(s) > max
    ensures forall v :: v in r ==> v.property == property
    ensures r == [] <==> !IsBlank(s) && Utf16Length(s) <= max
  {
    Check(!IsBlank(s), Violation(property, NotEmpty)) + Check(Utf16Length(s) <= max, Violation(property, MaximumLength(max)))
  }

  /** `RuleFor(x => x.P).MaximumLength(max)` on an optional string: an absent one passes. */
  function OptionalText(property: string, s: Option<string>, max: nat): (r: seq<Violation>)
    ensures r == [] <==> s.None? || Utf16Length(s.value) <= max
    ensures forall v :: v in r ==> v == Violation(property, MaximumLength(max))
  {
    Check(s.None? || Utf16Length(s.value) <= max, Violation(property, MaximumLength(max)))
  }

  /** `default(DateTime)`: midnight on 1 January of year 1, what `NotEmpty` rejects. */
  const DefaultDateTime: DateTime := Moment(1, 1, 1, 0)

  // ----- AccountValidators -----

  function ValidateCreateAccount(dto: AccountService.CreateAccountDto): (r: seq<Violation>)
    ensures r == [] <==> !IsBlank(dto.name) && Utf16Length(dto.name) <= 100 && !dto.accountType.Undefined?
    ensures Violation("Type", IsInEnum) in r <==> dto.accountType.Undefined?
  {
    RequiredText("Name", dto.name, 100) + Check(!dto.accountType.Undefined?, Violation("Type", IsInEnum))
  }

  function ValidateUpdateAccount(dto: AccountService.UpdateAccountDto): (r: seq<Violation>)
    ensures r == [] <==> !IsBlank(dto.name) && Utf16Length(dto.name) <= 100
  {
    RequiredText("Name", dto.name, 100)
  }

  /** An accepted account type is one of the five declared members, and
      survives the trip through its number. */
  lemma AcceptedAccountType(dto: AccountService.CreateAccountDto)
    requires ValidateCreateAccount(dto) == []
    ensures 1 <= AccountTypeCode(dto.accountType) <= 5
    ensures AccountTypeOf(AccountTypeCode(dto.accountType)) == dto.accountType
  {
    match dto.accountType
    case CheckingAccount =>
    case SavingsAccount =>
    case Wallet =>
    case Investment =>
    case CreditCard =>
  }

  // ----- CategoryValidators -----

  function ValidateCreateCategory(dto: CategoryService.CreateCategoryDto): (r: seq<Violation>)
    ensures r == [] <==> !IsBlank(dto.name) && Utf16Length(dto.name) <= 100 && !dto.categoryType.Undefined?
    ensures Violation("Type", IsInEnum) in r <==> dto.categoryType.Undefined?
  {
    RequiredText("Name", dto.name, 100) + Check(!dto.categoryType.Undefined?, Violation("Type", IsInEnum))
  }

  function ValidateUpdateCategory(dto: CategoryService.UpdateCategoryDto): (r: seq<Violation>)
    ensures r == [] <==> !IsBlank(dto.name) && Utf16Length(dto.name) <= 100
  {
    RequiredText("Name", dto.name, 100)
  }

  /** An accepted category is created as an income or an expense category,
      so it is listed under exactly one of the two types. */
  lemma AcceptedCategoryListedOnce(categories: seq<Category>, dto: CategoryService.CreateCategoryDto, userId: Guid, newId: Guid)
    requires ValidateCreateCategory(dto) == []
    ensures var c := CategoryService.NewCategory(dto, userId, newId);
      var all := categories + [c];
      (CategoryService.ToDto(c) in CategoryService.GetCategoriesByType(all, userId, CategoryType.Income))
      != (CategoryService.ToDto(c) in CategoryService.GetCategoriesByType(all, userId, CategoryType.Expense))
  {
    var c := CategoryService.NewCategory(dto, userId, newId);
    CategoryService.ByTypeWithinAll(categories + [c], userId, c);
  }

  // ----- TransactionValidators -----

  /** The two rules on `DestinationAccountId`: different from the source
      when present, and present for a transfer. The property is a `Guid?`,
      and `NotEmpty` compares it with `default(Guid?)`, which is null, so a
      present `Guid.Empty` passes. */
  function DestinationRules(dto: TransactionService.CreateTransactionDto): (r: seq<Violation>)
    ensures r == [] <==>
      (dto.destinationAccountId.Some? ==> dto.destinationAccountId.value != dto.accountId)
      && (dto.transactionType == Transfer ==> dto.destinationAccountId.Some?)
    ensures Violation("DestinationAccountId", NotEqual) in r <==>
      dto.destinationAccountId.Some? && dto.destinationAccountId.value == dto.accountId
    ensures Violation("DestinationAccountId", NotEmpty) in r <==>
      dto.transactionType == Transfer && dto.destinationAccountId.None?
  {
    Check(dto.destinationAccountId.None? || dto.destinationAccountId.value != dto.accountId,
      Violation("DestinationAccountId", NotEqual))
    + Check(dto.transactionType != Transfer || dto.destinationAccountId.Some?,
      Violation("DestinationAccountId", NotEmpty))
  }

  /** A transfer naming `Guid.Empty` as its destination passes both
      destination rules; the service then rejects it as an account the
      caller does not own. */
  lemma EmptyDestinationPasses(dto: TransactionService.CreateTransactionDto)
    requires dto.transactionType == Transfer && dto.destinationAccountId == Some(EmptyGuid)
    requires dto.accountId != EmptyGuid
    ensures DestinationRules(dto) == []
  {
  }

  function ValidateCreateTransaction(dto: TransactionService.CreateTransactionDto): (r: seq<Violation>)
    ensures r == [] <==>
      dto.accountId != EmptyGuid && dto.categoryId != EmptyGuid && dto.amount > 0.0
      && !IsBlank(dto.description) && Utf16Length(dto.description) <= 500
      && !dto.transactionType.Undefined?
      && DestinationRules(dto) == []
  {
    Check(dto.accountId != EmptyGuid, Violation("AccountId", NotEmpty))
    + Check(dto.categoryId != EmptyGuid, Violation("CategoryId", NotEmpty))
    + Check(dto.amount > 0.0, Violation("Amount", GreaterThan))
    + RequiredText("Description", dto.description, 500)
    + Check(!dto.transactionType.Undefined?, Violation("Type", IsInEnum))
    + DestinationRules(dto)
  }

  function ValidateUpdateTransaction(dto: TransactionService.UpdateTransactionDto): (r: seq<Violation>)
    ensures r == [] <==>
      dto.categoryId != EmptyGuid && dto.amount > 0.0 && !IsBlank(dto.description) && Utf16Length(dto.description) <= 500
  {
    Check(dto.categoryId != EmptyGuid, Violation("CategoryId", NotEmpty))
    + Check(dto.amount > 0.0, Violation("Amount", GreaterThan))
    + RequiredText("Description", dto.description, 500)
  }

  /** For an accepted request, the service's own transfer checks reduce to
      ownership: the destination is present and differs from the source. */
  lemma AcceptedTransactionShape(accounts: seq<Account>, categories: seq<Category>,
                                 dto: TransactionService.CreateTransactionDto, userId: Guid)
    requires ValidateCreateTransaction(dto) == []
    ensures TransactionService.CreateAllowed(accounts, categories, dto, userId) <==>
      OwnsAccount(accounts, userId, dto.accountId)
      && OwnsCategory(categories, userId, dto.categoryId)
      && TransactionService.CategoryFits(dto.transactionType, CategoryById(categories, dto.categoryId).value.categoryType)
      && (dto.transactionType == Transfer ==> OwnsAccount(accounts, userId, dto.destinationAccountId.value))
    ensures dto.amount > 0.0
  {
  }

  /** An accepted transfer between two existing accounts moves its amount
      from one balance to the other and leaves their total unchanged. */
  lemma AcceptedTransferConserves(accounts: seq<Account>, ts: seq<Transaction>,
                                  dto: TransactionService.CreateTransactionDto, newId: Guid)
    requires ValidateCreateTransaction(dto) == [] && dto.transactionType == Transfer
    requires AccountById(accounts, dto.accountId).Some?
    requires AccountById(accounts, dto.destinationAccountId.value).Some?
    ensures var t := TransactionService.NewTransaction(dto, newId);
      var a, b := dto.accountId, dto.destinationAccountId.value;
      AccountService.Balance(accounts, ts + [t], a) < AccountService.Balance(accounts, ts, a)
      && AccountService.Balance(accounts, ts + [t], b) > AccountService.Balance(accounts, ts, b)
      && AccountService.Balance(accounts, ts + [t], a) + AccountService.Balance(accounts, ts + [t], b)
         == AccountService.Balance(accounts, ts, a) + AccountService.Balance(accounts, ts, b)
  {
    var t := TransactionService.NewTransaction(dto, newId);
    AccountService.TransferConservesTotal(accounts, ts, t, dto.accountId, dto.destinationAccountId.value);
  }

  // ----- BudgetValidators -----

  function ValidateCreateBudget(dto: BudgetService.CreateBudgetDto): (r: seq<Violation>)
    ensures r == [] <==> dto.categoryId != EmptyGuid && 1 <= dto.month <= 12 && 2000 <= dto.year <= 2100 && dto.limitAmount > 0.0
    ensures Violation("Month", InclusiveBetween) in r <==> !(1 <= dto.month <= 12)
  {
    Check(dto.categoryId != EmptyGuid, Violation("CategoryId", NotEmpty))
    + Check(1 <= dto.month <= 12, Violation("Month", InclusiveBetween))
    + Check(dto.year >= 2000, Violation("Year", GreaterThanOrEqualTo))
    + Check(dto.year <= 2100, Violation("Year", LessThanOrEqualTo))
    + Check(dto.limitAmount > 0.0, Violation("LimitAmount", GreaterThan))
  }

  function ValidateUpdateBudget(dto: BudgetService.UpdateBudgetDto): (r: seq<Violation>)
    ensures r == [] <==> dto.limitAmount > 0.0
  {
    Check(dto.limitAmount > 0.0, Violation("LimitAmount", GreaterThan))
  }

  /** For an accepted budget the month has a first day and the spending over
      it can be computed, so creation never stores a row and then fails. */
  lemma AcceptedBudgetMonth(accounts: seq<Account>, ts: seq<Transaction>, userId: Guid, dto: BudgetService.CreateBudgetDto)
    requires ValidateCreateBudget(dto) == []
    ensures MonthStart(dto.year, dto.month).Ok?
    ensures BudgetService.SpentAmount(accounts, ts, userId, dto.categoryId, dto.month, dto.year).Ok?
  {
  }

  // ----- GoalValidators -----

  function ValidateCreateGoal(dto: GoalService.CreateGoalDto): (r: seq<Violation>)
    ensures r == [] <==>
      !IsBlank(dto.name) && Utf16Length(dto.name) <= 100 && dto.targetAmount > 0.0 && dto.currentAmount >= 0.0
      && dto.startDate != DefaultDateTime
      && (dto.targetDate.Some? ==> !AtOrBefore(dto.targetDate.value, dto.startDate))
    ensures Violation("TargetDate", GreaterThan) in r <==>
      dto.targetDate.Some? && AtOrBefore(dto.targetDate.value, dto.startDate)
  {
    RequiredText("Name", dto.name, 100)
    + Check(dto.targetAmount > 0.0, Violation("TargetAmount", GreaterThan))
    + Check(dto.currentAmount >= 0.0, Violation("CurrentAmount", GreaterThanOrEqualTo))
    + Check(dto.startDate != DefaultDateTime, Violation("StartDate", NotEmpty))
    + Check(dto.targetDate.None? || !AtOrBefore(dto.targetDate.value, dto.startDate), Violation("TargetDate", GreaterThan))
  }

  function ValidateUpdateGoal(dto: GoalService.UpdateGoalDto): (r: seq<Violation>)
    ensures r == [] <==> !IsBlank(dto.name) && Utf16Length(dto.name) <= 100 && dto.targetAmount > 0.0 && dto.currentAmount >= 0.0
  {
    RequiredText("Name", dto.name, 100)
    + Check(dto.targetAmount > 0.0, Violation("TargetAmount", GreaterThan))
    + Check(dto.currentAmount >= 0.0, Violation("CurrentAmount", GreaterThanOrEqualTo))
  }

  /** For an accepted goal the progress lies between 0 and 100, what remains
      is at most the target, and a target date comes strictly later in the
      calendar than the start date. */
  lemma AcceptedGoalFigures(dto: GoalService.CreateGoalDto)
    requires ValidateCreateGoal(dto) == []
    ensures 0.0 <= GoalService.Progress(dto.targetAmount, dto.currentAmount) <= 100.0
    ensures 0.0 <= GoalService.Remaining(dto.targetAmount, dto.currentAmount) <= dto.targetAmount
    ensures dto.targetDate.Some? ==>
      var t, s := dto.targetDate.value, dto.startDate;
      s.year < t.year || (s.year == t.year && s.month < t.month)
      || (s.year == t.year && s.month == t.month && s.day < t.day)
      || (s.year == t.year && s.month == t.month && s.day == t.day && s.tick < t.tick)
  {
    if dto.targetDate.Some? {
      AtOrBeforeIsChronological(dto.targetDate.value, dto.startDate);
    }
  }

  // ----- UserGroupValidators -----

  datatype JoinGroupDto = JoinGroupDto(inviteCode: string)

  function ValidateCreateUserGroup(dto: UserGroupService.CreateUserGroupDto): (r: seq<Violation>)
    ensures r == [] <==> (!IsBlank(dto.name) && Utf16Length(dto.name) <= 100
      && (dto.description.None? || Utf16Length(dto.description.value) <= 500))
  {
    RequiredText("Name", dto.name, 100) + OptionalText("Description", dto.description, 500)
  }

  function ValidateUpdateUserGroup(dto: UserGroupService.UpdateUserGroupDto): (r: seq<Violation>)
    ensures r == [] <==> (!IsBlank(dto.name) && Utf16Length(dto.name) <= 100
      && (dto.description.None? || Utf16Length(dto.description.value) <= 500))
  {
    RequiredText("Name", dto.name, 100) + OptionalText("Description", dto.description, 500)
  }

  function ValidateJoinGroup(dto: JoinGroupDto): (r: seq<Violation>)
    ensures r == [] <==> !IsBlank(dto.inviteCode) && Utf16Length(dto.inviteCode) <= 20
  {
    RequiredText("InviteCode", dto.inviteCode, 20)
  }

  function ValidateShareGoal(dto: UserGroupService.ShareGoalDto): (r: seq<Violation>)
    ensures r == [] <==> dto.goalId != EmptyGuid && |dto.userIds| > 0
  {
    Check(dto.goalId != EmptyGuid, Violation("GoalId", NotEmpty))
    + Check(|dto.userIds| > 0, Violation("UserIds", NotEmpty))
  }

  function ValidateUnshareGoal(dto: UserGroupService.UnshareGoalDto): (r: seq<Violation>)
    ensures r == [] <==> dto.goalId != EmptyGuid && dto.userId != EmptyGuid
  {
    Check(dto.goalId != EmptyGuid, Violation("GoalId", NotEmpty))
    + Check(dto.userId != EmptyGuid, Violation("UserId", NotEmpty))
  }

  /** Every code the group service generates passes the join rules. */
  lemma GeneratedCodesAccepted(code: string)
    requires UserGroupService.IsInviteCode(code)
    ensures ValidateJoinGroup(JoinGroupDto(code)) == []
  {
    assert !IsWhiteSpace(code[0]);
  }
}
