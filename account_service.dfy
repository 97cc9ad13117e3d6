/** AccountService: account CRUD and the balance replayed from the ledger. */
module AccountService {
  import opened Wrappers
  import opened Seqs
  import opened Domain
  import opened Store

  datatype AccountDto = AccountDto(
    id: Guid, name: string, accountType: AccountType, initialBalance: Money,
    currentBalance: Money, isActive: bool, color: Option<string>, icon: Option<string>)

  datatype CreateAccountDto = CreateAccountDto(
    name: string, accountType: AccountType, initialBalance: Money,
    color: Option<string>, icon: Option<string>)

  datatype UpdateAccountDto = UpdateAccountDto(
    name: string, isActive: bool, color: Option<string>, icon: Option<string>)

  function ToDto(a: Account, balance: Money): AccountDto {
    AccountDto(a.id, a.name, a.accountType, a.initialBalance, balance, a.isActive, a.color, a.icon)
  }

  /** The filter `t.AccountId == accountId || t.DestinationAccountId == accountId`
      over live transactions. */
  function Touches(accountId: Guid): Transaction -> bool {
    (t: Transaction) => !t.isDeleted && (t.accountId == accountId || t.destinationAccountId == Some(accountId))
  }

  /** What one visited transaction adds to the running balance of the account:
      as source, Income adds and Expense or Transfer subtracts; as destination,
      only a Transfer adds. */
  function Effect(accountId: Guid): Transaction -> real {
    (t: Transaction) =>
      (if t.accountId == accountId then
         if t.transactionType == TransactionType.Income then t.amount
         else if t.transactionType == TransactionType.Expense || t.transactionType == Transfer then -t.amount
         else 0.0
       else 0.0)
      + (if t.destinationAccountId == Some(accountId) && t.transactionType == Transfer then t.amount else 0.0)
  }

  /** The balance `CalculateAccountBalance` computes, as a function of the tables. */
  function Balance(accounts: seq<Account>, transactions: seq<Transaction>, accountId: Guid): Money {
    match AccountById(accounts, accountId)
    case None => 0.0
    case Some(a) => a.initialBalance + SumOf(Filter(transactions, Touches(accountId)), Effect(accountId))
  }

  /** The four sums the balance is made of. */
  function IncomeFrom(accountId: Guid): Transaction -> bool {
    (t: Transaction) => !t.isDeleted && t.accountId == accountId && t.transactionType == TransactionType.Income
  }
  function OutgoingFrom(accountId: Guid): Transaction -> bool {
    (t: Transaction) => !t.isDeleted && t.accountId == accountId
         && (t.transactionType == TransactionType.Expense || t.transactionType == Transfer)
  }
  function TransferInto(accountId: Guid): Transaction -> bool {
    (t: Transaction) => !t.isDeleted && t.destinationAccountId == Some(accountId) && t.transactionType == Transfer
  }

  /** One transaction's effect is its part in each of the three sums. */
  lemma EffectSplit(t: Transaction, accountId: Guid)
    ensures (if Touches(accountId)(t) then Effect(accountId)(t) else 0.0) ==
      (if IncomeFrom(accountId)(t) then t.amount else 0.0)
      - (if OutgoingFrom(accountId)(t) then t.amount else 0.0)
      + (if TransferInto(accountId)(t) then t.amount else 0.0)
  {
  }

  lemma {:induction false} EffectSum(transactions: seq<Transaction>, accountId: Guid)
    ensures SumOf(Filter(transactions, Touches(accountId)), Effect(accountId)) ==
      SumOf(Filter(transactions, IncomeFrom(accountId)), Amount)
      - SumOf(Filter(transactions, OutgoingFrom(accountId)), Amount)
      + SumOf(Filter(transactions, TransferInto(accountId)), Amount)
    decreases |transactions|
  {
    if transactions != [] {
      var init := transactions[..|transactions| - 1];
      EffectSum(init, accountId);
      EffectSplit(transactions[|transactions| - 1], accountId);
      SumOfFilterSnoc(transactions, Touches(accountId), Effect(accountId));
      SumOfFilterSnoc(transactions, IncomeFrom(accountId), Amount);
      SumOfFilterSnoc(transactions, OutgoingFrom(accountId), Amount);
      SumOfFilterSnoc(transactions, TransferInto(accountId), Amount);
    }
  }

  /** Balance = InitialBalance + incomes out of the account − expenses and
      transfers out of it + transfers into it; 0 for an account not found. */
  lemma BalanceDecomposition(accounts: seq<Account>, transactions: seq<Transaction>, accountId: Guid)
    ensures Balance(accounts, transactions, accountId) ==
      match AccountById(accounts, accountId)
      case None => 0.0
      case Some(a) =>
        a.initialBalance
        + SumOf(Filter(transactions, IncomeFrom(accountId)), Amount)
        - SumOf(Filter(transactions, OutgoingFrom(accountId)), Amount)
        + SumOf(Filter(transactions, TransferInto(accountId)), Amount)
  {
    EffectSum(transactions, accountId);
  }

  /** The balance does not depend on the order the transactions are visited in. */
  lemma BalanceOrderIndependent(accounts: seq<Account>, ts: seq<Transaction>, us: seq<Transaction>, accountId: Guid)
    requires multiset(ts) == multiset(us)
    ensures Balance(accounts, ts, accountId) == Balance(accounts, us, accountId)
  {
    FilterPermutation(ts, us, Touches(accountId));
    SumOfPermutation(Filter(ts, Touches(accountId)), Filter(us, Touches(accountId)), Effect(accountId));
  }

  /** Recording one more transaction adds its effect to the balance. */
  lemma BalanceSnoc(accounts: seq<Account>, ts: seq<Transaction>, t: Transaction, accountId: Guid)
    requires AccountById(accounts, accountId).Some?
    ensures Balance(accounts, ts + [t], accountId) ==
      Balance(accounts, ts, accountId) + (if Touches(accountId)(t) then Effect(accountId)(t) else 0.0)
  {
    assert (ts + [t])[..|ts|] == ts;
    SumOfFilterSnoc(ts + [t], Touches(accountId), Effect(accountId));
  }

  /** A live transfer from `a` to `b` lowers a's balance by its amount and
      raises b's by the same amount, so their sum is unchanged. */
  lemma TransferConservesTotal(accounts: seq<Account>, ts: seq<Transaction>, t: Transaction, a: Guid, b: Guid)
    requires AccountById(accounts, a).Some? && AccountById(accounts, b).Some?
    requires !t.isDeleted && t.transactionType == Transfer
    requires t.accountId == a && t.destinationAccountId == Some(b) && a != b
    ensures Balance(accounts, ts + [t], a) == Balance(accounts, ts, a) - t.amount
    ensures Balance(accounts, ts + [t], b) == Balance(accounts, ts, b) + t.amount
    ensures Balance(accounts, ts + [t], a) + Balance(accounts, ts + [t], b) ==
            Balance(accounts, ts, a) + Balance(accounts, ts, b)
  {
    BalanceSnoc(accounts, ts, t, a);
    BalanceSnoc(accounts, ts, t, b);
  }

  /** A transaction that names the account as destination but is not a
      Transfer leaves its balance alone. */
  lemma NonTransferDestinationIgnored(accounts: seq<Account>, ts: seq<Transaction>, t: Transaction, accountId: Guid)
    requires t.destinationAccountId == Some(accountId) && t.accountId != accountId
    requires t.transactionType != Transfer
    ensures Balance(accounts, ts + [t], accountId) == Balance(accounts, ts, accountId)
  {
    if AccountById(accounts, accountId).Some? {
      BalanceSnoc(accounts, ts, t, accountId);
    }
  }

  /** Every transaction refers to rows of the account table (the foreign keys). */
  predicate TransactionsReferenceAccounts(accounts: seq<Account>, ts: seq<Transaction>) {
    forall t :: t in ts ==>
      (exists a :: a in accounts && a.id == t.accountId)
      && (t.destinationAccountId.Some? ==> exists a :: a in accounts && a.id == t.destinationAccountId.value)
  }

  /** A newly added account has its initial balance as balance, which is what
      `CreateAccountAsync` reports. */
  lemma NewAccountBalance(accounts: seq<Account>, ts: seq<Transaction>, acc: Account)
    requires TransactionsReferenceAccounts(accounts, ts)
    requires forall a :: a in accounts ==> a.id != acc.id
    requires !acc.isDeleted
    ensures Balance(accounts + [acc], ts, acc.id) == acc.initialBalance
  {
    var found := AccountById(accounts + [acc], acc.id);
    assert acc in accounts + [acc];
    assert found == Some(acc);
    assert forall t :: t in ts ==> !Touches(acc.id)(t);
    FilterNone(ts, Touches(acc.id));
  }

  /** `CalculateAccountBalance`: replays the account's transactions over its
      initial balance. */
  method CalculateAccountBalance(db: FinanceDb, accountId: Guid) returns (balance: Money)
    ensures balance == Balance(db.accounts, db.transactions, accountId)
    ensures AccountById(db.accounts, accountId).None? ==> balance == 0.0
  {
    var account := AccountById(db.accounts, accountId);
    if account.None? {
      return 0.0;
    }
    var ts := Filter(db.transactions, Touches(accountId));
    balance := account.value.initialBalance;
    for i := 0 to |ts|
      invariant balance == account.value.initialBalance + SumOf(ts[..i], Effect(accountId))
    {
      var t := ts[i];
      if t.accountId == accountId {
        if t.transactionType == TransactionType.Income {
          balance := balance + t.amount;
        } else if t.transactionType == TransactionType.Expense || t.transactionType == Transfer {
          balance := balance - t.amount;
        }
      }
      if t.destinationAccountId == Some(accountId) && t.transactionType == Transfer {
        balance := balance + t.amount;
      }
      assert ts[..i + 1] == ts[..i] + [t];
      SumOfSnoc(ts[..i], t, Effect(accountId));
    }
    assert ts[..|ts|] == ts;
  }

  /** `MapAccountsWithBalance`: one DTO per account, in order, each with its balance. */
  method MapAccountsWithBalance(db: FinanceDb, accounts: seq<Account>) returns (dtos: seq<AccountDto>)
    ensures |dtos| == |accounts|
    ensures forall i :: 0 <= i < |accounts| ==>
      dtos[i] == ToDto(accounts[i], Balance(db.accounts, db.transactions, accounts[i].id))
  {
    dtos := [];
    for i := 0 to |accounts|
      invariant |dtos| == i
      invariant forall k :: 0 <= k < i ==>
        dtos[k] == ToDto(accounts[k], Balance(db.accounts, db.transactions, accounts[k].id))
    {
      var balance := CalculateAccountBalance(db, accounts[i].id);
      dtos := dtos + [ToDto(accounts[i], balance)];
    }
  }

  /** `FindAsync(a => a.UserId == userId)`. */
  function UserAccounts(accounts: seq<Account>, userId: Guid): (r: seq<Account>)
    ensures forall a :: a in r <==> a in accounts && !a.isDeleted && a.userId == userId
  {
    Filter(accounts, (a: Account) => !a.isDeleted && a.userId == userId)
  }

  /** `GetAllAccountsAsync`: every live account of the user, with its balance. */
  method GetAllAccounts(db: FinanceDb, userId: Guid) returns (dtos: seq<AccountDto>)
    ensures |dtos| == |UserAccounts(db.accounts, userId)|
    ensures forall i :: 0 <= i < |dtos| ==>
      var a := UserAccounts(db.accounts, userId)[i];
      dtos[i] == ToDto(a, Balance(db.accounts, db.transactions, a.id)) && a.userId == userId && !a.isDeleted
  {
    dtos := MapAccountsWithBalance(db, UserAccounts(db.accounts, userId));
  }

  /** `GetAccountByIdAsync`: the user's live account with that id and its
      balance, or nothing when the user has no such account. */
  method GetAccountById(db: FinanceDb, accountId: Guid, userId: Guid) returns (r: Option<AccountDto>)
    ensures r.None? <==> forall a :: a in db.accounts ==> !OwnedRow(accountId, userId)(a)
    ensures r.Some? ==>
      exists a :: a in db.accounts && OwnedRow(accountId, userId)(a)
        && r.value == ToDto(a, Balance(db.accounts, db.transactions, accountId))
  {
    var account := First(db.accounts, OwnedRow(accountId, userId));
    if account.None? {
      return None;
    }
    var balance := CalculateAccountBalance(db, accountId);
    r := Some(ToDto(account.value, balance));
  }

  /** `FindAsync(a => a.UserId == userId && a.IsActive)`. */
  function ActiveAccounts(accounts: seq<Account>, userId: Guid): (r: seq<Account>)
    ensures forall i :: 0 <= i < |r| ==>
      r[i] in accounts && !r[i].isDeleted && r[i].userId == userId && r[i].isActive
    ensures forall a :: a in accounts && !a.isDeleted && a.userId == userId && a.isActive ==> a in r
  {
    var r := Filter(accounts, (a: Account) => !a.isDeleted && a.userId == userId && a.isActive);
    assert forall a :: a in accounts && !a.isDeleted && a.userId == userId && a.isActive ==> a in r by {
      forall a | a in accounts && !a.isDeleted && a.userId == userId && a.isActive ensures a in r {
        var i :| 0 <= i < |accounts| && accounts[i] == a;
      }
    }
    r
  }

  method GetActiveAccounts(db: FinanceDb, userId: Guid) returns (dtos: seq<AccountDto>)
    ensures |dtos| == |ActiveAccounts(db.accounts, userId)|
    ensures forall i :: 0 <= i < |dtos| ==>
      var a := ActiveAccounts(db.accounts, userId)[i];
      dtos[i] == ToDto(a, Balance(db.accounts, db.transactions, a.id)) && a.userId == userId && a.isActive
  {
    dtos := MapAccountsWithBalance(db, ActiveAccounts(db.accounts, userId));
  }

  /** The lookup Update and Delete share: `FindAsync(a => a.Id == accountId &&
      a.UserId == userId).FirstOrDefault()`. */
  function OwnedRow(accountId: Guid, userId: Guid): Account -> bool {
    (a: Account) => !a.isDeleted && a.id == accountId && a.userId == userId
  }

  method CreateAccount(db: FinanceDb, dto: CreateAccountDto, userId: Guid, newId: Guid) returns (r: AccountDto)
    requires forall a :: a in db.accounts ==> a.id != newId
    modifies db`accounts
    ensures db.accounts == old(db.accounts) +
      [Account(newId, userId, dto.name, dto.accountType, dto.initialBalance, true, dto.color, dto.icon, false)]
    ensures r == ToDto(db.accounts[|db.accounts| - 1], dto.initialBalance)
    ensures r.isActive && r.currentBalance == r.initialBalance
  {
    var account := Account(newId, userId, dto.name, dto.accountType, dto.initialBalance, true, dto.color, dto.icon, false);
    db.accounts := db.accounts + [account];
    r := ToDto(account, account.initialBalance);
  }

  method UpdateAccount(db: FinanceDb, accountId: Guid, dto: UpdateAccountDto, userId: Guid) returns (r: Result<AccountDto>)
    modifies db`accounts
    ensures var k := IndexWhere(old(db.accounts), OwnedRow(accountId, userId));
      match k
      case None => r == Err(NotFound) && db.accounts == old(db.accounts)
      case Some(i) =>
        var was := old(db.accounts)[i];
        db.accounts == old(db.accounts)[i := was.(name := dto.name, isActive := dto.isActive, color := dto.color, icon := dto.icon)]
        && r == Ok(ToDto(db.accounts[i], Balance(db.accounts, db.transactions, accountId)))
  {
    var k := IndexWhere(db.accounts, OwnedRow(accountId, userId));
    if k.None? {
      return Err(NotFound);
    }
    var i := k.value;
    var account := db.accounts[i].(name := dto.name, isActive := dto.isActive, color := dto.color, icon := dto.icon);
    db.accounts := db.accounts[i := account];
    var balance := CalculateAccountBalance(db, accountId);
    r := Ok(ToDto(account, balance));
  }

  method DeleteAccount(db: FinanceDb, accountId: Guid, userId: Guid) returns (r: Outcome)
    modifies db`accounts
    ensures var k := IndexWhere(old(db.accounts), OwnedRow(accountId, userId));
      match k
      case None => r == Fail(NotFound) && db.accounts == old(db.accounts)
      case Some(i) => r == Pass && db.accounts == old(db.accounts)[i := old(db.accounts)[i].(isDeleted := true)]
  {
    var k := IndexWhere(db.accounts, OwnedRow(accountId, userId));
    if k.None? {
      return Fail(NotFound);
    }
    db.accounts := db.accounts[k.value := db.accounts[k.value].(isDeleted := true)];
    r := Pass;
  }
}
