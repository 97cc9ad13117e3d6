/** TransactionService: recording, changing and removing ledger entries, with
    the ownership and consistency checks that guard them, and the listings. */
module TransactionService {
  import opened Wrappers
  import opened Seqs
  import opened Calendar
  import opened Domain
  import opened Store
  import AccountService

  datatype TransactionDto = TransactionDto(
    id: Guid, accountId: Guid, accountName: string, categoryId: Guid, categoryName: string,
    amount: Money, date: DateTime, description: string, transactionType: TransactionType,
    isRecurring: bool, notes: Option<string>, destinationAccountId: Option<Guid>,
    destinationAccountName: Option<string>)

  datatype CreateTransactionDto = CreateTransactionDto(
    accountId: Guid, categoryId: Guid, amount: Money, date: DateTime, description: string,
    transactionType: TransactionType, isRecurring: bool, notes: Option<string>,
    destinationAccountId: Option<Guid>)

  datatype UpdateTransactionDto = UpdateTransactionDto(
    categoryId: Guid, amount: Money, date: DateTime, description: string, notes: Option<string>)

  /** The DTO `MapTransactionsWithDetails` builds for one transaction: the
      row's own fields, the names of the rows it refers to, and the fallback
      names for an account or category that can no longer be found. */
  function DetailsOf(accounts: seq<Account>, categories: seq<Category>, t: Transaction): (r: TransactionDto)
    ensures r.id == t.id && r.accountId == t.accountId && r.categoryId == t.categoryId
    ensures r.amount == t.amount && r.date == t.date && r.description == t.description
    ensures r.transactionType == t.transactionType && r.isRecurring == t.isRecurring && r.notes == t.notes
    ensures r.destinationAccountId == t.destinationAccountId
    ensures r.destinationAccountName.Some? <==>
      t.destinationAccountId.Some? && AccountById(accounts, t.destinationAccountId.value).Some?
  {
    var destination := if t.destinationAccountId.Some? then AccountById(accounts, t.destinationAccountId.value) else None;
    TransactionDto(
      t.id, t.accountId, AccountName(accounts, t.accountId), t.categoryId, CategoryName(categories, t.categoryId),
      t.amount, t.date, t.description, t.transactionType, t.isRecurring, t.notes, t.destinationAccountId,
      if destination.Some? then Some(destination.value.name) else None)
  }

  function Details(accounts: seq<Account>, categories: seq<Category>): Transaction -> TransactionDto {
    (t: Transaction) => DetailsOf(accounts, categories, t)
  }

  /** Once the transaction's account is soft-deleted, its listing shows the
      fallback name instead of the account's. */
  lemma DeletedAccountShowsFallback(accounts: seq<Account>, categories: seq<Category>, t: Transaction, i: nat)
    requires i < |accounts| && accounts[i].id == t.accountId
    requires UniqueIds(accounts, (a: Account) => a.id)
    ensures DetailsOf(accounts[i := accounts[i].(isDeleted := true)], categories, t).accountName == RemovedAccountName
  {
    var after := accounts[i := accounts[i].(isDeleted := true)];
    forall a | a in after ensures a.id != t.accountId || a.isDeleted {
      var j :| 0 <= j < |after| && after[j] == a;
      if j != i {
        if j < i {
          assert accounts[j].id != accounts[i].id;
        } else {
          assert accounts[i].id != accounts[j].id;
        }
      }
    }
  }

  /** `MapTransactionsWithDetails`: one DTO per transaction, in order. */
  method MapTransactionsWithDetails(db: FinanceDb, ts: seq<Transaction>) returns (dtos: seq<TransactionDto>)
    ensures dtos == Map(ts, Details(db.accounts, db.categories))
  {
    dtos := [];
    for i := 0 to |ts|
      invariant dtos == Map(ts[..i], Details(db.accounts, db.categories))
    {
      var t := ts[i];
      var accountName := AccountName(db.accounts, t.accountId);
      var categoryName := CategoryName(db.categories, t.categoryId);
      var destinationName: Option<string> := None;
      if t.destinationAccountId.Some? {
        var destination := AccountById(db.accounts, t.destinationAccountId.value);
        if destination.Some? {
          destinationName := Some(destination.value.name);
        }
      }
      var dto := TransactionDto(
        t.id, t.accountId, accountName, t.categoryId, categoryName, t.amount, t.date, t.description,
        t.transactionType, t.isRecurring, t.notes, t.destinationAccountId, destinationName);
      assert dto == DetailsOf(db.accounts, db.categories, t);
      assert Map(ts[..i + 1], Details(db.accounts, db.categories)) == dtos + [dto];
      dtos := dtos + [dto];
    }
    assert ts[..|ts|] == ts;
  }

  /** `OrderByDescending(t => t.Date)`. */
  function DateKey(t: Transaction): real {
    Ordinal(t.date) as real
  }

  /** A query's transactions, newest first: exactly the rows the filter keeps. */
  function Listing(ts: seq<Transaction>, p: Transaction -> bool): (r: seq<Transaction>)
    ensures |r| == |Filter(ts, p)|
    ensures SortedDesc(r, DateKey)
    ensures forall t :: t in r ==> t in ts && p(t)
    ensures forall t :: t in ts && p(t) ==> t in r
  {
    var kept := Filter(ts, p);
    var r := SortDesc(kept, DateKey);
    SameElements(r, kept);
    SameElements(kept, r);
    r
  }

  /** `accountIds.Contains(t.AccountId)` over the live rows: the user's ledger. */
  function OfUser(accounts: seq<Account>, userId: Guid): Transaction -> bool {
    (t: Transaction) => !t.isDeleted && IsUserAccount(accounts, userId, t.accountId)
  }

  function OfUserAndType(accounts: seq<Account>, userId: Guid, k: TransactionType): Transaction -> bool {
    (t: Transaction) => !t.isDeleted && IsUserAccount(accounts, userId, t.accountId) && t.transactionType == k
  }

  function OnAccount(accountId: Guid): Transaction -> bool {
    (t: Transaction) => !t.isDeleted && t.accountId == accountId
  }

  function InCategory(categoryId: Guid): Transaction -> bool {
    (t: Transaction) => !t.isDeleted && t.categoryId == categoryId
  }

  /** A C# `int`: the paging parameters arrive as 32-bit integers. */
  type Int32 = x: int | -0x8000_0000 <= x < 0x8000_0000

  /** Two's-complement wrap-around of unchecked 32-bit arithmetic. */
  function Wrap32(x: int): (r: Int32)
    ensures (r - x) % 0x1_0000_0000 == 0
    ensures -0x8000_0000 <= x < 0x8000_0000 ==> r == x
  {
    (x + 0x8000_0000) % 0x1_0000_0000 - 0x8000_0000
  }

  /** The page `GetAllTransactionsAsync` shows: the user's ledger newest
      first, `Skip((pageNumber - 1) * pageSize).Take(pageSize)`. */
  function Page(accounts: seq<Account>, ts: seq<Transaction>, userId: Guid, pageNumber: Int32, pageSize: Int32): seq<Transaction> {
    Take(Skip(Listing(ts, OfUser(accounts, userId)), Offset(pageNumber, pageSize)), pageSize)
  }

  /** How many transactions `Skip` passes over: `(pageNumber - 1) * pageSize`
      evaluated in unchecked 32-bit arithmetic, so a large product wraps. */
  function Offset(pageNumber: Int32, pageSize: Int32): Int32 {
    Wrap32(Wrap32(pageNumber - 1) * pageSize)
  }

  /** The offset is the mathematical one exactly when that fits in 32 bits;
      otherwise it is congruent to it modulo 2^32. */
  lemma OffsetMeaning(pageNumber: Int32, pageSize: Int32)
    ensures var exact := (pageNumber - 1) * pageSize;
      (Offset(pageNumber, pageSize) == exact <==> -0x8000_0000 <= exact < 0x8000_0000)
    ensures (Offset(pageNumber, pageSize) - (pageNumber - 1) * pageSize) % 0x1_0000_0000 == 0
  {
    var exact := (pageNumber - 1) * pageSize;
    var w := Wrap32(pageNumber - 1);
    assert (w - (pageNumber - 1)) % 0x1_0000_0000 == 0;
    var k := (w - (pageNumber - 1)) / 0x1_0000_0000;
    assert w * pageSize - exact == k * pageSize * 0x1_0000_0000;
    assert (Offset(pageNumber, pageSize) - w * pageSize) % 0x1_0000_0000 == 0;
  }

  /** Page 2^30 of size 4 wraps its offset to -4, so `Skip` passes over
      nothing and the caller gets the four newest transactions. */
  lemma HugePageWrapsToFirst(accounts: seq<Account>, ts: seq<Transaction>, userId: Guid)
    ensures Offset(0x4000_0000, 4) == -4
    ensures Page(accounts, ts, userId, 0x4000_0000, 4) == Take(Listing(ts, OfUser(accounts, userId)), 4)
  {
    assert Wrap32(0x3FFF_FFFF) == 0x3FFF_FFFF;
    assert 0x3FFF_FFFF * 4 == 0xFFFF_FFFC;
    assert (0xFFFF_FFFC + 0x8000_0000) % 0x1_0000_0000 == 0x7FFF_FFFC;
  }

  /** A page holds at most `pageSize` of the user's transactions, newest
      first; it is the slice of the whole listing that starts at
      `(pageNumber - 1) * pageSize`, empty past the end, and the first page
      when the offset is negative. */
  lemma PageProperties(accounts: seq<Account>, ts: seq<Transaction>, userId: Guid, pageNumber: Int32, pageSize: Int32)
    ensures |Page(accounts, ts, userId, pageNumber, pageSize)| <= (if pageSize <= 0 then 0 else pageSize)
    ensures SortedDesc(Page(accounts, ts, userId, pageNumber, pageSize), DateKey)
    ensures forall t :: t in Page(accounts, ts, userId, pageNumber, pageSize) ==>
      t in ts && !t.isDeleted && IsUserAccount(accounts, userId, t.accountId)
    ensures var all := Listing(ts, OfUser(accounts, userId));
      var offset := Offset(pageNumber, pageSize);
      0 <= offset <= |all| && 0 <= pageSize ==>
        Page(accounts, ts, userId, pageNumber, pageSize)
        == all[offset..if offset + pageSize <= |all| then offset + pageSize else |all|]
    ensures Offset(pageNumber, pageSize) >= |Listing(ts, OfUser(accounts, userId))| ==>
      Page(accounts, ts, userId, pageNumber, pageSize) == []
    ensures Offset(pageNumber, pageSize) <= 0 ==>
      Page(accounts, ts, userId, pageNumber, pageSize) == Take(Listing(ts, OfUser(accounts, userId)), pageSize)
  {
    var all := Listing(ts, OfUser(accounts, userId));
    SkipTakeSortedDesc(all, Offset(pageNumber, pageSize), pageSize, DateKey);
    forall t | t in Page(accounts, ts, userId, pageNumber, pageSize)
      ensures t in ts && !t.isDeleted && IsUserAccount(accounts, userId, t.accountId)
    {
      assert t in all;
      assert OfUser(accounts, userId)(t);
    }
  }

  /** `GetAllTransactionsAsync`. */
  method GetAllTransactions(db: FinanceDb, userId: Guid, pageNumber: Int32, pageSize: Int32) returns (dtos: seq<TransactionDto>)
    ensures dtos == Map(Page(db.accounts, db.transactions, userId, pageNumber, pageSize), Details(db.accounts, db.categories))
  {
    var offset := Wrap32(Wrap32(pageNumber - 1) * pageSize);
    var page := Take(Skip(Listing(db.transactions, OfUser(db.accounts, userId)), offset), pageSize);
    assert page == Page(db.accounts, db.transactions, userId, pageNumber, pageSize);
    dtos := MapTransactionsWithDetails(db, page);
  }

  /** `GetTransactionByIdAsync`: nothing for a missing transaction or one
      whose account is not the caller's. */
  method GetTransactionById(db: FinanceDb, transactionId: Guid, userId: Guid) returns (r: Option<TransactionDto>)
    ensures var t := TransactionById(db.transactions, transactionId);
      r.Some? <==> t.Some? && OwnsAccount(db.accounts, userId, t.value.accountId)
    ensures r.Some? ==> r.value == DetailsOf(db.accounts, db.categories, TransactionById(db.transactions, transactionId).value)
  {
    var t := TransactionById(db.transactions, transactionId);
    if t.None? {
      return None;
    }
    if !OwnsAccount(db.accounts, userId, t.value.accountId) {
      return None;
    }
    var dtos := MapTransactionsWithDetails(db, [t.value]);
    r := Some(dtos[0]);
  }

  /** `GetTransactionsByAccountAsync`: only for an account of the caller's. */
  method GetTransactionsByAccount(db: FinanceDb, accountId: Guid, userId: Guid) returns (r: Result<seq<TransactionDto>>)
    ensures r.Err? <==> !OwnsAccount(db.accounts, userId, accountId)
    ensures r.Err? ==> r.error == Unauthorized
    ensures r.Ok? ==> r.value == Map(Listing(db.transactions, OnAccount(accountId)), Details(db.accounts, db.categories))
  {
    if !OwnsAccount(db.accounts, userId, accountId) {
      return Err(Unauthorized);
    }
    var dtos := MapTransactionsWithDetails(db, Listing(db.transactions, OnAccount(accountId)));
    r := Ok(dtos);
  }

  /** `GetTransactionsByCategoryAsync`: only for a category of the caller's. */
  method GetTransactionsByCategory(db: FinanceDb, categoryId: Guid, userId: Guid) returns (r: Result<seq<TransactionDto>>)
    ensures r.Err? <==> !OwnsCategory(db.categories, userId, categoryId)
    ensures r.Err? ==> r.error == Unauthorized
    ensures r.Ok? ==> r.value == Map(Listing(db.transactions, InCategory(categoryId)), Details(db.accounts, db.categories))
  {
    if !OwnsCategory(db.categories, userId, categoryId) {
      return Err(Unauthorized);
    }
    var dtos := MapTransactionsWithDetails(db, Listing(db.transactions, InCategory(categoryId)));
    r := Ok(dtos);
  }

  /** `GetTransactionsByTypeAsync`. */
  method GetTransactionsByType(db: FinanceDb, userId: Guid, k: TransactionType) returns (dtos: seq<TransactionDto>)
    ensures dtos == Map(Listing(db.transactions, OfUserAndType(db.accounts, userId, k)), Details(db.accounts, db.categories))
  {
    dtos := MapTransactionsWithDetails(db, Listing(db.transactions, OfUserAndType(db.accounts, userId, k)));
  }

  /** `GetTransactionsByDateRangeAsync`: both bounds included. */
  method GetTransactionsByDateRange(db: FinanceDb, userId: Guid, startDate: DateTime, endDate: DateTime)
    returns (dtos: seq<TransactionDto>)
    ensures dtos == Map(Listing(db.transactions, InWindow(db.accounts, userId, startDate, endDate)), Details(db.accounts, db.categories))
  {
    dtos := MapTransactionsWithDetails(db, Listing(db.transactions, InWindow(db.accounts, userId, startDate, endDate)));
  }

  /** A transaction of the user's dated exactly at either bound is listed. */
  lemma DateRangeIncludesBounds(accounts: seq<Account>, ts: seq<Transaction>, userId: Guid,
                                startDate: DateTime, endDate: DateTime, t: Transaction)
    requires t in ts && !t.isDeleted && IsUserAccount(accounts, userId, t.accountId)
    requires AtOrBefore(startDate, endDate)
    requires t.date == startDate || t.date == endDate
    ensures t in Listing(ts, InWindow(accounts, userId, startDate, endDate))
  {
    assert InWindow(accounts, userId, startDate, endDate)(t);
  }

  /** The three type listings split the user's ledger: every live transaction
      of a defined type is in exactly one of them. */
  lemma TypeListingsSplitLedger(accounts: seq<Account>, ts: seq<Transaction>, userId: Guid, t: Transaction)
    requires t in ts && OfUser(accounts, userId)(t) && !t.transactionType.Undefined?
    ensures t in Listing(ts, OfUserAndType(accounts, userId, t.transactionType))
    ensures forall k :: k != t.transactionType ==> t !in Listing(ts, OfUserAndType(accounts, userId, k))
  {
    assert OfUserAndType(accounts, userId, t.transactionType)(t);
  }

  /** The category-type rule: an Income needs an Income category and an
      Expense an Expense category; a Transfer may use any. */
  predicate CategoryFits(k: TransactionType, c: CategoryType) {
    !((k == TransactionType.Income && c != CategoryType.Income) || (k == TransactionType.Expense && c != CategoryType.Expense))
  }

  /** Every check `CreateTransactionAsync` makes passes. */
  predicate CreateAllowed(accounts: seq<Account>, categories: seq<Category>, dto: CreateTransactionDto, userId: Guid) {
    OwnsAccount(accounts, userId, dto.accountId)
    && OwnsCategory(categories, userId, dto.categoryId)
    && CategoryFits(dto.transactionType, CategoryById(categories, dto.categoryId).value.categoryType)
    && (dto.transactionType == Transfer ==>
          dto.destinationAccountId.Some?
          && OwnsAccount(accounts, userId, dto.destinationAccountId.value)
          && dto.destinationAccountId.value != dto.accountId)
  }

  /** The row the mapper builds from the DTO, under a fresh id. */
  function NewTransaction(dto: CreateTransactionDto, newId: Guid): Transaction {
    Transaction(newId, dto.accountId, dto.categoryId, dto.amount, dto.date, dto.description,
                dto.transactionType, dto.isRecurring, dto.notes, dto.destinationAccountId, false)
  }

  /** What the checks make sure of about the live transactions: a transfer
      names a destination that is not its own source. */
  predicate TransfersWellFormed(ts: seq<Transaction>) {
    forall t :: t in ts && !t.isDeleted && t.transactionType == Transfer ==>
      t.destinationAccountId.Some? && t.destinationAccountId.value != t.accountId
  }

  /** ... and an income or expense uses a category of its own kind. */
  predicate CategoriesFit(categories: seq<Category>, ts: seq<Transaction>) {
    forall t :: t in ts && !t.isDeleted ==>
      CategoryById(categories, t.categoryId).Some?
      && CategoryFits(t.transactionType, CategoryById(categories, t.categoryId).value.categoryType)
  }

  /** An allowed creation keeps both rules. */
  lemma CreateKeepsLedgerRules(accounts: seq<Account>, categories: seq<Category>, ts: seq<Transaction>,
                               dto: CreateTransactionDto, userId: Guid, newId: Guid)
    requires CreateAllowed(accounts, categories, dto, userId)
    ensures TransfersWellFormed(ts) ==> TransfersWellFormed(ts + [NewTransaction(dto, newId)])
    ensures CategoriesFit(categories, ts) ==> CategoriesFit(categories, ts + [NewTransaction(dto, newId)])
  {
  }

  /** An allowed transfer moves its amount from the source account to the
      destination: the two balances change by opposite amounts. */
  lemma CreatedTransferConservesTotal(accounts: seq<Account>, categories: seq<Category>, ts: seq<Transaction>,
                                      dto: CreateTransactionDto, userId: Guid, newId: Guid)
    requires CreateAllowed(accounts, categories, dto, userId) && dto.transactionType == Transfer
    ensures var t := NewTransaction(dto, newId);
      var a := dto.accountId;
      var b := dto.destinationAccountId.value;
      AccountService.Balance(accounts, ts + [t], a) == AccountService.Balance(accounts, ts, a) - dto.amount
      && AccountService.Balance(accounts, ts + [t], b) == AccountService.Balance(accounts, ts, b) + dto.amount
  {
    AccountService.TransferConservesTotal(accounts, ts, NewTransaction(dto, newId), dto.accountId, dto.destinationAccountId.value);
  }

  /** `CreateTransactionAsync`. The checks run in this order: source account
      (Unauthorized), category (Unauthorized), category type
      (InvalidOperation), and for a transfer, a destination at all
      (InvalidOperation), the destination's owner (Unauthorized), destination
      differing from source (InvalidOperation). Only when all pass is one
      row added. */
  method CreateTransaction(db: FinanceDb, dto: CreateTransactionDto, userId: Guid, newId: Guid) returns (r: Result<TransactionDto>)
    modifies db`transactions
    ensures !OwnsAccount(db.accounts, userId, dto.accountId) ==> r == Err(Unauthorized)
    ensures (OwnsAccount(db.accounts, userId, dto.accountId) && !OwnsCategory(db.categories, userId, dto.categoryId)) ==>
      r == Err(Unauthorized)
    ensures (OwnsAccount(db.accounts, userId, dto.accountId) && OwnsCategory(db.categories, userId, dto.categoryId)
             && !CategoryFits(dto.transactionType, CategoryById(db.categories, dto.categoryId).value.categoryType)) ==>
      r == Err(InvalidOperation)
    ensures (OwnsAccount(db.accounts, userId, dto.accountId) && OwnsCategory(db.categories, userId, dto.categoryId)
             && CategoryFits(dto.transactionType, CategoryById(db.categories, dto.categoryId).value.categoryType)
             && dto.transactionType == Transfer) ==>
      (dto.destinationAccountId.None? ==> r == Err(InvalidOperation))
      && (dto.destinationAccountId.Some? && !OwnsAccount(db.accounts, userId, dto.destinationAccountId.value) ==>
            r == Err(Unauthorized))
      && ((dto.destinationAccountId.Some? && OwnsAccount(db.accounts, userId, dto.destinationAccountId.value)
           && dto.destinationAccountId.value == dto.accountId) ==> r == Err(InvalidOperation))
    ensures r.Ok? <==> CreateAllowed(db.accounts, db.categories, dto, userId)
    ensures r.Err? ==> db.transactions == old(db.transactions)
    ensures r.Ok? ==>
      db.transactions == old(db.transactions) + [NewTransaction(dto, newId)]
      && r.value == DetailsOf(db.accounts, db.categories, NewTransaction(dto, newId))
  {
    if !OwnsAccount(db.accounts, userId, dto.accountId) {
      return Err(Unauthorized);
    }
    var category := CategoryById(db.categories, dto.categoryId);
    if category.None? || category.value.userId != userId {
      return Err(Unauthorized);
    }
    if (dto.transactionType == TransactionType.Income && category.value.categoryType != CategoryType.Income)
       || (dto.transactionType == TransactionType.Expense && category.value.categoryType != CategoryType.Expense) {
      return Err(InvalidOperation);
    }
    if dto.transactionType == Transfer {
      if dto.destinationAccountId.None? {
        return Err(InvalidOperation);
      }
      if !OwnsAccount(db.accounts, userId, dto.destinationAccountId.value) {
        return Err(Unauthorized);
      }
      if dto.accountId == dto.destinationAccountId.value {
        return Err(InvalidOperation);
      }
    }
    var t := NewTransaction(dto, newId);
    db.transactions := db.transactions + [t];
    var dtos := MapTransactionsWithDetails(db, [t]);
    r := Ok(dtos[0]);
  }

  /** The five fields `UpdateTransactionAsync` assigns; the account, the type
      and the destination stay. */
  function Updated(t: Transaction, dto: UpdateTransactionDto): Transaction {
    t.(categoryId := dto.categoryId, amount := dto.amount, date := dto.date,
       description := dto.description, notes := dto.notes)
  }

  /** Updating never breaks the transfer rule, since it leaves the type, the
      source and the destination alone. */
  lemma UpdateKeepsTransfersWellFormed(ts: seq<Transaction>, i: nat, dto: UpdateTransactionDto)
    requires i < |ts| && TransfersWellFormed(ts)
    ensures TransfersWellFormed(ts[i := Updated(ts[i], dto)])
  {
    forall t | t in ts[i := Updated(ts[i], dto)] && !t.isDeleted && t.transactionType == Transfer
      ensures t.destinationAccountId.Some? && t.destinationAccountId.value != t.accountId
    {
      var j :| 0 <= j < |ts| && ts[i := Updated(ts[i], dto)][j] == t;
      assert ts[j] in ts;
    }
  }

  /** The category-type rule is not checked again on update: an Income can be
      moved to an Expense category of the caller's. */
  lemma UpdateMayBreakCategoryFit()
    ensures var categories := [Category(1, 7, "Salário", CategoryType.Income, None, None, false),
                               Category(2, 7, "Mercado", CategoryType.Expense, None, None, false)];
      var t := Transaction(5, 3, 1, 10.0, Moment(2024, 1, 1, 0), "Pagamento", TransactionType.Income,
                           false, None, None, false);
      CategoriesFit(categories, [t])
      && OwnsCategory(categories, 7, 2)
      && !CategoriesFit(categories, [Updated(t, UpdateTransactionDto(2, 10.0, t.date, t.description, None))])
  {
    var categories := [Category(1, 7, "Salário", CategoryType.Income, None, None, false),
                       Category(2, 7, "Mercado", CategoryType.Expense, None, None, false)];
    assert CategoryById(categories, 1) == Some(categories[0]);
    assert CategoryById(categories, 2) == Some(categories[1]);
  }

  /** `UpdateTransactionAsync`: NotFound for a missing transaction,
      Unauthorized when its account or the new category is not the caller's;
      otherwise the five fields change in place. */
  method UpdateTransaction(db: FinanceDb, transactionId: Guid, dto: UpdateTransactionDto, userId: Guid)
    returns (r: Result<TransactionDto>)
    modifies db`transactions
    ensures var k := IndexWhere(old(db.transactions), TransactionRow(transactionId));
      match k
      case None => r == Err(NotFound) && db.transactions == old(db.transactions)
      case Some(i) =>
        if !OwnsAccount(db.accounts, userId, old(db.transactions)[i].accountId)
           || !OwnsCategory(db.categories, userId, dto.categoryId) then
          r == Err(Unauthorized) && db.transactions == old(db.transactions)
        else
          db.transactions == old(db.transactions)[i := Updated(old(db.transactions)[i], dto)]
          && r == Ok(DetailsOf(db.accounts, db.categories, db.transactions[i]))
    ensures TransfersWellFormed(old(db.transactions)) ==> TransfersWellFormed(db.transactions)
  {
    var k := IndexWhere(db.transactions, TransactionRow(transactionId));
    if k.None? {
      return Err(NotFound);
    }
    var i := k.value;
    if !OwnsAccount(db.accounts, userId, db.transactions[i].accountId) {
      return Err(Unauthorized);
    }
    if !OwnsCategory(db.categories, userId, dto.categoryId) {
      return Err(Unauthorized);
    }
    var t := Updated(db.transactions[i], dto);
    if TransfersWellFormed(db.transactions) {
      UpdateKeepsTransfersWellFormed(db.transactions, i, dto);
    }
    db.transactions := db.transactions[i := t];
    var dtos := MapTransactionsWithDetails(db, [t]);
    r := Ok(dtos[0]);
  }

  /** `DeleteTransactionAsync`: NotFound for a missing transaction,
      Unauthorized when its account is not the caller's; otherwise a soft
      delete. */
  method DeleteTransaction(db: FinanceDb, transactionId: Guid, userId: Guid) returns (r: Outcome)
    modifies db`transactions
    ensures var k := IndexWhere(old(db.transactions), TransactionRow(transactionId));
      match k
      case None => r == Fail(NotFound) && db.transactions == old(db.transactions)
      case Some(i) =>
        if !OwnsAccount(db.accounts, userId, old(db.transactions)[i].accountId) then
          r == Fail(Unauthorized) && db.transactions == old(db.transactions)
        else
          r == Pass && db.transactions == old(db.transactions)[i := old(db.transactions)[i].(isDeleted := true)]
  {
    var k := IndexWhere(db.transactions, TransactionRow(transactionId));
    if k.None? {
      return Fail(NotFound);
    }
    var i := k.value;
    if !OwnsAccount(db.accounts, userId, db.transactions[i].accountId) {
      return Fail(Unauthorized);
    }
    db.transactions := db.transactions[i := db.transactions[i].(isDeleted := true)];
    r := Pass;
  }

  /** A deleted transaction disappears from every lookup by id. */
  lemma DeletedTransactionNotFound(ts: seq<Transaction>, i: nat, id: Guid)
    requires i < |ts| && ts[i].id == id
    requires UniqueIds(ts, (t: Transaction) => t.id)
    ensures TransactionById(ts[i := ts[i].(isDeleted := true)], id).None?
  {
    var after := ts[i := ts[i].(isDeleted := true)];
    forall t | t in after ensures t.id != id || t.isDeleted {
      var j :| 0 <= j < |after| && after[j] == t;
      if j != i {
        if j < i {
          assert ts[j].id != ts[i].id;
        } else {
          assert ts[i].id != ts[j].id;
        }
      }
    }
  }
}
