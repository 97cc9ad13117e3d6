/** CategoryService: a user's income and expense categories, with the set of
    defaults a new user receives. Every lookup is restricted to the caller's
    own live categories. */
module CategoryService {
  import opened Wrappers
  import opened Seqs
  import opened Domain
  import opened Store

  datatype CategoryDto = CategoryDto(
    id: Guid, name: string, categoryType: CategoryType, color: Option<string>, icon: Option<string>)

  datatype CreateCategoryDto = CreateCategoryDto(
    name: string, categoryType: CategoryType, color: Option<string>, icon: Option<string>)

  datatype UpdateCategoryDto = UpdateCategoryDto(name: string, color: Option<string>, icon: Option<string>)

  /** The mapping `Category` to `CategoryDto` (without the creation date). */
  function ToDto(c: Category): (d: CategoryDto)
    ensures d.id == c.id && d.name == c.name && d.categoryType == c.categoryType
    ensures d.color == c.color && d.icon == c.icon
  {
    CategoryDto(c.id, c.name, c.categoryType, c.color, c.icon)
  }

  /** `FindAsync(c => c.UserId == userId)` over the live rows. */
  function UserCategories(categories: seq<Category>, userId: Guid): (r: seq<Category>)
    ensures forall c :: c in r <==> c in categories && !c.isDeleted && c.userId == userId
  {
    Filter(categories, (c: Category) => !c.isDeleted && c.userId == userId)
  }

  /** `GetAllCategoriesAsync`. */
  function GetAllCategories(categories: seq<Category>, userId: Guid): (r: seq<CategoryDto>)
    ensures |r| == |UserCategories(categories, userId)|
    ensures forall c :: c in categories && !c.isDeleted && c.userId == userId ==> ToDto(c) in r
    ensures forall d :: d in r ==> exists c :: c in categories && !c.isDeleted && c.userId == userId && d == ToDto(c)
  {
    var rows := UserCategories(categories, userId);
    var r := Map(rows, ToDto);
    assert forall c :: c in categories && !c.isDeleted && c.userId == userId ==> ToDto(c) in r by {
      forall c | c in categories && !c.isDeleted && c.userId == userId ensures ToDto(c) in r {
        MapMember(rows, ToDto, c);
      }
    }
    assert forall d :: d in r ==> exists c :: c in categories && !c.isDeleted && c.userId == userId && d == ToDto(c) by {
      forall d | d in r ensures exists c :: c in categories && !c.isDeleted && c.userId == userId && d == ToDto(c) {
        var i :| 0 <= i < |r| && r[i] == d;
        assert rows[i] in rows;
      }
    }
    r
  }

  /** The lookup Get, Update and Delete share:
      `FindAsync(c => c.Id == categoryId && c.UserId == userId).FirstOrDefault()`. */
  function OwnedCategory(categoryId: Guid, userId: Guid): Category -> bool {
    (c: Category) => !c.isDeleted && c.id == categoryId && c.userId == userId
  }

  /** `GetCategoryByIdAsync`: the caller's live category with that id. */
  function GetCategoryById(categories: seq<Category>, categoryId: Guid, userId: Guid): (r: Option<CategoryDto>)
    ensures r.None? <==> forall c :: c in categories ==> c.isDeleted || c.id != categoryId || c.userId != userId
    ensures r.Some? ==> exists c :: c in categories && !c.isDeleted && c.id == categoryId && c.userId == userId && r.value == ToDto(c)
  {
    match First(categories, OwnedCategory(categoryId, userId))
    case None => None
    case Some(c) => Some(ToDto(c))
  }

  /** `GetCategoriesByTypeAsync`: exactly the caller's live categories of the type. */
  function GetCategoriesByType(categories: seq<Category>, userId: Guid, t: CategoryType): (r: seq<CategoryDto>)
    ensures forall d :: d in r ==> d.categoryType == t
    ensures forall c :: c in categories && !c.isDeleted && c.userId == userId && c.categoryType == t ==> ToDto(c) in r
    ensures forall d :: d in r ==> exists c :: c in categories && !c.isDeleted && c.userId == userId && d == ToDto(c)
  {
    var rows := Filter(categories, (c: Category) => !c.isDeleted && c.userId == userId && c.categoryType == t);
    var r := Map(rows, ToDto);
    assert forall c :: c in categories && !c.isDeleted && c.userId == userId && c.categoryType == t ==> ToDto(c) in r by {
      forall c | c in categories && !c.isDeleted && c.userId == userId && c.categoryType == t ensures ToDto(c) in r {
        MapMember(rows, ToDto, c);
      }
    }
    assert forall d :: d in r ==> exists c :: c in categories && !c.isDeleted && c.userId == userId && d == ToDto(c) by {
      forall d | d in r ensures exists c :: c in categories && !c.isDeleted && c.userId == userId && d == ToDto(c) {
        var i :| 0 <= i < |r| && r[i] == d;
        assert rows[i] in rows;
      }
    }
    r
  }

  /** A category listed by type is listed among all the caller's
      categories, and a listed category of a defined type appears in the list
      of its type. */
  lemma ByTypeWithinAll(categories: seq<Category>, userId: Guid, c: Category)
    requires c in categories && !c.isDeleted && c.userId == userId
    ensures ToDto(c) in GetAllCategories(categories, userId)
    ensures ToDto(c) in GetCategoriesByType(categories, userId, c.categoryType)
    ensures forall t :: t != c.categoryType ==> ToDto(c) !in GetCategoriesByType(categories, userId, t)
  {
  }

  /** The category `CreateCategoryAsync` stores. */
  function NewCategory(dto: CreateCategoryDto, userId: Guid, id: Guid): (c: Category)
    ensures c.id == id && c.userId == userId && !c.isDeleted
    ensures c.name == dto.name && c.categoryType == dto.categoryType && c.color == dto.color && c.icon == dto.icon
  {
    Category(id, userId, dto.name, dto.categoryType, dto.color, dto.icon, false)
  }

  /** `CreateCategoryAsync`: a category with a fresh id owned by the caller. */
  method CreateCategory(db: FinanceDb, dto: CreateCategoryDto, userId: Guid, newId: Guid) returns (r: CategoryDto)
    requires forall c :: c in db.categories ==> c.id != newId
    modifies db`categories
    ensures db.categories == old(db.categories) + [NewCategory(dto, userId, newId)]
    ensures r == ToDto(NewCategory(dto, userId, newId))
  {
    var category := Category(EmptyGuid, EmptyGuid, dto.name, dto.categoryType, dto.color, dto.icon, false);
    category := category.(userId := userId, id := newId);
    db.categories := db.categories + [category];
    r := ToDto(category);
  }

  /** Once created, the category is what the caller gets by its id. */
  lemma CreatedCategoryFound(categories: seq<Category>, dto: CreateCategoryDto, userId: Guid, newId: Guid)
    requires forall c :: c in categories ==> c.id != newId
    ensures GetCategoryById(categories + [NewCategory(dto, userId, newId)], newId, userId)
      == Some(ToDto(NewCategory(dto, userId, newId)))
  {
    var added := categories + [NewCategory(dto, userId, newId)];
    assert NewCategory(dto, userId, newId) in added;
  }

  /** `UpdateCategoryAsync`: only the name, colour and icon change. */
  method UpdateCategory(db: FinanceDb, categoryId: Guid, dto: UpdateCategoryDto, userId: Guid) returns (r: Result<CategoryDto>)
    modifies db`categories
    ensures var k := IndexWhere(old(db.categories), OwnedCategory(categoryId, userId));
      match k
      case None => r == Err(NotFound) && db.categories == old(db.categories)
      case Some(i) =>
        var was := old(db.categories)[i];
        db.categories == old(db.categories)[i := was.(name := dto.name, color := dto.color, icon := dto.icon)]
        && r == Ok(ToDto(db.categories[i]))
        && r.value.categoryType == was.categoryType && db.categories[i].userId == userId
  {
    var k := IndexWhere(db.categories, OwnedCategory(categoryId, userId));
    if k.None? {
      return Err(NotFound);
    }
    var i := k.value;
    var category := db.categories[i].(name := dto.name, color := dto.color, icon := dto.icon);
    db.categories := db.categories[i := category];
    r := Ok(ToDto(category));
  }

  /** `DeleteCategoryAsync`: the caller's live category is soft-deleted. */
  method DeleteCategory(db: FinanceDb, categoryId: Guid, userId: Guid) returns (r: Outcome)
    modifies db`categories
    ensures var k := IndexWhere(old(db.categories), OwnedCategory(categoryId, userId));
      match k
      case None => r == Fail(NotFound) && db.categories == old(db.categories)
      case Some(i) => r == Pass && db.categories == old(db.categories)[i := old(db.categories)[i].(isDeleted := true)]
  {
    var k := IndexWhere(db.categories, OwnedCategory(categoryId, userId));
    if k.None? {
      return Fail(NotFound);
    }
    db.categories := db.categories[k.value := db.categories[k.value].(isDeleted := true)];
    r := Pass;
  }

  /** With unique ids, a deleted category can no longer be found by the caller. */
  lemma DeletedCategoryGone(categories: seq<Category>, i: nat, userId: Guid)
    requires UniqueIds(categories, (c: Category) => c.id)
    requires i < |categories|
    ensures GetCategoryById(categories[i := categories[i].(isDeleted := true)], categories[i].id, userId).None?
  {
    var after := categories[i := categories[i].(isDeleted := true)];
    forall c | c in after && c.id == categories[i].id ensures c.isDeleted {
      var j :| 0 <= j < |after| && after[j] == c;
      if j != i {
        assert categories[j].id == categories[i].id;
      }
    }
  }

  // ----- Defaults -----

  /** One row of the default table: name, icon and colour. */
  datatype DefaultSpec = DefaultSpec(name: string, icon: string, color: string)

  const ExpenseDefaults: seq<DefaultSpec> := [
    DefaultSpec("Alimentação", "🍔", "#FF6B6B"),
    DefaultSpec("Transporte", "🚗", "#4ECDC4"),
    DefaultSpec("Moradia", "🏠", "#45B7D1"),
    DefaultSpec("Saúde", "💊", "#96CEB4"),
    DefaultSpec("Educação", "📚", "#FFEAA7"),
    DefaultSpec("Lazer", "🎮", "#DFE6E9"),
    DefaultSpec("Compras", "🛒", "#FAB1A0"),
    DefaultSpec("Contas", "📄", "#74B9FF"),
    DefaultSpec("Outros", "📦", "#A29BFE")
  ]

  const IncomeDefaults: seq<DefaultSpec> := [
    DefaultSpec("Salário", "💰", "#00B894"),
    DefaultSpec("Freelance", "💼", "#6C5CE7"),
    DefaultSpec("Investimentos", "📈", "#FDCB6E"),
    DefaultSpec("Outras Receitas", "💵", "#55EFC4")
  ]

  const DefaultCount: nat := |ExpenseDefaults| + |IncomeDefaults|

  /** The `i`-th default category for the user, with the `i`-th fresh id:
      the expense defaults first, then the income defaults. */
  function DefaultCategory(userId: Guid, ids: seq<Guid>, i: nat): (c: Category)
    requires |ids| == DefaultCount && i < DefaultCount
    ensures c.id == ids[i] && c.userId == userId && !c.isDeleted
    ensures c.categoryType == (if i < |ExpenseDefaults| then CategoryType.Expense else CategoryType.Income)
  {
    var isExpense := i < |ExpenseDefaults|;
    var spec := if isExpense then ExpenseDefaults[i] else IncomeDefaults[i - |ExpenseDefaults|];
    Category(ids[i], userId, spec.name, if isExpense then CategoryType.Expense else CategoryType.Income,
      Some(spec.color), Some(spec.icon), false)
  }

  /** The whole default list for the user. */
  function DefaultCategories(userId: Guid, ids: seq<Guid>): (r: seq<Category>)
    requires |ids| == DefaultCount
    ensures |r| == DefaultCount
    ensures forall i :: 0 <= i < |r| ==> r[i] == DefaultCategory(userId, ids, i)
  {
    seq(DefaultCount, i requires 0 <= i < DefaultCount => DefaultCategory(userId, ids, i))
  }

  predicate IsExpenseCategory(c: Category) { c.categoryType == CategoryType.Expense }

  predicate IsIncomeCategory(c: Category) { c.categoryType == CategoryType.Income }

  /** The first nine defaults are expense categories, the last four income ones. */
  lemma DefaultsPartition(userId: Guid, ids: seq<Guid>)
    requires |ids| == DefaultCount
    ensures DefaultCount == 13 && |ExpenseDefaults| == 9
    ensures forall c :: c in DefaultCategories(userId, ids)[..9] ==> IsExpenseCategory(c) && !IsIncomeCategory(c)
    ensures forall c :: c in DefaultCategories(userId, ids)[9..] ==> IsIncomeCategory(c) && !IsExpenseCategory(c)
  {
    var d := DefaultCategories(userId, ids);
    forall c | c in d[..9] ensures IsExpenseCategory(c) && !IsIncomeCategory(c) {
      var i :| 0 <= i < 9 && d[..9][i] == c;
      assert c == DefaultCategory(userId, ids, i);
    }
    forall c | c in d[9..] ensures IsIncomeCategory(c) && !IsExpenseCategory(c) {
      var i :| 0 <= i < 4 && d[9..][i] == c;
      assert c == DefaultCategory(userId, ids, 9 + i);
    }
  }

  /** Thirteen defaults, owned by the user and live: nine expense categories
      and four income categories. */
  lemma DefaultsShape(userId: Guid, ids: seq<Guid>)
    requires |ids| == DefaultCount
    ensures |DefaultCategories(userId, ids)| == 13
    ensures forall c :: c in DefaultCategories(userId, ids) ==> c.userId == userId && !c.isDeleted
    ensures |Filter(DefaultCategories(userId, ids), IsExpenseCategory)| == 9
    ensures |Filter(DefaultCategories(userId, ids), IsIncomeCategory)| == 4
  {
    var d := DefaultCategories(userId, ids);
    DefaultsPartition(userId, ids);
    var expenses, incomes := d[..9], d[9..];
    assert d == expenses + incomes;
    FilterConcat(expenses, incomes, IsExpenseCategory);
    FilterAll(expenses, IsExpenseCategory);
    FilterNone(incomes, IsExpenseCategory);
    FilterConcat(expenses, incomes, IsIncomeCategory);
    FilterNone(expenses, IsIncomeCategory);
    FilterAll(incomes, IsIncomeCategory);
  }

  /** With distinct ids that are new to the table, the table keeps unique ids
      once the defaults are added. */
  lemma DefaultsKeepIdsUnique(categories: seq<Category>, userId: Guid, ids: seq<Guid>)
    requires |ids| == DefaultCount && NoDuplicates(ids)
    requires UniqueIds(categories, (c: Category) => c.id)
    requires forall c, x :: c in categories && x in ids ==> c.id != x
    ensures UniqueIds(categories + DefaultCategories(userId, ids), (c: Category) => c.id)
  {
    var d := DefaultCategories(userId, ids);
    var all := categories + d;
    forall i, j | 0 <= i < j < |all| ensures all[i].id != all[j].id {
      if j >= |categories| {
        if i >= |categories| {
          assert all[i].id == ids[i - |categories|];
        } else {
          assert all[j].id == ids[j - |categories|];
          assert ids[j - |categories|] in ids;
          assert all[i] in categories;
        }
      }
    }
  }

  /** `CreateDefaultCategoriesAsync`: the defaults are added one at a time, in order. */
  method CreateDefaultCategories(db: FinanceDb, userId: Guid, ids: seq<Guid>)
    requires |ids| == DefaultCount
    modifies db`categories
    ensures db.categories == old(db.categories) + DefaultCategories(userId, ids)
  {
    var defaults := DefaultCategories(userId, ids);
    ghost var start := db.categories;
    for i := 0 to |defaults|
      invariant db.categories == start + defaults[..i]
    {
      assert defaults[..i + 1] == defaults[..i] + [defaults[i]];
      db.categories := db.categories + [defaults[i]];
    }
    assert defaults[..|defaults|] == defaults;
  }
}
