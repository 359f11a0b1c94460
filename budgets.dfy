/** Budget status and the budget overview of the budget and dashboard views:
    the spent-versus-budget percentage, the three-way status, the per-category
    entries, their sort by percentage and the alert counts. */
module Budgets {
  import opened Wrappers
  import opened Ledger
  import Sorting
  import Periods
  import Calendar

  datatype Status = Normal | Warning | Exceeded

  /** `spent / amount * 100`, or `0` for a budget whose amount is not positive. */
  function Percentage(spent: int, amount: int): (p: real)
    ensures amount <= 0 ==> p == 0.0
    ensures amount > 0 ==> p * amount as real == spent as real * 100.0
  {
    if amount > 0 then spent as real / amount as real * 100.0 else 0.0
  }

  /** The status conditional: exceeded from 100 percent, warning from the threshold, else normal. */
  function StatusOf(pct: real, threshold: int): (s: Status)
    ensures s == Exceeded <==> pct >= 100.0
    ensures s == Warning <==> threshold as real <= pct < 100.0
    ensures s == Normal <==> pct < 100.0 && pct < threshold as real
  {
    if pct >= 100.0 then Exceeded else if pct >= threshold as real then Warning else Normal
  }

  /** The status stated on money rather than on percentages: a positive budget is exceeded
      exactly when the spending reaches it and in warning exactly when the spending reaches
      the threshold share of it without reaching it; a budget that is not positive is never
      exceeded and is in warning only when its threshold is not positive. */
  lemma StatusBySpending(spent: int, amount: int, threshold: int)
    ensures var s := StatusOf(Percentage(spent, amount), threshold);
            (amount > 0 ==> ((s == Exceeded <==> spent >= amount)
                             && (s == Warning <==> threshold * amount <= 100 * spent && spent < amount)))
            && (amount <= 0 ==> s == (if threshold <= 0 then Warning else Normal))
  {
    if amount > 0 {
      ReachesHundred(spent, amount);
      ReachesThreshold(spent, amount, threshold);
    }
  }

  /** For a positive budget the percentage reaches 100 exactly when the spending reaches the amount. */
  lemma ReachesHundred(spent: int, amount: int)
    requires amount > 0
    ensures Percentage(spent, amount) >= 100.0 <==> spent >= amount
  {
    var p, a := Percentage(spent, amount), amount as real;
    ScaleCompare(p, 100.0, a);
    assert p * a == spent as real * 100.0;
    assert 100.0 * a == (100 * amount) as real;
    assert spent as real * 100.0 == (100 * spent) as real;
  }

  /** For a positive budget the percentage reaches the threshold exactly when the spending
      reaches the threshold share of the amount. */
  lemma ReachesThreshold(spent: int, amount: int, threshold: int)
    requires amount > 0
    ensures Percentage(spent, amount) >= threshold as real <==> threshold * amount <= 100 * spent
  {
    var p, a, t := Percentage(spent, amount), amount as real, threshold as real;
    ScaleCompare(p, t, a);
    assert p * a == spent as real * 100.0;
    assert t * a == (threshold * amount) as real;
    assert spent as real * 100.0 == (100 * spent) as real;
  }

  /** Multiplying both sides by a positive number keeps a comparison. */
  lemma ScaleCompare(x: real, y: real, a: real)
    requires a > 0.0
    ensures x >= y <==> x * a >= y * a
  {
    if x >= y {
      assert x * a - y * a == (x - y) * a;
    } else {
      assert y * a - x * a == (y - x) * a;
    }
  }

  /** One row of `category_budgets` (a value of `budget_overview` on the dashboard). */
  datatype CategoryEntry = CategoryEntry(
    budgetId: int, categoryId: int, categoryName: string, categoryColor: string,
    amount: int, spent: int, remaining: int, percentage: real, status: Status, alertThreshold: int)

  /** The `overall_budget` object. */
  datatype OverallEntry = OverallEntry(
    budgetId: int, amount: int, spent: int, remaining: int, percentage: real, status: Status, alertThreshold: int)

  /** `user`'s budgets of the selected month of one kind (overall or per category). */
  predicate OfMonth(b: Budget, user: int, sel: Periods.MonthYear, overall: bool) {
    b.user == user && b.isOverall == overall && b.month == sel.month && b.year == sel.year
  }

  /** The money spent against a category budget in its month. */
  function CategorySpent(txs: seq<Transaction>, b: Budget, sel: Periods.MonthYear): int
    requires b.category.Some?
  {
    SumWhere(txs, CategoryMonthExpense(b.user, Some(b.category.value.id), sel.year, sel.month))
  }

  function EntryFor(txs: seq<Transaction>, b: Budget, sel: Periods.MonthYear): (e: CategoryEntry)
    requires b.category.Some?
    ensures e.budgetId == b.id && e.categoryId == b.category.value.id
    ensures e.remaining == b.amount - e.spent
    ensures e.status == StatusOf(e.percentage, b.alertThreshold)
  {
    var spent := CategorySpent(txs, b, sel);
    var pct := Percentage(spent, b.amount);
    CategoryEntry(b.id, b.category.value.id, b.category.value.name, b.category.value.color,
                  b.amount, spent, b.amount - spent, pct, StatusOf(pct, b.alertThreshold), b.alertThreshold)
  }

  /** The category entries in table order: every category budget of the month that still
      has its category, each with its month's spending. */
  function CategoryEntries(budgets: seq<Budget>, txs: seq<Transaction>, user: int, sel: Periods.MonthYear): seq<CategoryEntry> {
    if budgets == [] then []
    else
      var b := budgets[|budgets| - 1];
      CategoryEntries(budgets[..|budgets| - 1], txs, user, sel)
      + (if OfMonth(b, user, sel, false) && b.category.Some? then [EntryFor(txs, b, sel)] else [])
  }

  /** The loop that appends one entry per category budget (`category_data` / `budget_overview`). */
  method BuildCategoryData(budgets: seq<Budget>, txs: seq<Transaction>, user: int, sel: Periods.MonthYear)
    returns (data: seq<CategoryEntry>)
    ensures data == CategoryEntries(budgets, txs, user, sel)
  {
    data := [];
    var i := 0;
    while i < |budgets|
      invariant 0 <= i <= |budgets|
      invariant data == CategoryEntries(budgets[..i], txs, user, sel)
    {
      var b := budgets[i];
      if OfMonth(b, user, sel, false) && b.category.Some? {
        var spent := CategorySpent(txs, b, sel);
        var pct := Percentage(spent, b.amount);
        data := data + [CategoryEntry(b.id, b.category.value.id, b.category.value.name, b.category.value.color,
                                      b.amount, spent, b.amount - spent, pct, StatusOf(pct, b.alertThreshold), b.alertThreshold)];
      }
      assert budgets[..i + 1][..i] == budgets[..i];
      i := i + 1;
    }
    assert budgets[..i] == budgets;
  }

  /** Every entry is the entry of a category budget of `user` for the month. */
  lemma {:induction false} CategoryEntriesFromBudgets(budgets: seq<Budget>, txs: seq<Transaction>, user: int, sel: Periods.MonthYear)
    ensures |CategoryEntries(budgets, txs, user, sel)| <= |budgets|
    ensures forall e :: e in CategoryEntries(budgets, txs, user, sel) ==>
              exists b :: b in budgets && OfMonth(b, user, sel, false) && b.category.Some? && e == EntryFor(txs, b, sel)
  {
    if budgets != [] {
      CategoryEntriesFromBudgets(budgets[..|budgets| - 1], txs, user, sel);
      forall b | b in budgets[..|budgets| - 1] ensures b in budgets { }
    }
  }

  /** The first overall budget of the month in table order (`.first()`). */
  function FirstOverall(budgets: seq<Budget>, user: int, sel: Periods.MonthYear): (r: Option<Budget>)
    ensures r.Some? ==> r.value in budgets && OfMonth(r.value, user, sel, true)
    ensures r.None? <==> forall b :: b in budgets ==> !OfMonth(b, user, sel, true)
  {
    if budgets == [] then None
    else if OfMonth(budgets[0], user, sel, true) then Some(budgets[0])
    else
      var r := FirstOverall(budgets[1..], user, sel);
      assert forall b :: b in budgets ==> b == budgets[0] || b in budgets[1..];
      r
  }

  /** The overall budget's entry, its spending being all of the month's expenses. */
  function OverallFor(b: Budget, monthExpenses: int): (e: OverallEntry)
    ensures e.remaining == b.amount - monthExpenses
    ensures e.status == StatusOf(Percentage(monthExpenses, b.amount), b.alertThreshold)
  {
    var pct := Percentage(monthExpenses, b.amount);
    OverallEntry(b.id, b.amount, monthExpenses, b.amount - monthExpenses, pct, StatusOf(pct, b.alertThreshold), b.alertThreshold)
  }

  function CountStatus(entries: seq<CategoryEntry>, s: Status): (n: nat)
    ensures n <= |entries|
  {
    if entries == [] then 0
    else CountStatus(entries[..|entries| - 1], s) + (if entries[|entries| - 1].status == s then 1 else 0)
  }

  lemma {:induction false} CountStatusAppend(a: seq<CategoryEntry>, b: seq<CategoryEntry>, s: Status)
    ensures CountStatus(a + b, s) == CountStatus(a, s) + CountStatus(b, s)
  {
    if b == [] {
      assert a + b == a;
    } else {
      assert (a + b)[..|a + b| - 1] == a + b[..|b| - 1];
      CountStatusAppend(a, b[..|b| - 1], s);
    }
  }

  /** Taking one entry out of a list. */
  lemma RemoveAt(b: seq<CategoryEntry>, j: int, s: Status)
    requires 0 <= j < |b|
    ensures multiset(b[..j] + b[j + 1..]) == multiset(b) - multiset{b[j]}
    ensures CountStatus(b, s) == CountStatus(b[..j] + b[j + 1..], s) + (if b[j].status == s then 1 else 0)
  {
    assert b == b[..j] + [b[j]] + b[j + 1..];
    CountStatusAppend(b[..j] + [b[j]], b[j + 1..], s);
    CountStatusAppend(b[..j], [b[j]], s);
    CountStatusAppend(b[..j], b[j + 1..], s);
  }

  /** A position at which an element of the list's multiset occurs. */
  lemma Occurrence(b: seq<CategoryEntry>, x: CategoryEntry) returns (j: int)
    requires x in multiset(b)
    ensures 0 <= j < |b| && b[j] == x
  {
    assert x in b;
    j :| 0 <= j < |b| && b[j] == x;
  }

  /** Counting statuses does not depend on the order of the entries. */
  lemma {:induction false} CountStatusPermutation(a: seq<CategoryEntry>, b: seq<CategoryEntry>, s: Status)
    requires multiset(a) == multiset(b)
    ensures CountStatus(a, s) == CountStatus(b, s)
    decreases |a|
  {
    if a != [] {
      var x, rest := a[|a| - 1], a[..|a| - 1];
      RemoveAt(a, |a| - 1, s);
      assert a[..|a| - 1] + a[|a|..] == rest;
      var j := Occurrence(b, x);
      var others := b[..j] + b[j + 1..];
      RemoveAt(b, j, s);
      assert multiset(rest) == multiset(a) - multiset{x} == multiset(others);
      CountStatusPermutation(rest, others, s);
    }
  }

  /** Each entry has exactly one status, so the three counts add up to the number of entries. */
  lemma {:induction false} CountStatusPartition(entries: seq<CategoryEntry>)
    ensures CountStatus(entries, Normal) + CountStatus(entries, Warning) + CountStatus(entries, Exceeded) == |entries|
  {
    if entries != [] {
      CountStatusPartition(entries[..|entries| - 1]);
    }
  }

  /** The sort key `x['percentage']`. */
  function PercentageKey(e: CategoryEntry): real {
    e.percentage
  }

  /** The reply of the budget overview view. */
  datatype Overview = Overview(
    selected: Periods.MonthYear, isCurrentMonth: bool, hasBudget: bool,
    overall: Option<OverallEntry>, categories: seq<CategoryEntry>,
    exceededCount: int, warningCount: int, totalExpenses: int, totalIncome: int)

  /** One for the overall budget when it exists with status `s`. */
  function OverallCount(overall: Option<OverallEntry>, s: Status): nat {
    if overall.Some? && overall.value.status == s then 1 else 0
  }

  /** `BudgetOverviewView.get`: normalise the month, build the overall and category entries,
      sort the categories by percentage, highest first, and count the alerts. */
  method BudgetOverview(budgets: seq<Budget>, txs: seq<Transaction>, user: int,
                        monthParam: Option<string>, yearParam: Option<string>, today: Calendar.Date)
    returns (r: Overview)
    requires Calendar.Valid(today)
    ensures r.selected == Periods.SelectedMonth(monthParam, yearParam, today)
    ensures r.isCurrentMonth <==> r.selected == Periods.MonthYear(today.month, today.year)
    ensures r.hasBudget <==> exists b :: b in budgets && b.user == user && b.month == r.selected.month && b.year == r.selected.year
    ensures r.totalExpenses == SumWhere(txs, MonthKind(user, Expense, r.selected.year, r.selected.month))
    ensures r.totalIncome == SumWhere(txs, MonthKind(user, Income, r.selected.year, r.selected.month))
    ensures match FirstOverall(budgets, user, r.selected)
            case None => r.overall.None?
            case Some(b) => r.overall == Some(OverallFor(b, r.totalExpenses))
    ensures Sorting.SortedDesc(r.categories, PercentageKey)
    ensures multiset(r.categories) == multiset(CategoryEntries(budgets, txs, user, r.selected))
    ensures r.exceededCount == CountStatus(CategoryEntries(budgets, txs, user, r.selected), Exceeded) + OverallCount(r.overall, Exceeded)
    ensures r.warningCount == CountStatus(CategoryEntries(budgets, txs, user, r.selected), Warning) + OverallCount(r.overall, Warning)
  {
    var sel := Periods.SelectedMonth(monthParam, yearParam, today);
    var first := FirstOverall(budgets, user, sel);
    var hasCategoryBudget := exists b :: b in budgets && OfMonth(b, user, sel, false);
    var totalExpenses := SumWhere(txs, MonthKind(user, Expense, sel.year, sel.month));
    var totalIncome := SumWhere(txs, MonthKind(user, Income, sel.year, sel.month));
    var overall: Option<OverallEntry> := None;
    if first.Some? {
      overall := Some(OverallFor(first.value, totalExpenses));
    }
    var data := BuildCategoryData(budgets, txs, user, sel);
    var sorted := Sorting.SortDesc(data, PercentageKey);
    Sorting.SortDescCorrect(data, PercentageKey);
    var exceeded := CountStatus(sorted, Exceeded);
    var warning := CountStatus(sorted, Warning);
    CountStatusPermutation(sorted, data, Exceeded);
    CountStatusPermutation(sorted, data, Warning);
    if overall.Some? {
      if overall.value.status == Exceeded {
        exceeded := exceeded + 1;
      } else if overall.value.status == Warning {
        warning := warning + 1;
      }
    }
    r := Overview(sel, sel == Periods.MonthYear(today.month, today.year), first.Some? || hasCategoryBudget,
                  overall, sorted, exceeded, warning, totalExpenses, totalIncome);
  }

  /** At most one alert per entry and one for the overall budget is counted. */
  lemma AlertCountsBounded(r: Overview, budgets: seq<Budget>, txs: seq<Transaction>, user: int)
    requires multiset(r.categories) == multiset(CategoryEntries(budgets, txs, user, r.selected))
    requires r.exceededCount == CountStatus(CategoryEntries(budgets, txs, user, r.selected), Exceeded) + OverallCount(r.overall, Exceeded)
    requires r.warningCount == CountStatus(CategoryEntries(budgets, txs, user, r.selected), Warning) + OverallCount(r.overall, Warning)
    ensures 0 <= r.exceededCount + r.warningCount <= |r.categories| + 1
  {
    var entries := CategoryEntries(budgets, txs, user, r.selected);
    CountStatusPartition(entries);
    assert |multiset(r.categories)| == |multiset(entries)|;
  }
}
