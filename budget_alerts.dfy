/** `check_and_create_budget_alerts`: after an expense is added, each budget of the
    current month that has reached its threshold or its amount gets one warning or
    one exceeded notification, at most once per type, budget and day. */
module BudgetAlerts {
  import opened Wrappers
  import opened Ledger
  import opened Notifications
  import Budgets
  import Calendar

  /** The notification preferences kept in a user's profile. */
  datatype Prefs = Prefs(emailNotifications: bool, budgetAlerts: bool)

  /** The preferences in force: both default to on when the user has no profile. */
  function EffectivePrefs(profile: Option<Prefs>): (p: Prefs)
    ensures profile.None? ==> p.emailNotifications && p.budgetAlerts
    ensures profile.Some? ==> p == profile.value
  {
    profile.GetOr(Prefs(true, true))
  }

  /** The category filter of a budget: its category, or rows without a category (`category=None`). */
  function CategoryFilter(b: Budget): Option<int> {
    match b.category
    case None => None
    case Some(c) => Some(c.id)
  }

  /** What the budget has spent this month: all expenses for the overall budget, the
      expenses of its category otherwise. */
  function Spent(txs: seq<Transaction>, b: Budget, today: Calendar.Date): int {
    if b.isOverall then SumWhere(txs, MonthKind(b.user, Expense, today.year, today.month))
    else SumWhere(txs, CategoryMonthExpense(b.user, CategoryFilter(b), today.year, today.month))
  }

  /** The budget name used in titles; a category budget whose category is gone is named as
      `Budget.__str__` names it. */
  function BudgetName(b: Budget): string {
    if b.isOverall then "Overall Monthly Budget"
    else if b.category.Some? then b.category.value.name + " Budget"
    else "Unknown Budget"
  }

  /** A notification of `kind` for budget `budgetId` was already created for `user` on day `day`. */
  predicate AlreadyNotified(rows: seq<Notification>, user: int, kind: NotificationType, budgetId: int, day: int) {
    exists i :: 0 <= i < |rows| && rows[i].user == user && rows[i].kind == kind
                && rows[i].data.Some? && rows[i].data.value.budgetId == budgetId && DayOf(rows[i].createdAt) == day
  }

  function AlertDataFor(txs: seq<Transaction>, b: Budget, today: Calendar.Date): AlertData {
    AlertData(b.id, CategoryFilter(b), Spent(txs, b, today), b.amount, Budgets.Percentage(Spent(txs, b, today), b.amount))
  }

  /** The decision for one budget with a positive amount. */
  function AlertFor(rows: seq<Notification>, txs: seq<Transaction>, b: Budget, today: Calendar.Date, prefs: Prefs): (r: Option<Draft>)
    requires Calendar.Valid(today)
    ensures r.Some? ==> r.value.user == b.user && r.value.data == AlertDataFor(txs, b, today) && b.amount > 0
  {
    if b.amount <= 0 then None
    else
      var pct := Budgets.Percentage(Spent(txs, b, today), b.amount);
      var day := Calendar.ToOrdinal(today);
      if pct >= 100.0 then
        if AlreadyNotified(rows, b.user, BudgetExceeded, b.id, day) then None
        else Some(Draft(b.user, BudgetExceeded, BudgetName(b) + " Exceeded!", AlertDataFor(txs, b, today), prefs.emailNotifications))
      else if pct >= b.alertThreshold as real then
        if AlreadyNotified(rows, b.user, BudgetWarning, b.id, day) then None
        else Some(Draft(b.user, BudgetWarning, BudgetName(b) + " Near Limit", AlertDataFor(txs, b, today), prefs.emailNotifications))
      else None
  }

  /** `Budget.objects.filter(user=user, month=today.month, year=today.year)`. */
  predicate CurrentBudget(b: Budget, user: int, today: Calendar.Date) {
    b.user == user && b.month == today.month && b.year == today.year
  }

  /** The drafts of the loop over the budgets, in table order. */
  function Drafts(rows: seq<Notification>, txs: seq<Transaction>, budgets: seq<Budget>, user: int,
                  today: Calendar.Date, prefs: Prefs): seq<Draft>
    requires Calendar.Valid(today)
  {
    if budgets == [] then []
    else
      var b := budgets[|budgets| - 1];
      var d := if CurrentBudget(b, user, today) then AlertFor(rows, txs, b, today, prefs) else None;
      Drafts(rows, txs, budgets[..|budgets| - 1], user, today, prefs) + (if d.Some? then [d.value] else [])
  }

  /** Everything the call creates: nothing at all when budget alerts are switched off. */
  function Alerts(rows: seq<Notification>, txs: seq<Transaction>, budgets: seq<Budget>, user: int,
                  today: Calendar.Date, profile: Option<Prefs>): seq<Draft>
    requires Calendar.Valid(today)
  {
    var prefs := EffectivePrefs(profile);
    if !prefs.budgetAlerts then [] else Drafts(rows, txs, budgets, user, today, prefs)
  }

  /** The function itself: the loop collects the drafts and one `bulk_create` saves them. */
  method CheckAndCreateBudgetAlerts(table: NotificationTable, txs: seq<Transaction>, budgets: seq<Budget>,
                                    user: int, today: Calendar.Date, profile: Option<Prefs>, now: int)
    requires Calendar.Valid(today) && table.Valid()
    modifies table
    ensures table.Valid()
    ensures table.rows == old(table.rows) + Stamped(Alerts(old(table.rows), txs, budgets, user, today, profile), old(table.nextId), now)
  {
    var prefs := EffectivePrefs(profile);
    if !prefs.budgetAlerts {
      assert Stamped([], table.nextId, now) == [];
      assert table.rows + [] == table.rows;
      return;
    }
    var toCreate: seq<Draft> := [];
    var i := 0;
    while i < |budgets|
      invariant 0 <= i <= |budgets|
      invariant toCreate == Drafts(table.rows, txs, budgets[..i], user, today, prefs)
    {
      var b := budgets[i];
      if CurrentBudget(b, user, today) {
        var d := AlertFor(table.rows, txs, b, today, prefs);
        if d.Some? {
          toCreate := toCreate + [d.value];
        }
      }
      assert budgets[..i + 1][..i] == budgets[..i];
      i := i + 1;
    }
    assert budgets[..i] == budgets;
    table.BulkCreate(toCreate, now);
  }

  /** With budget alerts off, nothing is created. */
  lemma AlertsOffCreatesNothing(rows: seq<Notification>, txs: seq<Transaction>, budgets: seq<Budget>,
                                user: int, today: Calendar.Date, profile: Option<Prefs>)
    requires Calendar.Valid(today)
    requires profile.Some? && !profile.value.budgetAlerts
    ensures Alerts(rows, txs, budgets, user, today, profile) == []
  {
  }

  /** Every draft comes from a budget of `user` for the current month with a positive amount and
      says which budget it is about; a warning is created only for a budget in warning
      status and an exceeded alert only for an exceeded one; neither repeats a notification
      of the same type for the same budget from earlier today. */
  lemma {:induction false} DraftsSound(rows: seq<Notification>, txs: seq<Transaction>, budgets: seq<Budget>,
                                       user: int, today: Calendar.Date, prefs: Prefs)
    requires Calendar.Valid(today)
    ensures forall d :: d in Drafts(rows, txs, budgets, user, today, prefs) ==>
              d.user == user
              && (d.kind == BudgetExceeded || d.kind == BudgetWarning)
              && !AlreadyNotified(rows, user, d.kind, d.data.budgetId, Calendar.ToOrdinal(today))
              && (exists b :: b in budgets && CurrentBudget(b, user, today) && b.amount > 0 && b.id == d.data.budgetId
                    && d.data.spent == Spent(txs, b, today)
                    && (d.kind == BudgetExceeded <==> Budgets.StatusOf(Budgets.Percentage(d.data.spent, b.amount), b.alertThreshold) == Budgets.Exceeded)
                    && (d.kind == BudgetWarning <==> Budgets.StatusOf(Budgets.Percentage(d.data.spent, b.amount), b.alertThreshold) == Budgets.Warning))
  {
    if budgets != [] {
      DraftsSound(rows, txs, budgets[..|budgets| - 1], user, today, prefs);
      forall b | b in budgets[..|budgets| - 1] ensures b in budgets { }
    }
  }

  /** The loop keeps the decision of every current budget: nothing it decides is dropped. */
  lemma {:induction false} DecisionKept(rows: seq<Notification>, txs: seq<Transaction>, budgets: seq<Budget>,
                                        user: int, today: Calendar.Date, prefs: Prefs, k: int)
    requires Calendar.Valid(today) && 0 <= k < |budgets| && CurrentBudget(budgets[k], user, today)
    ensures AlertFor(rows, txs, budgets[k], today, prefs).Some? ==>
              AlertFor(rows, txs, budgets[k], today, prefs).value in Drafts(rows, txs, budgets, user, today, prefs)
  {
    var init := budgets[..|budgets| - 1];
    if k < |budgets| - 1 {
      assert init[k] == budgets[k];
      DecisionKept(rows, txs, init, user, today, prefs, k);
    }
  }

  /** Every budget that needs an alert gets one: a current budget with a positive amount that
      has reached its amount, or its threshold only, and was not yet alerted of that type today,
      has a draft of that type about it. */
  lemma DraftsComplete(rows: seq<Notification>, txs: seq<Transaction>, budgets: seq<Budget>,
                       user: int, today: Calendar.Date, prefs: Prefs, k: int)
    requires Calendar.Valid(today) && 0 <= k < |budgets|
    requires CurrentBudget(budgets[k], user, today) && budgets[k].amount > 0
    ensures var b := budgets[k];
            var pct := Budgets.Percentage(Spent(txs, b, today), b.amount);
            (pct >= 100.0 && !AlreadyNotified(rows, user, BudgetExceeded, b.id, Calendar.ToOrdinal(today)) ==>
               exists d :: d in Drafts(rows, txs, budgets, user, today, prefs)
                           && d.kind == BudgetExceeded && d.data.budgetId == b.id)
            && (b.alertThreshold as real <= pct < 100.0
                && !AlreadyNotified(rows, user, BudgetWarning, b.id, Calendar.ToOrdinal(today)) ==>
               exists d :: d in Drafts(rows, txs, budgets, user, today, prefs)
                           && d.kind == BudgetWarning && d.data.budgetId == b.id)
  {
    DecisionKept(rows, txs, budgets, user, today, prefs, k);
    var r := AlertFor(rows, txs, budgets[k], today, prefs);
    if r.Some? {
      assert r.value in Drafts(rows, txs, budgets, user, today, prefs);
    }
  }

  /** No two drafts are about the same budget. */
  predicate OnePerBudget(ds: seq<Draft>) {
    forall i, j :: 0 <= i < j < |ds| ==> ds[i].data.budgetId != ds[j].data.budgetId
  }

  predicate DistinctIds(budgets: seq<Budget>) {
    forall i, j :: 0 <= i < j < |budgets| ==> budgets[i].id != budgets[j].id
  }

  lemma {:induction false} DraftsFromBudgets(rows: seq<Notification>, txs: seq<Transaction>, budgets: seq<Budget>,
                                             user: int, today: Calendar.Date, prefs: Prefs)
    requires Calendar.Valid(today)
    ensures forall d :: d in Drafts(rows, txs, budgets, user, today, prefs) ==>
              exists k :: 0 <= k < |budgets| && budgets[k].id == d.data.budgetId
  {
    if budgets != [] {
      var init := budgets[..|budgets| - 1];
      DraftsFromBudgets(rows, txs, init, user, today, prefs);
      forall d | d in Drafts(rows, txs, init, user, today, prefs)
        ensures exists k :: 0 <= k < |budgets| && budgets[k].id == d.data.budgetId
      {
        var k :| 0 <= k < |init| && init[k].id == d.data.budgetId;
        assert budgets[k] == init[k];
      }
    }
  }

  /** At most one notification per budget: given distinct budget ids, no two drafts are about
      the same budget, so a budget never gets both a warning and an exceeded alert at once. */
  lemma {:induction false} AtMostOnePerBudget(rows: seq<Notification>, txs: seq<Transaction>, budgets: seq<Budget>,
                                              user: int, today: Calendar.Date, prefs: Prefs)
    requires Calendar.Valid(today) && DistinctIds(budgets)
    ensures OnePerBudget(Drafts(rows, txs, budgets, user, today, prefs))
  {
    if budgets != [] {
      var init := budgets[..|budgets| - 1];
      var b := budgets[|budgets| - 1];
      assert DistinctIds(init);
      AtMostOnePerBudget(rows, txs, init, user, today, prefs);
      DraftsFromBudgets(rows, txs, init, user, today, prefs);
      var rest := Drafts(rows, txs, init, user, today, prefs);
      forall i | 0 <= i < |rest| ensures rest[i].data.budgetId != b.id {
        assert rest[i] in rest;
        var k :| 0 <= k < |init| && init[k].id == rest[i].data.budgetId;
        assert budgets[k] == init[k];
      }
      var ds := Drafts(rows, txs, budgets, user, today, prefs);
      var d := if CurrentBudget(b, user, today) then AlertFor(rows, txs, b, today, prefs) else None;
      assert ds == rest + (if d.Some? then [d.value] else []);
      forall i, j | 0 <= i < j < |ds| ensures ds[i].data.budgetId != ds[j].data.budgetId {
        if j < |rest| {
          assert ds[i] == rest[i] && ds[j] == rest[j];
          assert rest[i].data.budgetId != rest[j].data.budgetId;
        } else {
          assert d.Some? && j == |rest|;
          assert ds[j] == d.value;
          assert d.value.data == AlertDataFor(txs, b, today);
          assert ds[j].data.budgetId == b.id;
          assert ds[i] == rest[i];
          assert rest[i].data.budgetId != b.id;
        }
      }
    }
  }

  /** After the insert, no notification of the same user, type and budget shares its day with
      a new one: today's duplicates are never created (with the server clock on `today`). */
  lemma NoSecondAlertToday(rows: seq<Notification>, nextId: int, txs: seq<Transaction>, budgets: seq<Budget>,
                           user: int, today: Calendar.Date, profile: Option<Prefs>, now: int)
    requires Calendar.Valid(today) && DistinctIds(budgets)
    requires DayOf(now) == Calendar.ToOrdinal(today)
    ensures var ds := Alerts(rows, txs, budgets, user, today, profile);
            var all := rows + Stamped(ds, nextId, now);
            forall i, j :: 0 <= i < |all| && |rows| <= j < |all| && i != j
              && all[i].user == all[j].user && all[i].kind == all[j].kind && all[i].data.Some?
              && all[i].data.value.budgetId == all[j].data.value.budgetId
              ==> DayOf(all[i].createdAt) != DayOf(all[j].createdAt)
  {
    var prefs := EffectivePrefs(profile);
    var ds := Alerts(rows, txs, budgets, user, today, profile);
    var all := rows + Stamped(ds, nextId, now);
    if prefs.budgetAlerts {
      assert ds == Drafts(rows, txs, budgets, user, today, prefs);
      AtMostOnePerBudget(rows, txs, budgets, user, today, prefs);
      DraftsSound(rows, txs, budgets, user, today, prefs);
      forall i, j | 0 <= i < |all| && |rows| <= j < |all| && i != j
        && all[i].user == all[j].user && all[i].kind == all[j].kind && all[i].data.Some?
        && all[i].data.value.budgetId == all[j].data.value.budgetId
        ensures DayOf(all[i].createdAt) != DayOf(all[j].createdAt)
      {
        var d := ds[j - |rows|];
        assert d in ds;
        if i < |rows| {
          assert all[i] == rows[i];
          assert !AlreadyNotified(rows, user, d.kind, d.data.budgetId, Calendar.ToOrdinal(today));
        } else {
          assert false;
        }
      }
    }
  }

  // ---- The function as written -------------------------------------------------------

  /** What the loop body does with one budget as the code stands: `budget.category.name`
      raises `AttributeError` for a category budget without a category once its amount is
      positive, before any threshold is looked at. */
  function AlertForAsWritten(rows: seq<Notification>, txs: seq<Transaction>, b: Budget, today: Calendar.Date, prefs: Prefs): Result<Option<Draft>, string>
    requires Calendar.Valid(today)
  {
    if b.amount <= 0 then Ok(None)
    else if !b.isOverall && b.category.None? then Err("AttributeError")
    else Ok(AlertFor(rows, txs, b, today, prefs))
  }

  /** The loop as written: the first raising budget aborts the call before `bulk_create`. */
  function DraftsAsWritten(rows: seq<Notification>, txs: seq<Transaction>, budgets: seq<Budget>, user: int,
                           today: Calendar.Date, prefs: Prefs): Result<seq<Draft>, string>
    requires Calendar.Valid(today)
  {
    if budgets == [] then Ok([])
    else
      match DraftsAsWritten(rows, txs, budgets[..|budgets| - 1], user, today, prefs)
      case Err(e) => Err(e)
      case Ok(ds) =>
        var b := budgets[|budgets| - 1];
        if !CurrentBudget(b, user, today) then Ok(ds)
        else
          match AlertForAsWritten(rows, txs, b, today, prefs)
          case Err(e) => Err(e)
          case Ok(d) => Ok(ds + (if d.Some? then [d.value] else []))
  }

  /** A budget that raises as written. */
  predicate Orphan(b: Budget) {
    !b.isOverall && b.category.None? && b.amount > 0
  }

  /** As written, one current budget without a category and with a positive amount makes
      the whole call fail, so no alert at all is saved for any budget. */
  lemma {:induction false} AsWrittenFailsOnOrphan(rows: seq<Notification>, txs: seq<Transaction>, budgets: seq<Budget>,
                                                  user: int, today: Calendar.Date, prefs: Prefs, k: int)
    requires Calendar.Valid(today)
    requires 0 <= k < |budgets| && CurrentBudget(budgets[k], user, today) && Orphan(budgets[k])
    ensures DraftsAsWritten(rows, txs, budgets, user, today, prefs).Err?
  {
    if k < |budgets| - 1 {
      AsWrittenFailsOnOrphan(rows, txs, budgets[..|budgets| - 1], user, today, prefs, k);
    }
  }

  /** Without such a budget the code as written and the corrected decision agree. */
  lemma {:induction false} AsWrittenAgreesWithoutOrphans(rows: seq<Notification>, txs: seq<Transaction>, budgets: seq<Budget>,
                                                         user: int, today: Calendar.Date, prefs: Prefs)
    requires Calendar.Valid(today)
    requires forall k :: 0 <= k < |budgets| && CurrentBudget(budgets[k], user, today) ==> !Orphan(budgets[k])
    ensures DraftsAsWritten(rows, txs, budgets, user, today, prefs) == Ok(Drafts(rows, txs, budgets, user, today, prefs))
  {
    if budgets != [] {
      var init := budgets[..|budgets| - 1];
      assert forall k :: 0 <= k < |init| ==> init[k] == budgets[k];
      AsWrittenAgreesWithoutOrphans(rows, txs, init, user, today, prefs);
      var b := budgets[|budgets| - 1];
      assert DraftsAsWritten(rows, txs, init, user, today, prefs) == Ok(Drafts(rows, txs, init, user, today, prefs));
      if CurrentBudget(b, user, today) {
        assert !Orphan(b);
        assert AlertForAsWritten(rows, txs, b, today, prefs) == Ok(AlertFor(rows, txs, b, today, prefs));
        var d := AlertFor(rows, txs, b, today, prefs);
        assert DraftsAsWritten(rows, txs, budgets, user, today, prefs)
               == Ok(Drafts(rows, txs, init, user, today, prefs) + (if d.Some? then [d.value] else []));
        assert Drafts(rows, txs, budgets, user, today, prefs)
               == Drafts(rows, txs, init, user, today, prefs) + (if d.Some? then [d.value] else []);
      } else {
        assert Drafts(rows, txs, budgets, user, today, prefs) == Drafts(rows, txs, init, user, today, prefs) + [];
        assert Drafts(rows, txs, init, user, today, prefs) + [] == Drafts(rows, txs, init, user, today, prefs);
      }
    }
  }

  /** The concrete case: one category budget of 100.00 without a category and one expense of
      100.00 without a category today. As written the call raises; corrected, it creates the
      exceeded alert "Unknown Budget Exceeded!". */
  lemma OrphanBudgetExample(today: Calendar.Date)
    requires Calendar.Valid(today)
    ensures var b := Budget(1, 7, None, 10000, today.month, today.year, false, 80);
            var t := Transaction(1, 7, None, Expense, 10000, Calendar.ToOrdinal(today));
            DraftsAsWritten([], [t], [b], 7, today, Prefs(true, true)).Err?
            && Drafts([], [t], [b], 7, today, Prefs(true, true))
               == [Draft(7, BudgetExceeded, "Unknown Budget Exceeded!", AlertData(1, None, 10000, 10000, 100.0), true)]
  {
    var b := Budget(1, 7, None, 10000, today.month, today.year, false, 80);
    var t := Transaction(1, 7, None, Expense, 10000, Calendar.ToOrdinal(today));
    Calendar.FromToOrdinal(today);
    assert InMonth(t, today.year, today.month);
    assert CategoryMonthExpense(7, None, today.year, today.month)(t);
    assert [t][..0] == [];
    assert SumWhere([t], CategoryMonthExpense(7, None, today.year, today.month)) == 10000;
    assert Spent([t], b, today) == 10000;
    assert Budgets.Percentage(10000, 10000) == 100.0;
    assert BudgetName(b) + " Exceeded!" == "Unknown Budget Exceeded!";
    assert !AlreadyNotified([], 7, BudgetExceeded, 1, Calendar.ToOrdinal(today));
    assert [b][..0] == [];
    assert AlertFor([], [t], b, today, Prefs(true, true))
           == Some(Draft(7, BudgetExceeded, "Unknown Budget Exceeded!", AlertData(1, None, 10000, 10000, 100.0), true));
  }
}
