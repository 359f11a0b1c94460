/** The month-based figures of the dashboard and `AnalyticsView`: the six-month
    income-versus-expense window ending at the selected month, the day-by-day
    spending of the selected month with its running total, and the changes
    against the previous month. */
module MonthlyAnalytics {
  import opened Ledger
  import Calendar
  import Periods

  /** One bar of the income-versus-expense chart. */
  datatype MonthTotals = MonthTotals(month: Periods.MonthYear, income: int, expense: int)

  /** The totals of `user`'s rows of `kind` in month `p` (`date__month`, `date__year`). */
  function MonthTotal(txs: seq<Transaction>, user: int, kind: TxType, p: Periods.MonthYear): int {
    SumWhere(txs, MonthKind(user, kind, p.year, p.month))
  }

  /** The six months ending at `sel`, in calendar order, each entry `i` being
      `datetime(year, month, 1) - relativedelta(months=5 - i)`. */
  method SixMonthWindow(txs: seq<Transaction>, user: int, sel: Periods.MonthYear) returns (rows: seq<MonthTotals>)
    requires 1 <= sel.month <= 12
    ensures |rows| == 6
    ensures forall k :: 0 <= k < 6 ==>
              1 <= rows[k].month.month <= 12
              && Periods.MonthIndex(rows[k].month) == Periods.MonthIndex(sel) - (5 - k)
              && rows[k].income == MonthTotal(txs, user, Income, rows[k].month)
              && rows[k].expense == MonthTotal(txs, user, Expense, rows[k].month)
    ensures forall k :: 0 <= k < 5 ==> rows[k + 1].month == Periods.NextMonth(rows[k].month)
    ensures rows[5].month == sel && rows[4].month == Periods.PrevMonth(sel)
  {
    rows := [];
    var i := 5;
    while i >= 0
      invariant -1 <= i <= 5
      invariant |rows| == 5 - i
      invariant forall k :: 0 <= k < |rows| ==>
                  1 <= rows[k].month.month <= 12
                  && Periods.MonthIndex(rows[k].month) == Periods.MonthIndex(sel) - (5 - k)
                  && rows[k].income == MonthTotal(txs, user, Income, rows[k].month)
                  && rows[k].expense == MonthTotal(txs, user, Expense, rows[k].month)
    {
      var p := Periods.MonthsBefore(sel, i);
      var monthIncome := MonthTotal(txs, user, Income, p);
      var monthExpense := MonthTotal(txs, user, Expense, p);
      rows := rows + [MonthTotals(p, monthIncome, monthExpense)];
      i := i - 1;
    }
    forall k | 0 <= k < 5
      ensures rows[k + 1].month == Periods.NextMonth(rows[k].month)
    {
      Periods.MonthIndexInjective(rows[k + 1].month, Periods.NextMonth(rows[k].month));
    }
    Periods.MonthIndexInjective(rows[5].month, sel);
    Periods.MonthIndexInjective(rows[4].month, Periods.PrevMonth(sel));
  }

  /** `user`'s expenses dated on day `d` of month `m` of year `y`
      (`date__year`, `date__month`, `date__day`). */
  function DayExpense(user: int, y: int, m: int, d: int): Transaction -> bool {
    (t: Transaction) => t.user == user && t.kind == Expense && Calendar.FromOrdinal(t.date) == Calendar.Date(y, m, d)
  }

  /** Filtering on a day's three fields selects the rows of that one ordinal. */
  lemma DayExpenseIsRangeSum(txs: seq<Transaction>, user: int, y: int, m: int, d: int)
    requires Calendar.Valid(Calendar.Date(y, m, d))
    ensures var z := Calendar.ToOrdinal(Calendar.Date(y, m, d));
            SumWhere(txs, DayExpense(user, y, m, d)) == RangeSum(txs, user, Expense, z, z)
  {
    var z := Calendar.ToOrdinal(Calendar.Date(y, m, d));
    forall i | 0 <= i < |txs|
      ensures DayExpense(user, y, m, d)(txs[i]) == InRange(user, Expense, z, z)(txs[i])
    {
      if txs[i].date == z {
        Calendar.FromToOrdinal(Calendar.Date(y, m, d));
      }
    }
    SumWhereSameRows(txs, DayExpense(user, y, m, d), InRange(user, Expense, z, z));
  }

  /** Day `day` of the month carries the running total from the month's first day one day further. */
  lemma RunningDay(txs: seq<Transaction>, user: int, sel: Periods.MonthYear, day: int)
    requires 1 <= sel.month <= 12 && 1 <= day <= Calendar.DaysInMonth(sel.year, sel.month)
    ensures var first := Calendar.MonthStart(sel.year, sel.month);
            RangeSum(txs, user, Expense, first, first + day - 1)
            == RangeSum(txs, user, Expense, first, first + day - 2) + SumWhere(txs, DayExpense(user, sel.year, sel.month, day))
  {
    var first := Calendar.MonthStart(sel.year, sel.month);
    var z := Calendar.ToOrdinal(Calendar.Date(sel.year, sel.month, day));
    assert z == first + day - 1;
    DayExpenseIsRangeSum(txs, user, sel.year, sel.month, day);
    RangeSumSplit(txs, user, Expense, first, z - 1, z);
  }

  /** One point of the monthly spending line. */
  datatype DaySpending = DaySpending(day: int, expense: int, cumulative: int)

  /** Row `i` of the spending line: day `i + 1`, its expenses, and the running total from
      the month's first day through it. */
  predicate DayRow(row: DaySpending, txs: seq<Transaction>, user: int, sel: Periods.MonthYear, i: int)
    requires 1 <= sel.month <= 12
  {
    && row.day == i + 1
    && row.expense == SumWhere(txs, DayExpense(user, sel.year, sel.month, i + 1))
    && row.cumulative == RangeSum(txs, user, Expense, Calendar.MonthStart(sel.year, sel.month),
                                  Calendar.MonthStart(sel.year, sel.month) + i)
  }

  /** The running total through the month's last day is the month's total. */
  lemma MonthRunningTotal(txs: seq<Transaction>, user: int, sel: Periods.MonthYear)
    requires 1 <= sel.month <= 12
    ensures var first := Calendar.MonthStart(sel.year, sel.month);
            RangeSum(txs, user, Expense, first, first + Calendar.DaysInMonth(sel.year, sel.month) - 1)
            == MonthTotal(txs, user, Expense, sel)
  {
    MonthSumIsRangeSum(txs, user, Expense, sel.year, sel.month);
    assert Calendar.MonthEnd(sel.year, sel.month)
           == Calendar.MonthStart(sel.year, sel.month) + Calendar.DaysInMonth(sel.year, sel.month) - 1;
  }

  /** The selected month day by day: each day's expenses and the running total, which on
      the month's last day is the month's expense total. */
  method DailySpending(txs: seq<Transaction>, user: int, sel: Periods.MonthYear) returns (rows: seq<DaySpending>)
    requires 1 <= sel.month <= 12
    ensures |rows| == Calendar.DaysInMonth(sel.year, sel.month)
    ensures forall i :: 0 <= i < |rows| ==> DayRow(rows[i], txs, user, sel, i)
    ensures rows[|rows| - 1].cumulative == MonthTotal(txs, user, Expense, sel)
  {
    var daysInMonth := Calendar.DaysInMonth(sel.year, sel.month);
    var first := Calendar.MonthStart(sel.year, sel.month);
    rows := [];
    var cumulative := 0;
    RangeSumEmpty(txs, user, Expense, first, first - 1);
    var day := 1;
    while day <= daysInMonth
      invariant 1 <= day <= daysInMonth + 1
      invariant |rows| == day - 1
      invariant cumulative == RangeSum(txs, user, Expense, first, first + day - 2)
      invariant forall i :: 0 <= i < |rows| ==> DayRow(rows[i], txs, user, sel, i)
    {
      var dayExpense := SumWhere(txs, DayExpense(user, sel.year, sel.month, day));
      RunningDay(txs, user, sel, day);
      cumulative := cumulative + dayExpense;
      var row := DaySpending(day, dayExpense, cumulative);
      assert DayRow(row, txs, user, sel, day - 1);
      rows := rows + [row];
      day := day + 1;
    }
    MonthRunningTotal(txs, user, sel);
  }

  /** `(current - previous) / previous * 100`, or `0` when the previous figure is not positive. */
  function ChangePercent(current: int, previous: int): (r: real)
    ensures previous <= 0 ==> r == 0.0
    ensures previous > 0 ==> r * previous as real == (current - previous) as real * 100.0
  {
    if previous > 0 then (current - previous) as real / previous as real * 100.0 else 0.0
  }

  /** Against a positive previous figure the change is positive exactly when the figure
      grew, zero exactly when it stayed, and `-100` exactly when it dropped to nothing. */
  lemma ChangePercentSign(current: int, previous: int)
    requires previous > 0
    ensures ChangePercent(current, previous) > 0.0 <==> current > previous
    ensures ChangePercent(current, previous) == 0.0 <==> current == previous
    ensures ChangePercent(current, previous) == -100.0 <==> current == 0
  {
    var r := ChangePercent(current, previous);
    var p := previous as real;
    assert r * p == (current - previous) as real * 100.0;
    assert r > 0.0 <==> r * p > 0.0;
    assert r == -100.0 <==> r * p == -100.0 * p;
  }

  /** `savings / income * 100`, or `0` without income. */
  function SavingsRate(income: int, expenses: int): (r: real)
    ensures income <= 0 ==> r == 0.0
    ensures income > 0 ==> r * income as real == (income - expenses) as real * 100.0
  {
    if income > 0 then (income - expenses) as real / income as real * 100.0 else 0.0
  }

  /** With income, the rate is at most 100 when expenses are not negative, exactly 100
      exactly when nothing was spent, and negative exactly when spending exceeds income. */
  lemma SavingsRateBounds(income: int, expenses: int)
    requires income > 0
    ensures expenses >= 0 ==> SavingsRate(income, expenses) <= 100.0
    ensures SavingsRate(income, expenses) == 100.0 <==> expenses == 0
    ensures SavingsRate(income, expenses) < 0.0 <==> expenses > income
  {
    var r := SavingsRate(income, expenses);
    var p := income as real;
    assert r * p == (income - expenses) as real * 100.0;
    assert r <= 100.0 <==> r * p <= 100.0 * p;
    assert r == 100.0 <==> r * p == 100.0 * p;
    assert r < 0.0 <==> r * p < 0.0;
  }
}
