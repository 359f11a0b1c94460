# WealthWise personal finance: a verified model

WealthWise is a personal-finance application. A Django REST backend (`backend/handler`)
keeps users, categories, transactions, monthly budgets and notifications. A React client
(`frontend/src`) signs the user in, keeps the session in local storage, and shows pages
for transactions, income, budgets, analytics, notifications and the profile.

This project is a Dafny model of the core of both halves:

- **Backend (`views.py`, `models.py`, `serializers.py`, `seed_categories.py`)**
  - the selected-month query and month navigation
  - the ledger sums behind every total
  - budget status and the budget overview
  - budget alerts and the notification table
  - the monthly and date-range analytics
  - the default categories and their seeding
  - the user manager and reset tokens
  - request validation and the relative time labels

- **Client (`services/api.js`, `services/authService.js`, `context/AuthContext.jsx` and the
  pages)**
  - local storage and the `Authorization` header
  - the refresh-and-replay error interceptor and sign-out
  - the session provider
  - the forms, their guards and the request bodies they send
  - the list search, totals and grouping
  - the local list updates after a server call

Representation:

- **Money** is an `int` of cents. Percentages are exact `real`s.
- **Dates** are day ordinals (`Calendar.ToOrdinal` and `Calendar.FromOrdinal`, proved
  inverse).
- **Instants** are `int` microseconds.
- **Tables** (transactions, budgets, categories, notifications, users) are sequences of
  records.
- **Objects the source updates in place** are classes with `modifies` clauses: the
  notification, category and user tables, a reset token, local storage, the location bar,
  an axios request, the session provider, and each page's form state.
- **What a server, a clock or a foreign library decides is a parameter:**
  - a server reply (`server`, `refreshServer`, `reply`)
  - whether a call succeeded (`ok`, `saved`)
  - today's date and the current instant (`today`, `now`)
  - `parseFloat` and `parseInt` on form values
  - Django's password validators and `EmailValidator`, and Python's `uuid.UUID`

The client's month picker is one class, `MonthNavigation.MonthSelector`. It is shared by
the dashboard, budget and analytics pages, whose three copies of the picker code are the
same. The analytics page has no "current month" button, so it uses only
`GoToPrevMonth` and `GoToNextMonth`.

Behaviour worth noting in the code:

- **A failed replay after a refresh leaves the session in place.** After a successful
  refresh, `return api(originalRequest)` (services/api.js:51) hands back the replay's
  promise without awaiting it, so its rejection skips the `catch` at api.js:53-63, and the
  replayed 401, already marked `_retry`, is passed on unchanged. `ApiClient.Dispatch`
  rejects with the replay's status and leaves storage as the refresh left it.
- **The short-password message of the signup serializer.** It can never be returned,
  because the field's own `min_length=6` check runs first
  (`Serializers.ShortPasswordReportedByField`).

## Model

| member | source | states |
|---|---|---|
| Calendar.DaysInMonth | backend/handler/views.py:1564 | `calendar.monthrange(y, m)[1]` is 28..31; February has 29 days exactly in leap years, and every other month has at least 30 |
| Calendar.FromOrdinal | backend/handler/views.py:1914 | every day ordinal names one valid date, and that date's ordinal is the ordinal itself |
| Calendar.ToOrdinal | backend/handler/views.py:1870-1871 | a valid date as its day number counted from January 1st, 1970, so that `timedelta` steps and date comparisons are integer arithmetic; a bijection with FromOrdinal by FromToOrdinal and OrdinalInjective |
| Calendar.FromToOrdinal | backend/handler/views.py:1914 | converting a valid date to its ordinal and back gives the date |
| Calendar.OrdinalInjective | backend/handler/views.py:1907 | two valid dates with the same ordinal are the same date |
| Calendar.InMonthIffInRange | backend/handler/views.py:420-431 | a day lies in month `m` of year `y` (`date__month`, `date__year`) exactly when it lies between that month's first and last day |
| Calendar.MonthEndNext | backend/handler/views.py:2015 | the day after a month's last day is the first day of the next month, December wrapping to January |
| Calendar.MonthsOrdered | backend/handler/views.py:2009-2011 | days of an earlier month come before days of a later month |
| Calendar.EarlierMonthEarlierDate | backend/handler/views.py:1878-1886 | a valid date in an earlier month has a smaller ordinal |
| Calendar.AddDays | backend/handler/views.py:1870-1874 | `date ± timedelta(days=n)` is valid and moves the ordinal by exactly `n` |
| Calendar.AddMonths | backend/handler/views.py:1878-1886 | `relativedelta(months=k)` moves the month by `k`, keeps the day, and clamps it to the length of the target month |
| Calendar.AddMonthsBack | backend/handler/views.py:1878-1886 | for a day of at most 28, moving `k` months and back returns the date |
| Calendar.FormatIsoDate | backend/handler/views.py:2281-2282 | `strftime('%Y-%m-%d')` is ten characters, with dashes at positions 4 and 7 |
| Calendar.ParseIsoDate | backend/handler/views.py:1893-1894 | `strptime(s, '%Y-%m-%d')`, where a parsed date is always valid and has a year in 1..9999 |
| Calendar.ParseFormatRoundTrip | backend/handler/views.py:1893-1894 | parsing the ISO text of any valid date in years 1..9999 gives that date back |
| Periods.ParseInt | backend/handler/views.py:386-387 | Python's `int()` on a query string is `None` where it raises; a success needs a non-blank string |
| Periods.ParseIntRoundTrip | backend/handler/views.py:386-387 | `int(str(n)) == n` for every integer |
| Periods.SelectedMonth | backend/handler/views.py:385-396 | the selected month is always 1..12 and the year is in 2020..2030 or is today's; a parameter that does not parse gives today's month and year |
| Periods.SelectedMonthKeepsValid | backend/handler/views.py:1290-1299 | a month 1..12 and a year 2020..2030, sent as decimal text, are selected unchanged |
| Periods.SelectedMonthIdempotent | backend/handler/views.py:1477-1486 | sending back the month and year a view reported selects them again |
| Periods.PrevMonth | backend/handler/views.py:402-407 | the previous month is valid and its month index is one less; January wraps to December of the year before |
| Periods.NextMonth | frontend/src/pages/Dashboard.jsx:113-120 | the next month is valid and its month index is one more; December wraps to January of the year after |
| Periods.MonthIndexInjective | backend/handler/views.py:402-407 | two valid months with the same index are the same month |
| Periods.PrevNextInverse | frontend/src/pages/Budget.jsx:94-110 | going back a month and then forward, or forward and then back, returns to the start |
| Periods.MonthsBefore | backend/handler/views.py:1541 | `datetime(y, m, 1) - relativedelta(months=k)` is a valid month whose index is `k` less |
| Periods.MonthsBeforeOne | backend/handler/views.py:1489-1494 | one month before is the previous month |
| Ledger.SumWhereAppend | backend/handler/views.py:420-431 | the `Sum('amount') or 0` of a table split in two is the sum of the two parts |
| Ledger.SumWhere | backend/handler/views.py:1046-1058 | `filter(...).aggregate(Sum('amount'))['total'] or 0`: the sum of the amounts of the rows the filter keeps, 0 for none; its algebra is stated by SumWhereAppend, SumWhereSameRows and SumWhereDisjointUnion |
| Ledger.RangeSum | backend/handler/views.py:1929-1942 | the total of one user's rows of one type with `date__gte=lo` and `date__lte=hi`; split and emptiness are stated by RangeSumSplit and RangeSumEmpty |
| Ledger.InMonth | backend/handler/views.py:420-424 | the `date__month`/`date__year` filter, proved equal to the month's day range by Calendar.InMonthIffInRange and MonthSumIsRangeSum |
| Ledger.SumWhereSameRows | backend/handler/views.py:420-431 | two filters that select the same rows have the same sum |
| Ledger.SumWhereDisjointUnion | backend/handler/views.py:1044-1058 | a filter that is the disjoint union of two filters sums to the two sums added |
| Ledger.RangeSumSplit | backend/handler/views.py:2223-2224 | the total over `[lo, hi]` splits at any day in the range |
| Ledger.RangeSumEmpty | backend/handler/views.py:2019-2025 | an empty date range sums to zero |
| Ledger.MonthSumIsRangeSum | backend/handler/views.py:1329-1342 | a month's total (`date__month`, `date__year`) is the total from its first to its last day |
| Sorting.InsertDesc | backend/handler/views.py:1388 | inserting into a list adds exactly that element |
| Sorting.InsertDescSorted | backend/handler/views.py:1388 | inserting into a list sorted by descending key keeps it sorted |
| Sorting.SortDesc | backend/handler/views.py:1388 | `sort(key=..., reverse=True)` keeps the length; order, permutation and stability are the three lemmas below |
| Sorting.SortDescCorrect | frontend/src/pages/Income.jsx:183-185 | the sort orders by descending key and is a permutation of its input |
| Sorting.SortDescSorted | frontend/src/pages/Income.jsx:183-185 | the sorted list is in descending key order |
| Sorting.SortDescPermutes | frontend/src/pages/Income.jsx:183-185 | the sorted list has the same elements, with the same multiplicities, as its input |
| Sorting.WithKeyInsert | backend/handler/views.py:1388 | inserting into a descending list puts the new element after every element with the same key |
| Sorting.SortDescStable | backend/handler/views.py:1388 | the sort is stable: for every key, the elements with that key appear in the sorted list in their input order |
| Sorting.SortDescStableAll | frontend/src/pages/Income.jsx:183-185 | stability for all keys at once, which decides which of two equal groups a cut after the sort keeps |
| Text.TrimLeft | backend/handler/models.py:84 | the result is a suffix without leading whitespace, and everything removed is whitespace |
| Text.TrimRight | backend/handler/models.py:84 | the result is a prefix without trailing whitespace, and everything removed is whitespace |
| Text.StripEmptyIffAllSpace | backend/handler/models.py:84-85 | `strip()` leaves nothing exactly when the string is all whitespace |
| Text.StripHasNoOuterSpace | backend/handler/models.py:84 | a stripped string has no whitespace at either end |
| Text.Lower | frontend/src/pages/Transactions.jsx:190-191 | `toLowerCase()` keeps the length and lower-cases each ASCII letter in place |
| Text.ContainsEmpty | frontend/src/pages/Transactions.jsx:190 | every string includes the empty string |
| Text.SplitOn | frontend/src/pages/Transactions.jsx:83 | `split(c)` always gives at least one piece |
| Text.SplitWithoutSeparator | frontend/src/pages/Income.jsx:64 | a string without the separator splits into itself alone |
| Text.SplitAtFirstSeparator | frontend/src/pages/Transactions.jsx:83 | splitting at the first separator gives the part before it, followed by the pieces of the rest |
| Text.SplitPair | frontend/src/pages/Transactions.jsx:83 | `"YYYY-MM".split('-')` gives the two halves |
| Text.NatToString | frontend/src/services/authService.js:124 | a rendered number is a non-empty run of digits without a leading zero |
| Text.NatToStringRoundTrip | frontend/src/services/authService.js:124 | reading a rendered number back gives the number |
| Text.NatToStringInjective | frontend/src/services/authService.js:124 | different numbers render differently |
| Budgets.Percentage | backend/handler/views.py:1347 | `spent / amount * 100` for a positive amount, otherwise 0 |
| Budgets.StatusOf | backend/handler/views.py:1348 | exceeded exactly from 100 percent; warning exactly from the threshold up to 100; normal exactly below both |
| Budgets.StatusBySpending | backend/handler/views.py:1347-1348 | for a positive budget: exceeded iff spent ≥ amount, warning iff threshold·amount ≤ 100·spent < 100·amount; for a zero amount the status follows the threshold alone |
| Budgets.ReachesHundred | backend/handler/views.py:1347-1348 | for a positive budget the percentage reaches 100 exactly when the spending reaches the amount |
| Budgets.ReachesThreshold | backend/handler/views.py:1347-1348 | for a positive budget the percentage reaches the alert threshold exactly when 100·spent ≥ threshold·amount |
| Budgets.EntryFor | backend/handler/views.py:1363-1385 | an entry carries its budget and category ids, `remaining` is amount minus spent, and its status is that of its percentage |
| Budgets.BuildCategoryData | backend/handler/views.py:1360-1385 | the loop produces exactly the entries of the month's category budgets that still have a category, in table order |
| Budgets.CategoryEntriesFromBudgets | backend/handler/views.py:1361-1362 | there are no more entries than budgets, and every entry is the entry of a category budget of the user for that month that has a category |
| Budgets.FirstOverall | backend/handler/views.py:1310-1315 | `.first()` is an overall budget of the month, and is `None` exactly when there is none |
| Budgets.OverallFor | backend/handler/views.py:1345-1357 | the overall entry spends all of the month's expenses; remaining and status follow from that |
| Budgets.CountStatus | backend/handler/views.py:1391-1392 | a count never exceeds the number of entries |
| Budgets.CountStatusAppend | backend/handler/views.py:1391-1392 | the counts of two lists joined add up |
| Budgets.CountStatusPermutation | backend/handler/views.py:1388-1392 | counting after the sort gives the same counts as before it |
| Budgets.CountStatusPartition | backend/handler/views.py:1391-1392 | every entry has exactly one status, so the three counts add up to the number of entries |
| Budgets.BudgetOverview | backend/handler/views.py:1285-1398 | normalised month, `is_current_month` iff today's month, `has_budget` iff some budget exists; month totals; the overall entry; category entries sorted by descending percentage, a permutation of the table-order entries; alert counts |
| Budgets.AlertCountsBounded | backend/handler/views.py:1390-1398 | at most one alert is counted per category entry, plus one for the overall budget |
| BudgetAlerts.EffectivePrefs | backend/handler/views.py:1020-1029 | without a profile, email notifications and budget alerts are both on; otherwise the profile's own values |
| BudgetAlerts.AlertFor | backend/handler/views.py:1060-1142 | an alert is only drafted for a budget with a positive amount; it goes to the budget's user and carries the figures computed for that budget |
| BudgetAlerts.Drafts | backend/handler/views.py:1042-1142 | the loop's drafts over the budgets in table order, for the corrected code; its meaning is stated by DraftsSound, DraftsComplete, DecisionKept and AtMostOnePerBudget |
| BudgetAlerts.AlertForAsWritten | backend/handler/views.py:1060-1064 | the per-budget decision as written, which raises on a positive category budget without a category; the discrepancy is stated by AsWrittenFailsOnOrphan |
| BudgetAlerts.DraftsAsWritten | backend/handler/views.py:1042-1142 | the loop as written, which aborts at the first such budget; related to Drafts by AsWrittenAgreesWithoutOrphans |
| BudgetAlerts.CheckAndCreateBudgetAlerts | backend/handler/views.py:1001-1174 | the table grows by exactly the alerts decided, stamped with fresh ids and `now`, and stays well-formed |
| BudgetAlerts.AlertsOffCreatesNothing | backend/handler/views.py:1031-1032 | with budget alerts switched off, nothing is created |
| BudgetAlerts.DraftsSound | backend/handler/views.py:1042-1142 | every draft is for the user, is an exceeded or warning alert, has no same-type alert for its budget today, and comes from a current-month budget with a positive amount whose status is the draft's type |
| BudgetAlerts.DraftsFromBudgets | backend/handler/views.py:1083 | every draft's `budget_id` is the id of one of the user's budgets |
| BudgetAlerts.DecisionKept | backend/handler/views.py:1042-1142 | the loop drops no decision: whatever one current budget decides is among the drafts |
| BudgetAlerts.DraftsComplete | backend/handler/views.py:1001-1003 | every current budget with a positive amount that reached its amount gets an exceeded draft, and one that reached only its threshold a warning draft, unless that alert was already created today |
| BudgetAlerts.AtMostOnePerBudget | backend/handler/views.py:1066-1128 | with distinct budget ids, no two drafts are about the same budget |
| BudgetAlerts.NoSecondAlertToday | backend/handler/views.py:1069-1076 | after the insert, no two notifications of the same user, type and budget share a day unless one of them was already there |
| BudgetAlerts.AsWrittenFailsOnOrphan | backend/handler/views.py:1064 | as written, a current category budget with no category and a positive amount makes the whole call raise |
| BudgetAlerts.AsWrittenAgreesWithoutOrphans | backend/handler/views.py:1042-1142 | without such a budget, the code as written and the corrected model draft the same alerts |
| BudgetAlerts.OrphanBudgetExample | backend/handler/views.py:1064 | a concrete budget and expense under which the code as written raises and the corrected model drafts an alert |
| Notifications.Matching | backend/handler/views.py:1190-1194 | the rows the filters select: exactly the user's rows, only the unread ones when `unread == 'true'` |
| Notifications.Listing | backend/handler/views.py:1188-1195 | `Meta.ordering = ['-created_at']` (models.py:261): newest first, a permutation of the matching rows, holding exactly the user's (unread) rows; rows created at the same instant keep their table order |
| Notifications.UnreadCount | backend/handler/views.py:1206-1207 | the unread count never exceeds the number of rows |
| Notifications.UnreadCountIsUnreadListing | backend/handler/views.py:1188-1207 | the unread count is the length of the `unread=true` listing |
| Notifications.UnreadCountIsMatching | backend/handler/views.py:1206-1207 | the unread count is the number of the user's unread rows the filter selects |
| Notifications.MarkAll | backend/handler/views.py:1227-1228 | marking all keeps the number of rows |
| Notifications.MarkIds | backend/handler/views.py:1230-1234 | marking by ids keeps the number of rows |
| Notifications.MarkAllEffect | backend/handler/views.py:1227-1228 | every row of the user is read afterwards; other users' rows and all other fields are unchanged |
| Notifications.MarkAllLeavesNoUnread | backend/handler/views.py:1227-1228 | after marking all, the unread count is zero |
| Notifications.MarkIdsEffect | backend/handler/views.py:1230-1234 | exactly the user's rows with a listed id become read; every other row is unchanged |
| Notifications.Without | backend/handler/views.py:1258-1259 | deleting keeps exactly the rows other than the user's row with that id |
| Notifications.Stamped | backend/handler/views.py:1174 | `bulk_create` gives each draft a fresh consecutive id and the creation instant |
| Notifications.NotificationTable.MarkRead | backend/handler/views.py:1223-1246 | `all` marks every unread row (200); ids mark the listed rows (200); neither gives 400 and changes nothing |
| Notifications.NotificationTable.Delete | backend/handler/views.py:1256-1268 | the user's row with the id is removed (200); without one, 404 and nothing changes |
| Notifications.NotificationTable.BulkCreate | backend/handler/views.py:1173-1174 | the drafts are appended with fresh ids and `now` |
| Notifications.WithoutKeepsIds | backend/handler/views.py:1258-1259 | deleting keeps the table's ids distinct and below the next id |
| MonthlyAnalytics.SixMonthWindow | backend/handler/views.py:1538-1559 | exactly six months, the last being the selected month and each the next after the one before, each with that month's income and expense totals |
| MonthlyAnalytics.DayExpenseIsRangeSum | backend/handler/views.py:1568-1573 | filtering on year, month and day selects the expenses of that one date |
| MonthlyAnalytics.RunningDay | backend/handler/views.py:1575 | each day's running total is the previous day's plus that day's expenses |
| MonthlyAnalytics.DailySpending | backend/handler/views.py:1564-1581 | one point per day of the month, each with that day's expenses and the running total, which ends at the month's expense total |
| MonthlyAnalytics.MonthRunningTotal | backend/handler/views.py:1568-1582 | the running total through the month's last day equals the month's expense total |
| MonthlyAnalytics.ChangePercent | backend/handler/views.py:2237-2238 | `(current − previous) / previous · 100` when the previous figure is positive, otherwise 0 |
| MonthlyAnalytics.ChangePercentSign | backend/handler/views.py:451-452 | the change is positive iff the figure grew, zero iff it stayed, and −100 iff it fell to nothing |
| MonthlyAnalytics.SavingsRate | backend/handler/views.py:435 | savings over income times 100 when there is income, otherwise 0 |
| MonthlyAnalytics.SavingsRateBounds | backend/handler/views.py:435 | with income: at most 100 when expenses are not negative, exactly 100 iff nothing was spent, negative iff spending exceeds income |
| RangeAnalytics.ParseParam | backend/handler/views.py:1891-1894 | a `start_date`/`end_date` that parses is a valid date |
| RangeAnalytics.RequestedRange | backend/handler/views.py:1863-1904 | the preset table with `last_30_days` for an absent or unknown name, and the custom range of two parsed dates; what it accepts is stated by PresetsAccepted, PresetLengths, CustomRangeOfIsoDates and CustomRangeNeedsBothDates |
| RangeAnalytics.ResolveRange | backend/handler/views.py:1863-1911 | an accepted range has start ≤ end and is the requested range; a format error exactly when the request has one; start-after-end exactly when the requested range is inverted |
| RangeAnalytics.PresetsAccepted | backend/handler/views.py:1869-1904 | every preset, an absent name and an unknown name are accepted, and end today |
| RangeAnalytics.PresetLengths | backend/handler/views.py:1869-1904 | the last-7-days range is 7 days long; an absent or unknown name gives 30 days |
| RangeAnalytics.CustomRangeOfIsoDates | backend/handler/views.py:1889-1911 | a custom range of two ISO dates is exactly those days, or the start-after-end error |
| RangeAnalytics.CustomRangeNeedsBothDates | backend/handler/views.py:1891-1900 | a custom range with a date missing is a format error |
| RangeAnalytics.GranularityFor | backend/handler/views.py:2009-2061 | monthly buckets iff more than 180 days, weekly iff 31..180, daily iff at most 30 |
| RangeAnalytics.TrendFor | backend/handler/views.py:2009-2080 | the trend at the chosen granularity tiles the range with every bucket's totals: one bucket per day when daily, the weekly shape when weekly, bucket `i` inside the `i`-th month from the start when monthly |
| RangeAnalytics.TilesCover | backend/handler/views.py:2009-2080 | trend buckets are contiguous, disjoint, inside the range, and cover every day of it |
| RangeAnalytics.TilingSums | backend/handler/views.py:2009-2080 | whatever the bucketing, the trend's income and expense columns add up to the range totals |
| RangeAnalytics.DailyTrend | backend/handler/views.py:2061-2080 | one bucket per day, each with that day's totals |
| RangeAnalytics.WeeklyTrend | backend/handler/views.py:2036-2060 | seven-day buckets from the start, the last cut at the end, each with its totals; there are `(days − 1) / 7 + 1` of them |
| RangeAnalytics.MonthOfDay | backend/handler/views.py:2010-2011 | the month a day falls in is a valid month |
| RangeAnalytics.MonthAt | backend/handler/views.py:2035 | the month with a given index is valid and has that index |
| RangeAnalytics.WithinMonthDays | backend/handler/views.py:2014-2017 | a bucket within a month has its first and last day in that month |
| RangeAnalytics.SpansOfRange | backend/handler/views.py:2010-2011 | the months of the range's two ends come in order |
| RangeAnalytics.MonthBucket | backend/handler/views.py:2014-2034 | a month's bucket is that whole month, cut at the range's start and end, with its totals |
| RangeAnalytics.MonthBucketBounds | backend/handler/views.py:2014-2017 | `max(m_start, start)` and `min(m_end, end)` lie within the month, in order |
| RangeAnalytics.NextMonthStart | backend/handler/views.py:2035 | the day after a month ends is the first of the next month |
| RangeAnalytics.MonthLoopStep | backend/handler/views.py:2013-2035 | one turn of the monthly loop keeps the loop's state |
| RangeAnalytics.MonthLoopDone | backend/handler/views.py:2013-2035 | when the loop passes the end month, its buckets tile the range, one per month |
| RangeAnalytics.MonthlyTrend | backend/handler/views.py:2009-2035 | one bucket per calendar month touched by the range, each cut to the range, with its totals |
| RangeAnalytics.Cumulative | backend/handler/views.py:2085-2110 | one entry per day with the running totals up to that day, the last being the range totals |
| RangeAnalytics.PreviousPeriod | backend/handler/views.py:2223-2224 | the previous period ends the day before the range and has the same number of days |
| RangeAnalytics.PreviousPeriodJoins | backend/handler/views.py:2223-2235 | the previous period and the range form one range of twice the length, whose total is the two totals added |
| RangeAnalytics.DateRangeAnalytics | backend/handler/views.py:1858-2290 | a 400 error exactly for a malformed or inverted range; a 500 exactly when the range makes the view compute a day outside years 1..9999 (`Overflows`); otherwise a report whose totals, trend, cumulative series and previous period agree with the ledger |
| RangeAnalytics.Overflows | backend/handler/views.py:2009-2224 | the ranges on which the view computes a day outside years 1..9999 and answers 500 (the steps at lines 2015, 2041, 2080, 2110 and 2222); instances are proved by LastDayOverflows, LastMonthOverflows and FirstDayOverflows |
| RangeAnalytics.ReportOf | backend/handler/views.py:2274-2290 | the figures of the reply for a range: day count, granularity, totals, a trend tiling the range and summing to them, a cumulative series ending at them, and the previous period's totals; established by BuildReport |
| RangeAnalytics.BuildReport | backend/handler/views.py:1935-2290 | the report for a resolved range: its day count and granularity, the income and expense totals, a trend that tiles the range and sums to them, a cumulative series ending at them, and the previous period with its totals |
| RangeAnalytics.BeforeYearStart | backend/handler/views.py:2222-2223 | a day before the first of January of year `y` lies in an earlier year |
| RangeAnalytics.LastDayOverflows | backend/handler/views.py:2110 | a range ending on December 31st of year 9999 fails: the cumulative loop steps into year 10000 |
| RangeAnalytics.LastMonthOverflows | backend/handler/views.py:2015 | a range of more than 180 days ending in December 9999 fails: the monthly loop's `relativedelta(months=1)` reaches year 10000 |
| RangeAnalytics.FirstDayOverflows | backend/handler/views.py:2222-2223 | a range starting on January 1st of year 1 fails: the previous period lies before year 1 |
| Categories.DefaultsDistinct | backend/handler/management/commands/seed_categories.py:9-32 | the defaults list has 19 entries and no (name, type) key twice |
| Categories.CategoryTable.GetOrCreate | backend/handler/management/commands/seed_categories.py:36-44 | `get_or_create` inserts when nothing matches, finds one match without changes, and raises on two or more |
| Categories.CategoryTable.Seed | backend/handler/management/commands/seed_categories.py:34-47 | the command's loop leaves the table, next id, count and completion that seeding the defaults in order gives |
| Categories.SeedFrom | backend/handler/management/commands/seed_categories.py:34-47 | `get_or_create` over the defaults in order, stopping at a key matched twice; its properties are stated by SeedAppends, SeedOtherKeys, SeedCompletes, SeedCount and SeedIdempotent |
| Categories.CategoryTable.CreateDefaultCategories | backend/handler/views.py:1419-1456 | the same loop, without the count |
| Categories.SeedAppends | backend/handler/management/commands/seed_categories.py:34-47 | seeding only appends rows: existing rows are untouched and every appended row is a shared default |
| Categories.SeedOtherKeys | backend/handler/management/commands/seed_categories.py:34-47 | seeding never changes the match count of a key that is not in the list |
| Categories.SeedCompletes | backend/handler/management/commands/seed_categories.py:34-47 | a run completes exactly when no key matched twice beforehand, and afterwards every key matches exactly once |
| Categories.CountAbsent | backend/handler/management/commands/seed_categories.py:45-46 | the number of absent keys is at most the number of defaults |
| Categories.SeedCount | backend/handler/management/commands/seed_categories.py:45-50 | a completed run counts exactly as many new rows as there were absent keys |
| Categories.SeedAllPresent | backend/handler/management/commands/seed_categories.py:34-47 | a table where every key matches once is left alone, with nothing counted |
| Categories.SeedIdempotent | backend/handler/management/commands/seed_categories.py:34-50 | after a completed run, a second run creates nothing and leaves the table alone |
| Categories.SeedDefaults | backend/handler/management/commands/seed_categories.py:34-50 | over a table with no key twice, a run completes and leaves every default present exactly once |
| Categories.Visible | backend/handler/views.py:825-829 | a user sees exactly the default categories and their own |
| Accounts.LastIndexOf | backend/handler/models.py:18 | the last position of a character, or `None` exactly when it is absent |
| Accounts.NormalizeEmail | backend/handler/models.py:18 | an address without `@` after stripping is left as it is |
| Accounts.NormalizeEmailIdempotent | backend/handler/models.py:18 | normalising an address twice gives what normalising it once gives |
| Accounts.NormalFormFixed | backend/handler/models.py:18 | an address already in normal form is left alone |
| Accounts.NormalizeEmailParts | backend/handler/models.py:18 | with an `@`, the local part keeps its case and the domain is lower-cased |
| Accounts.NewUser | backend/handler/models.py:11-22 | an empty email or username is refused, in that order; otherwise a user with the normalised address, the given fields, the flag defaults, and an unusable password when none is given |
| Accounts.SuperuserExtra | backend/handler/models.py:26-28 | `setdefault` turns on staff, superuser and active unless the caller passed a value |
| Accounts.SuperuserChecks | backend/handler/models.py:30-33 | after the defaults, a flag is not `True` exactly when the caller passed `False` |
| Accounts.UserTable.CreateUser | backend/handler/models.py:11-22 | a refused user leaves the table; an accepted one is appended with the next id |
| Accounts.UserTable.CreateSuperuser | backend/handler/models.py:24-35 | staff `False` and superuser `False` are refused, in that order; otherwise `create_user` with the defaults |
| Accounts.SuperuserDefaults | backend/handler/models.py:24-35 | a superuser made without flags is active, staff and superuser |
| Accounts.FullName | backend/handler/models.py:83-86 | the stripped "first last", or the username when that is empty |
| Accounts.FullNameFallback | backend/handler/models.py:83-86 | the full name falls back to the username exactly when both name parts are blank |
| Accounts.ShortName | backend/handler/models.py:88-90 | the first name, or the username when the first name is empty |
| Accounts.TokenValidity | backend/handler/models.py:146-148 | a used token is invalid; an unused one is valid exactly while `now` is before its expiry; an unused one without an expiry makes the comparison raise |
| Accounts.PasswordResetToken.Save | backend/handler/models.py:137-144 | a token without an expiry expires one hour after `now`, and an existing expiry is kept; the first save stamps `createdAt` with `now` (`auto_now_add`), and a later one keeps it |
| Accounts.PasswordResetToken.IsValid | backend/handler/models.py:146-148 | the token's validity at `now` |
| Accounts.FreshTokenLifetime | backend/handler/models.py:141-148 | a fresh token saved at `t` is valid exactly until `t` plus one hour |
| Serializers.CharField | backend/handler/serializers.py:46-56 | a missing value is "required", a blank one after trimming is "blank"; then the maximum-length, minimum-length and null-character validators all report; the trimmed value exactly when none fails |
| Serializers.EmailField | backend/handler/serializers.py:45 | a `CharField` whose value must also pass the address check; the address message is added to the `CharField` validators' messages |
| Serializers.Validate | backend/handler/serializers.py:42-92 | the values come back in field order when every field is valid; otherwise exactly the failing fields with their messages |
| Serializers.SignupEmail | backend/handler/serializers.py:63-68 | the lower-cased address, refused when a user already has it |
| Serializers.SignupUsername | backend/handler/serializers.py:70-74 | 3..150 characters after trimming, and not already taken |
| Serializers.PasswordStrength | backend/handler/serializers.py:76-84 | shorter than 6 is refused; otherwise the validators' messages refuse, or the value is kept |
| Serializers.StrengthMsgs | backend/handler/serializers.py:83 | one message per validator text |
| Serializers.NewPasswordField | backend/handler/serializers.py:47-52 | the field's own `min_length=6`, then the strength check |
| Serializers.ShortPasswordReportedByField | backend/handler/serializers.py:76-79 | a new password shorter than 6 is reported by the field's check, never by the serializer's own message |
| Serializers.SignupFields | backend/handler/serializers.py:44-84 | the four fields, each through its field and its `validate_<field>` check |
| Serializers.Signup | backend/handler/serializers.py:42-104 | `is_valid` of the signup serializer: the field errors, then the password mismatch; its outcomes are stated by SignupAccepted, SignupRejected and TakenEmailRefused |
| Serializers.SignupAccepted | backend/handler/serializers.py:42-92 | an accepted signup has a lower-cased, stripped, unused address, an unused username, and passwords that match and pass |
| Serializers.SignupRejected | backend/handler/serializers.py:86-92 | a failing field is reported with its own messages; with every field valid, unequal passwords are reported on `password_confirm` |
| Serializers.SignupRefusesTakenEmailAndShortPassword | backend/handler/serializers.py:63-84 | a taken address (after lower-casing) and a short password are both refused |
| Serializers.TakenEmailRefused | backend/handler/serializers.py:63-68 | an address someone already has, compared after lower-casing, makes signup fail with the "already exists" message under `email` |
| Serializers.ShortPasswordRefused | backend/handler/serializers.py:45-50 | a password of one to five characters makes signup fail with the length message under `password` |
| Serializers.Login | backend/handler/serializers.py:107-118 | a valid address, lower-cased, and a non-blank password |
| Serializers.ChangeFields | backend/handler/serializers.py:130-142 | the three change-password fields |
| Serializers.ChangePassword | backend/handler/serializers.py:127-150 | `is_valid` of the change-password serializer: the field errors, then the new-password mismatch; its outcomes are stated by ChangePasswordOutcome |
| Serializers.ChangePasswordOutcome | backend/handler/serializers.py:127-150 | an accepted change has a new password of at least 6 characters that passes and matches its confirmation |
| Serializers.ForgotPassword | backend/handler/serializers.py:180-189 | a valid address that, once lower-cased, belongs to a user |
| Serializers.FindToken | backend/handler/serializers.py:207 | the index of the stored token with that value, or `None` when there is none |
| Serializers.UuidField | backend/handler/serializers.py:195 | present and a UUID, otherwise refused |
| Serializers.ResetFields | backend/handler/serializers.py:195-197 | the three reset fields |
| Serializers.ResetChecks | backend/handler/serializers.py:199-218 | a mismatch first, then an unknown token, then an expired or used one, each refused with its own message |
| Serializers.ResetPassword | backend/handler/serializers.py:192-218 | the fields, then the checks |
| Serializers.ResetAccepted | backend/handler/serializers.py:199-218 | an accepted reset names an existing, unused, unexpired token and matching passwords |
| Serializers.MismatchBeforeToken | backend/handler/serializers.py:200-203 | mismatched passwords are reported whatever the token table holds |
| Serializers.SetNewPassword | backend/handler/serializers.py:221-232 | a new password of at least 6 characters equal to its confirmation |
| Serializers.ModelInstance.SetAttrs | backend/handler/serializers.py:166-167 | the supplied attributes take the supplied values and the others are kept |
| Serializers.OverrideChangesOnly | backend/handler/serializers.py:166-174 | overriding changes exactly the supplied fields, to the supplied values |
| Serializers.UpdateProfile | backend/handler/serializers.py:162-177 | the user fields are set; with non-empty profile data the profile fields are set too, and without a profile `instance.profile` raises; empty profile data leaves the profile alone |
| Serializers.ElapsedOf | backend/handler/serializers.py:305-319 | the bucket of an elapsed time: under a minute, minutes, hours, days, or a date from 7 days on |
| Serializers.ElapsedMonotone | backend/handler/serializers.py:307-319 | as `now` advances, the label only moves to a later bucket or to a larger count |
| Serializers.ShortDate | backend/handler/serializers.py:319 | `strftime("%b %d")` is six characters with a space at position 3 |
| Serializers.TimeAgo | backend/handler/serializers.py:300-319 | "Just now", `Nm ago`, `Nh ago`, `Nd ago`, or the short date |
| Serializers.EndsInO | backend/handler/serializers.py:311-317 | a minutes, hours or days label is at least five characters and ends in the `o` of "ago" |
| Serializers.RelativeRenderInjective | backend/handler/serializers.py:307-317 | two relative labels that read the same stand for the same bucket |
| Storage.StoredTokens | frontend/src/services/api.js:15 | `JSON.parse(getItem('tokens') \|\| '{}')`: the stored pair, or the empty object |
| Storage.StoredUser | frontend/src/services/authService.js:235-237 | the stored user, or `null` when there is none |
| Storage.LocalStorage.SetItem | frontend/src/services/authService.js:240-243 | the key now maps to the value and every other key is unchanged |
| Storage.LocalStorage.RemoveItem | frontend/src/services/authService.js:43-44 | the key is gone and every other key is unchanged |
| Storage.LocalStorage.ClearSession | frontend/src/services/api.js:56-57 | exactly the `tokens` and `user` keys are removed |
| Storage.ClearedSessionIsEmpty | frontend/src/services/api.js:56-57 | after clearing, no token is sent and no user is stored |
| ApiClient.Authorized | frontend/src/services/api.js:15-18 | the bearer header is set exactly when the stored access token is truthy; otherwise the headers are unchanged |
| ApiClient.AuthorizedIdempotent | frontend/src/services/api.js:13-24 | running the request interceptor twice adds nothing more |
| ApiClient.PublicPathIsPattern | frontend/src/services/api.js:59 | the redirect pattern matches exactly `/`, `/login`, `/signup`, `/forgot-password` and `/reset-password` |
| ApiClient.IsPublicPath | frontend/src/services/api.js:59 | the five public paths the interceptor does not leave; `PublicPathIsPattern` proves it is the regular expression's language |
| ApiClient.MatchesPublicPattern | frontend/src/services/api.js:59 | `/^\/(login\|signup\|forgot-password\|reset-password)?$/`: a slash and one optional alternative |
| ApiClient.PatternIsPublic | frontend/src/services/api.js:59 | every path the regular expression matches is a public path |
| ApiClient.NewTokens | frontend/src/services/api.js:43-46 | the new access token, and the new refresh token when one came back, else the stored one |
| ApiClient.Location.LeaveForLogin | frontend/src/services/api.js:59-61 | a non-public page moves to `/login`; a public page stays |
| ApiClient.AttachToken | frontend/src/services/api.js:13-24 | the request interceptor sets only the headers, as `Authorized` says |
| ApiClient.OnError | frontend/src/services/api.js:27-77 | marks a first 401; a stored refresh token is sent once; success stores the new pair and re-signs for a replay; failure clears and redirects; a 500 from a refresh URL clears; otherwise rejects with the status |
| ApiClient.Dispatch | frontend/src/services/api.js:13-77 | at most two requests and one refresh; the first is signed as stored; a success resolves with storage and location unchanged; any other first error but 401 rejects with its status, clearing and redirecting only for a 500 from a token-refresh URL; a 401 without a refresh token rejects with nothing changed; a failed refresh clears and redirects; a successful one stores the new pair and replays re-signed, and the replay's response decides the outcome and whether the session is then cleared |
| AuthService.DetailUrlRoundTrip | frontend/src/services/authService.js:124 | a detail URL is the endpoint, the id's numeral and a slash, and the numeral reads back as the id |
| AuthService.DetailUrlInjective | frontend/src/services/authService.js:130 | two records of one collection never share a URL |
| AuthService.RefreshBody | frontend/src/services/authService.js:37-39 | `{refresh}` holds the key exactly when a refresh token is stored |
| AuthService.Logout | frontend/src/services/authService.js:34-45 | posts the stored refresh token to the logout URL, then removes both session keys whatever the call did |
| AuthService.SaveAuthData | frontend/src/services/authService.js:240-243 | writes the user and the pair; both read back, and the session is authenticated iff the access token is truthy |
| AuthService.SavedAuthReadBack | frontend/src/services/authService.js:229-243 | saved data reads back unchanged, and saving it again changes nothing |
| AuthService.DetailUrl | frontend/src/services/authService.js:124 | `${endpoint}${id}/`, used for the update and delete calls (lines 124, 130, 168, 174 and 208); `DetailUrlRoundTrip` states its shape |
| AuthService.IsAuthenticated | frontend/src/services/authService.js:229-232 | `!!tokens.access` on the stored pair; `SaveAuthData` and `AuthProvider.InitAuth` state it after a save and a failed profile call |
| AuthContext.AuthProvider.constructor | frontend/src/context/AuthContext.jsx:7-8 | no user and loading, over the given storage and location |
| AuthContext.AuthProvider.InitAuth | frontend/src/context/AuthContext.jsx:12-24 | without a stored access token nothing changes; a profile reply sets the user; a failure clears both keys; loading ends in every case |
| AuthContext.AuthProvider.Authenticate | frontend/src/context/AuthContext.jsx:30-55 | a successful reply saves the user and tokens and signs in; any other reply changes nothing; the reply is passed back |
| AuthContext.AuthProvider.Logout | frontend/src/context/AuthContext.jsx:57-60 | the session keys are gone and no user is held |
| AuthContext.AuthProvider.UpdateUser | frontend/src/context/AuthContext.jsx:62-65 | the user in memory and under the `user` key are the new one; the tokens are untouched |
| AuthContext.AuthProvider.IsAuthenticated | frontend/src/context/AuthContext.jsx:76 | `!!user`; `Logout` states it false afterwards |
| ClientLedger.MonthParams | frontend/src/pages/Transactions.jsx:82-86 | no month filter sends nothing; otherwise `year` is the text before the first `-`, and `month` is sent exactly when there is a second piece |
| ClientLedger.MonthParamsOfPicked | frontend/src/pages/Income.jsx:63-67 | a picked `YYYY-MM` value sends that year and that month |
| ClientLedger.TransactionParams | frontend/src/pages/Transactions.jsx:79-86 | type, category and month parameters, each exactly when its filter is set |
| ClientLedger.IncomeParams | frontend/src/pages/Income.jsx:61-67 | always `type=income`, plus category and month exactly when set |
| ClientLedger.MatchesSearch | frontend/src/pages/Transactions.jsx:189-192 | the search predicate: the lower-cased query occurs in the description or in a truthy category name; `Filtered` keeps exactly the entries it accepts |
| ClientLedger.Filtered | frontend/src/pages/Transactions.jsx:189-192 | the search keeps, in order, exactly the entries whose description or category name contains the query, case-insensitively |
| ClientLedger.EmptySearchKeepsAll | frontend/src/pages/Income.jsx:167-170 | an empty search keeps every entry |
| ClientLedger.FilteredIdempotent | frontend/src/pages/Transactions.jsx:189-192 | searching the search results again changes nothing |
| ClientLedger.SumAmounts | frontend/src/pages/Income.jsx:173 | the `reduce` of `parseFloat(amount)` over a list; `TotalsPartition` relates it to the two type totals |
| ClientLedger.KindTotal | frontend/src/pages/Transactions.jsx:195-196 | the same sum over one type's entries; `KindTotalAppend` and `KindTotalOfOneKind` state its properties |
| ClientLedger.TotalsPartition | frontend/src/pages/Transactions.jsx:195-196 | income and expense totals add up to the total of all entries |
| ClientLedger.KindTotalAppend | frontend/src/pages/Transactions.jsx:195-196 | the totals of two lists joined add up |
| ClientLedger.KindTotalOfOneKind | frontend/src/pages/Income.jsx:173 | on a list of incomes only, the income total is the sum of all amounts |
| ClientLedger.IndexOfKey | frontend/src/pages/Income.jsx:178 | the position of a source among the groups, or `None` exactly when it is absent |
| ClientLedger.BySource | frontend/src/pages/Income.jsx:176-180 | the grouping `reduce` as a function; `BySourceTotal` and `BySourceKeys` state its total and its keys |
| ClientLedger.IncomeBySource | frontend/src/pages/Income.jsx:176-180 | the loop builds the groups by source, in first-seen order |
| ClientLedger.SumValuesUpdate | frontend/src/pages/Income.jsx:178 | adding to one group raises the grand total by that amount |
| ClientLedger.AddToSum | frontend/src/pages/Income.jsx:178 | each step of the grouping adds its entry's amount to the grand total |
| ClientLedger.BySourceTotal | frontend/src/pages/Income.jsx:173-180 | the groups add up to the income total |
| ClientLedger.AddToKeys | frontend/src/pages/Income.jsx:177-178 | a step keeps the sources distinct and adds exactly the entry's source |
| ClientLedger.BySourceKeys | frontend/src/pages/Income.jsx:176-180 | the groups' sources are distinct and are exactly the entries' sources, `'Other'` standing for a missing name |
| ClientLedger.TopSources | frontend/src/pages/Income.jsx:183-185 | the first four groups, or all when fewer, sorted by descending amount, all taken from the groups |
| ClientLedger.TopSourcesAreLargest | frontend/src/pages/Income.jsx:183-185 | every group left out has no more than the smallest group shown |
| MonthNavigation.Step | frontend/src/pages/Analytics.jsx:131-147 | a press leads to a valid month; back and forward move the month index by one |
| MonthNavigation.Run | frontend/src/pages/Dashboard.jsx:104-125 | any run of presses stays on a valid month |
| MonthNavigation.RunDisplacement | frontend/src/pages/Dashboard.jsx:104-120 | without a return to today, a run moves by the forward presses minus the backward ones |
| MonthNavigation.MonthSelector.constructor | frontend/src/pages/Dashboard.jsx:58-59 | the picker starts on today's month, which is the current month |
| MonthNavigation.MonthSelector.GoToPrevMonth | frontend/src/pages/Budget.jsx:94-101 | the month before; from January, December of the year before |
| MonthNavigation.MonthSelector.GoToNextMonth | frontend/src/pages/Budget.jsx:103-110 | the month after; from December, January of the year after |
| MonthNavigation.MonthSelector.GoToCurrentMonth | frontend/src/pages/Budget.jsx:112-115 | back to today's month, which is then the current month |
| MonthNavigation.PrevNextUndo | frontend/src/pages/Dashboard.jsx:104-120 | back then forward, or forward then back, returns to the month shown |
| TransactionsPage.CategoryText | frontend/src/pages/Transactions.jsx:131 | empty exactly without a category; otherwise a numeral that reads back as the category id |
| TransactionsPage.TransactionEditor.constructor | frontend/src/pages/Transactions.jsx:44-60 | a blank form dated today, the expense type, nothing being edited and the dialog closed |
| TransactionsPage.TransactionEditor.OpenAddModal | frontend/src/pages/Transactions.jsx:111-123 | a blank form paying in cash, of the chosen type, with nothing being edited |
| TransactionsPage.TransactionEditor.OpenEditModal | frontend/src/pages/Transactions.jsx:125-137 | the transaction's own values, with cash and an empty note for missing ones |
| TransactionsPage.TransactionEditor.HandleSubmit | frontend/src/pages/Transactions.jsx:139-174 | nothing is sent unless amount, description and category are filled; then an update of the edited row or a create with the form's body; the dialog closes on success |
| IncomePage.IncomeEditor.constructor | frontend/src/pages/Income.jsx:29-42 | a blank income form dated today, nothing being edited and the dialog closed |
| IncomePage.IncomeEditor.OpenAddModal | frontend/src/pages/Income.jsx:93-103 | a blank income form, with nothing being edited |
| IncomePage.IncomeEditor.OpenEditModal | frontend/src/pages/Income.jsx:105-115 | the income's own values, with an empty note for a missing one |
| IncomePage.IncomeEditor.HandleSubmit | frontend/src/pages/Income.jsx:117-152 | the same guard; the body's type is always income and its payment method `bank_transfer` |
| DashboardPage.QuickAdd.constructor | frontend/src/pages/Dashboard.jsx:52-67 | a blank quick-add form dated today, the expense type and the dialog closed |
| DashboardPage.QuickAdd.HandleAddTransaction | frontend/src/pages/Dashboard.jsx:146-175 | nothing is sent unless the required fields are filled; a create without a payment method; on success the form resets and closes, on failure it stays |
| NotificationsPage.UnreadCount | frontend/src/pages/Notifications.jsx:101 | the unread count never exceeds the list length |
| NotificationsPage.MarkedRead | frontend/src/pages/Notifications.jsx:42-44 | the entries with that id become read, and every other entry is unchanged |
| NotificationsPage.AllRead | frontend/src/pages/Notifications.jsx:55 | every entry becomes read |
| NotificationsPage.Deleted | frontend/src/pages/Notifications.jsx:66 | the other entries, in order; none with the id remains |
| NotificationsPage.MarkedReadCount | frontend/src/pages/Notifications.jsx:42-44 | marking an id read lowers the unread count by that id's unread entries |
| NotificationsPage.AllReadCount | frontend/src/pages/Notifications.jsx:55 | after marking all, nothing is unread |
| NotificationsPage.DeletedCount | frontend/src/pages/Notifications.jsx:66 | a delete removes exactly the entries with that id |
| NotificationsPage.FilterParams | frontend/src/pages/Notifications.jsx:24 | `{unread: 'true'}` exactly for the unread filter, otherwise no parameters |
| NotificationsPage.NotificationsView.constructor | frontend/src/pages/Notifications.jsx:18-20 | an empty list and the `all` filter |
| NotificationsPage.NotificationsView.HandleMarkAsRead | frontend/src/pages/Notifications.jsx:39-50 | asks for that one id; the list changes only when the call succeeds |
| NotificationsPage.NotificationsView.HandleMarkAllAsRead | frontend/src/pages/Notifications.jsx:52-61 | asks for all; on success nothing is unread, on failure nothing changes |
| NotificationsPage.NotificationsView.HandleDelete | frontend/src/pages/Notifications.jsx:63-72 | on success the entry is gone, on failure nothing changes |
| BudgetPage.ToneOf | frontend/src/pages/Budget.jsx:205-236 | red exactly for `exceeded`, amber exactly for `warning`, emerald otherwise |
| BudgetPage.StatusTones | frontend/src/pages/Budget.jsx:216-236 | each server status has its own look, and different looks have different colour classes |
| BudgetPage.BudgetEditor.constructor | frontend/src/pages/Budget.jsx:32-46 | an empty amount and category, threshold 80, the overall dialog type, nothing being edited and the dialog closed |
| BudgetPage.BudgetEditor.OpenAddOverallModal | frontend/src/pages/Budget.jsx:117-126 | starts from the month's overall budget when there is one, else from an empty amount and 80 |
| BudgetPage.BudgetEditor.OpenAddCategoryModal | frontend/src/pages/Budget.jsx:128-137 | an empty amount and category, threshold 80 |
| BudgetPage.BudgetEditor.OpenEditModal | frontend/src/pages/Budget.jsx:139-148 | the budget's amount, category (or empty) and threshold (or 80) |
| BudgetPage.BudgetEditor.HandleSubmit | frontend/src/pages/Budget.jsx:150-191 | refused exactly without an amount, or for a new category budget without a category; the body carries the selected month and the overall flag, and a category budget's category falls back to the edited one |
| AnalyticsPage.RangeParams | frontend/src/pages/Analytics.jsx:95-116 | no request exactly for a custom range missing a date; otherwise `range`, plus both dates for a custom range |
| AnalyticsPage.RangeEffect | frontend/src/pages/Analytics.jsx:124-128 | the effect fetches exactly in range mode for a preset, with only `range` |
| AnalyticsPage.RowPercentage | frontend/src/pages/Analytics.jsx:703 | the server's percentage when non-zero; otherwise the row's share of the total, or 0 without a total |
| AnalyticsPage.Total | frontend/src/pages/Analytics.jsx:746 | the footer total `reduce((sum, i) => sum + i.value, 0)`; `BreakdownSumsToHundred` shows the rows' percentages add up to 100 against it |
| AnalyticsPage.PercentageSumScaled | frontend/src/pages/Analytics.jsx:701-703 | without server percentages, the recomputed shares times the total are the values times 100 |
| AnalyticsPage.BreakdownSumsToHundred | frontend/src/pages/Analytics.jsx:701-703 | without server percentages and with a positive total, the rows' percentages add up to 100 |
| SignupPage.ValidateForm | frontend/src/pages/Signup.jsx:25-49 | the first failing check in order (a missing field, a username under 3, a password under 6, a mismatch), each iff earlier checks pass and it fails |
| SignupPage.HandleSubmit | frontend/src/pages/Signup.jsx:51-63 | the signup call carries the form's four values exactly when the form is valid; otherwise the first error is shown |
| SignupPage.CollectMessages | frontend/src/pages/Signup.jsx:73-80 | the loop collects every list element and every string value, key by key |
| SignupPage.ShownError | frontend/src/pages/Signup.jsx:71-84 | the first collected message, or the fallback; never empty |
| SignupPage.FlattenedAppend | frontend/src/pages/Signup.jsx:74-80 | collecting two parts of a body one after the other |
| SignupPage.FirstKeyWins | frontend/src/pages/Signup.jsx:74-81 | the message shown comes from the first key that holds one |
| ProfilePage.LoadPreferences | frontend/src/pages/Profile.jsx:109-114 | `??` defaults only replace a missing preference, so a stored `false` stays `false` |
| ProfilePage.PreferencesRoundTrip | frontend/src/pages/Profile.jsx:109-114 | saving the loaded preferences and loading them again gives the same preferences |
| ProfilePage.LoadFinancial | frontend/src/pages/Profile.jsx:102-107 | currency or `'INR'`, and each amount or an empty field |
| ProfilePage.FinancialPayloadOf | frontend/src/pages/Profile.jsx:161-167 | the currency as is, and each empty amount sent as 0 |
| ProfilePage.MissingAmountsSaveAsZero | frontend/src/pages/Profile.jsx:102-107 | a profile without amounts loads as empty fields and saves them as 0 |
| ProfilePage.PasswordForm.constructor | frontend/src/pages/Profile.jsx:59-63 | three empty password fields |
| ProfilePage.PasswordForm.HandleChangePassword | frontend/src/pages/Profile.jsx:201-234 | shorter than 6 is refused first, then a mismatch; otherwise the three values are sent, and the fields clear only on success |

## Left out

- **The ORM and the database.** Queries are functions over in-memory sequences.
  - Database uniqueness is not enforced by the model: unique emails, usernames and reset
    tokens. `Serializers.FindToken` takes the first match.
  - Transactions are not modelled, and neither are concurrent requests.
  - Default orderings (`Meta.ordering`): the notification listing's `-created_at`
    (models.py:261) is modelled by `Notifications.Listing`. The other orderings are
    not modelled, and their querysets are in table order. For transactions
    (`-date, -created_at`) and budgets (`-year, -month`) the model only sums such rows,
    or takes them from a single month, where every row ties; `.first()` over the month's
    overall budgets takes the first in table order.
- **Decimal and float arithmetic.**
  - Money is exact cents, and percentages are exact rationals. The 28-digit `Decimal`
    context is not modelled.
  - `float()` in replies, and `parseFloat` on the client, are not modelled. `parseFloat`
    and `parseInt` on form values are parameters.
- **Budgets.BudgetOverview**, **MonthlyAnalytics.SixMonthWindow**, **RangeAnalytics.DateRangeAnalytics**:
  - For the first two, only the figures are modelled. For the date-range view, see the
    next bullet.
  - Left out of the reply: currency symbols, `strftime` labels, `month_name`, recent
    transactions, and the smart-insights blocks, which are text built from the same
    figures.
  - Left out of the dashboard: `TruncMonth` trend queries, category breakdowns and
    per-category pie data.
- DateRangeAnalytics (`RangeAnalytics.DateRangeAnalytics`): `Report` holds the range, the
  day count, the granularity, the income and expense totals, the trend, the cumulative
  series and the previous period with its totals. These numbers of the reply are left out:
  - `net_savings` and `savings_rate` (views.py:1944-1945);
  - `transaction_count`, `income_count` and `expense_count` (views.py:1947-1949);
  - the daily and monthly averages (views.py:1952-1958);
  - `expense_change_pct`, `income_change_pct`, `expense_change_amount` and
    `income_change_amount` (views.py:2237-2250);
  - the expense and income pie data by category (views.py:1960-2002).

  All of these are `Decimal` or `float` arithmetic on figures the model does compute, or
  groupings the date-range core does not need.
- **BudgetAlerts.CheckAndCreateBudgetAlerts**:
  - `send_mail` is left out, because it is I/O. With `fail_silently=True` the call does
    not raise, so `email_sent` is the email preference, which the model sets.
  - The `message` text is not modelled. The model keeps the type, the title (the budget
    name with " Exceeded!" or " Near Limit") and every `data` value, `percentage`
    included.
- **Google sign-in, JWT issuing, blacklisting and refresh on the server, and password
  hashing.** These are foreign libraries. Their outcomes are replies given to the client
  model.
- **Django's `validate_password` validators, `EmailValidator` and `uuid.UUID`.** These are
  parameters (`strength`, `isEmail`, `parseUuid`).
- **Accounts.NormalizeEmail**: this is `BaseUserManager.normalize_email`, which is not in the
  repository's own code. It is modelled from Django's documented behaviour.
- **The remaining views.** These are not modelled: signup, login, refresh, logout,
  profile, password, list, create and detail views, and the category and budget filter
  querysets. Their logic is the serializers and tables above; the rest is HTTP plumbing.
- **Client I/O and control flow.**
  - Not modelled: React rendering, toasts, loading flags, `console.error`, page
    navigation after sign-up, and refetching after a save or delete.
  - The delete handlers of the transactions, income and budget pages are not modelled.
    They only call the service and refetch; their URLs are `AuthService.DetailUrl`.
- **The profile page's personal-details form and notification-preferences save.** These
  are left out. They copy fields one for one with `|| ''`, which is the pattern
  `ProfilePage.LoadFinancial` models.
- **AuthContext.AuthProvider.InitAuth** and **AuthContext.AuthProvider.Authenticate**
  take the server's reply as a parameter. They do not compose the error interceptor's
  storage effects on that call, which `ApiClient.Dispatch` models separately.
- **Timing of the interceptor.** Several requests refreshing at the same moment, and
  the asynchronous ordering of promises in general, are not modelled.
- **ClientLedger.IncomeBySource** and **ClientLedger.TopSources** keep groups in
  first-seen order. JavaScript's `Object.entries` lists integer-like keys first; that
  reordering is not modelled, and only matters for ties in the sort.
- BySource (`ClientLedger.BySource`) and IncomeBySource (`ClientLedger.IncomeBySource`):
  the reduce at Income.jsx:176-180 accumulates into a plain `{}`, so a category named like
  an inherited `Object.prototype` member (`constructor`, `toString`, `__proto__`) reads the
  inherited value: the group's value becomes a string and then NaN, or, for `__proto__`,
  the group vanishes. The model's map has no prototype and sums those groups as it sums
  any other.
- **JavaScript string lengths** are counted in UTF-16 code units. The model counts
  characters (`SignupPage.ValidateForm`, `ProfilePage.PasswordForm.HandleChangePassword`).
- **Lower-casing** (`Text.Lower`) covers ASCII letters only. There is no Unicode case
  folding.
- **BudgetPage.BudgetEditor.HandleSubmit**: the body keeps `amount` and `alert_threshold`
  as the form's input before `parseFloat`/`parseInt`. What those give is the caller's
  parameter.
- **JSON `null` as an input value** is treated like an absent field.
- Listing (`Notifications.Listing`): rows created at the same instant are kept in table
  order; the database leaves the order of such ties unspecified.
- Visible (`Categories.Visible`): `Meta.ordering = ['name']` (models.py:175) is not
  modelled, because the order of names is the database collation's; the visible
  categories are in table order, and the contract states membership only.
- ParseInt (`Periods.ParseInt`): only the ASCII digits `0`..`9` are read. Python's
  `int()` also accepts the other Unicode decimal digits (Arabic-Indic and the like);
  there is no Unicode digit table in the model, so such a parameter falls back as if
  it were malformed.
- ParseIsoDate (`Calendar.ParseIsoDate`): the same ASCII-only reading of `%Y`, `%m` and
  `%d`, which `strptime` also matches with other Unicode decimal digits; such a date is
  a format error in the model.
- CharField (`Serializers.CharField`): ProhibitSurrogateCharactersValidator is not
  modelled, because a Dafny `char` is a Unicode scalar value and cannot be a surrogate.
- EmailField (`Serializers.EmailField`): Django's `EmailValidator` is the parameter
  `isEmail`, so what it refuses is the caller's.
- AddDays (`Calendar.AddDays`) and the other date arithmetic work on unbounded years;
  Python's `date` holds only years 1 to 9999. The view's failure at those limits is
  decided once, by `RangeAnalytics.Overflows` in `RangeAnalytics.DateRangeAnalytics`.
- AddMonths (`Calendar.AddMonths`): the same; `relativedelta` raises `ValueError` for a
  year outside 1..9999.
- TrendFor (`RangeAnalytics.TrendFor`), DailyTrend, WeeklyTrend and MonthlyTrend fill
  their buckets on unbounded days; the ranges for which the view raises are refused
  before them (`RangeAnalytics.Overflows`).
- DailyTrend (`RangeAnalytics.DailyTrend`): the step past December 31st, 9999 is refused
  beforehand, as above.
- WeeklyTrend (`RangeAnalytics.WeeklyTrend`): `current + timedelta(days=6)` past
  December 31st, 9999 is refused beforehand, as above.
- MonthlyTrend (`RangeAnalytics.MonthlyTrend`): `relativedelta(months=1)` into year
  10000 is refused beforehand, as above.
- Cumulative (`RangeAnalytics.Cumulative`): the step past December 31st, 9999 is refused
  beforehand, as above.
- PreviousPeriod (`RangeAnalytics.PreviousPeriod`): a previous period before year 1 is
  refused beforehand, as above.
- DateRangeAnalytics (`RangeAnalytics.DateRangeAnalytics`): a clock reading in year 1
  that makes a preset's start fall before year 1 is refused as a 500 through the
  previous period, which starts earlier; the view raises a moment sooner, with the
  same 500.
- **The static configuration.** These are constants, not behaviour: the Google client
  id, and the axios instance's base URL and default `Content-Type` header.

## Findings

| source | as written | input that shows it | evidently intended | confidence | as-written member | corrected member |
|---|---|---|---|---|---|---|
| backend/handler/views.py:1064 | `check_and_create_budget_alerts` reads `budget.category.name` for every non-overall budget with a positive amount, so a category budget whose category is `NULL` raises `AttributeError` and the call aborts before `bulk_create`; no alert is created for any budget | a current-month budget with `is_overall=False`, `category=None`, `amount=100.00`, and one expense of 100.00 without a category that month | skip or name such a budget, as `BudgetOverviewView` skips it (views.py:1362) and `Budget.__str__` names it "Unknown" (models.py:237) | not executed | BudgetAlerts.DraftsAsWritten, BudgetAlerts.AsWrittenFailsOnOrphan, BudgetAlerts.OrphanBudgetExample | BudgetAlerts.Drafts, BudgetAlerts.CheckAndCreateBudgetAlerts |
