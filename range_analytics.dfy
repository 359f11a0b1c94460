/** `AnalyticsDateRangeView`: resolving the requested date range, rejecting an
    inverted one, the income/expense trend bucketed by day, week or month, the
    running cumulative totals, and the equal-length previous period. Days are
    ordinals (see `Calendar`); every aggregate is a `Ledger.RangeSum`. */
module RangeAnalytics {
  import opened Wrappers
  import opened Ledger
  import Calendar
  import Periods

  /** The closed range of days `[start, end]`. */
  datatype Range = Range(start: int, end: int)

  /** The two ways a request is refused with 400. */
  datatype RangeError = InvalidDateFormat | StartAfterEnd

  function ErrorMessage(e: RangeError): string {
    match e
    case InvalidDateFormat => "Invalid date format. Use YYYY-MM-DD."
    case StartAfterEnd => "Start date cannot be after end date."
  }

  /** `(end_date - start_date).days + 1`. */
  function DaysInRange(rg: Range): int {
    rg.end - rg.start + 1
  }

  /** A `start_date`/`end_date` query parameter; a missing one fails like a malformed one. */
  function ParseParam(p: Option<string>): (r: Option<Calendar.Date>)
    ensures r.Some? ==> Calendar.Valid(r.value)
  {
    if p.None? then None else Calendar.ParseIsoDate(p.value)
  }

  /** `today - relativedelta(months=k) + timedelta(days=1)`. */
  function MonthsBackStart(today: Calendar.Date, k: int): int
    requires Calendar.Valid(today)
  {
    Calendar.ToOrdinal(Calendar.AddMonths(today, -k)) + 1
  }

  /** The range the `range` parameter names, before validation; an absent or unknown
      name means the last 30 days. */
  function RequestedRange(rangeType: Option<string>, startParam: Option<string>, endParam: Option<string>,
                          today: Calendar.Date): Result<Range, RangeError>
    requires Calendar.Valid(today)
  {
    var t := Calendar.ToOrdinal(today);
    var name := rangeType.GetOr("last_30_days");
    if name == "last_7_days" then Ok(Range(t - 6, t))
    else if name == "last_30_days" then Ok(Range(t - 29, t))
    else if name == "last_3_months" then Ok(Range(MonthsBackStart(today, 3), t))
    else if name == "last_6_months" then Ok(Range(MonthsBackStart(today, 6), t))
    else if name == "last_1_year" then Ok(Range(MonthsBackStart(today, 12), t))
    else if name == "custom" then
      match (ParseParam(startParam), ParseParam(endParam))
      case (Some(a), Some(b)) => Ok(Range(Calendar.ToOrdinal(a), Calendar.ToOrdinal(b)))
      case _ => Err(InvalidDateFormat)
    else Ok(Range(t - 29, t))
  }

  /** The requested range once `start_date > end_date` has been rejected. */
  function ResolveRange(rangeType: Option<string>, startParam: Option<string>, endParam: Option<string>,
                        today: Calendar.Date): (r: Result<Range, RangeError>)
    requires Calendar.Valid(today)
    ensures r.Ok? ==> r.value.start <= r.value.end
    ensures r.Ok? ==> RequestedRange(rangeType, startParam, endParam, today) == r
    ensures r == Err(InvalidDateFormat) <==> RequestedRange(rangeType, startParam, endParam, today) == Err(InvalidDateFormat)
    ensures r == Err(StartAfterEnd) <==>
            (RequestedRange(rangeType, startParam, endParam, today).Ok? &&
             RequestedRange(rangeType, startParam, endParam, today).value.start
             > RequestedRange(rangeType, startParam, endParam, today).value.end)
  {
    match RequestedRange(rangeType, startParam, endParam, today)
    case Err(e) => Err(e)
    case Ok(rg) => if rg.start > rg.end then Err(StartAfterEnd) else Ok(rg)
  }

  /** Every preset ends today and is never rejected; only a custom range can fail. */
  lemma PresetsAccepted(rangeType: Option<string>, startParam: Option<string>, endParam: Option<string>,
                        today: Calendar.Date)
    requires Calendar.Valid(today)
    requires rangeType != Some("custom")
    ensures ResolveRange(rangeType, startParam, endParam, today).Ok?
    ensures ResolveRange(rangeType, startParam, endParam, today).value.end == Calendar.ToOrdinal(today)
  {
    var name := rangeType.GetOr("last_30_days");
    if name == "last_3_months" || name == "last_6_months" || name == "last_1_year" {
      var k := if name == "last_3_months" then 3 else if name == "last_6_months" then 6 else 12;
      Calendar.EarlierMonthEarlierDate(Calendar.AddMonths(today, -k), today);
    }
  }

  /** The day-counted presets: the last 7 days, and the last 30 days for an absent or
      unknown name. */
  lemma PresetLengths(rangeType: Option<string>, startParam: Option<string>, endParam: Option<string>,
                      today: Calendar.Date)
    requires Calendar.Valid(today)
    requires rangeType.None? || rangeType.value !in
             ["custom", "last_7_days", "last_3_months", "last_6_months", "last_1_year"]
    ensures ResolveRange(Some("last_7_days"), startParam, endParam, today).Ok?
    ensures DaysInRange(ResolveRange(Some("last_7_days"), startParam, endParam, today).value) == 7
    ensures ResolveRange(rangeType, startParam, endParam, today).Ok?
    ensures DaysInRange(ResolveRange(rangeType, startParam, endParam, today).value) == 30
  {
  }

  /** A custom range given as two ISO dates is exactly those two days, or the
      start-after-end error. */
  lemma CustomRangeOfIsoDates(a: Calendar.Date, b: Calendar.Date, today: Calendar.Date)
    requires Calendar.Valid(today)
    requires Calendar.Valid(a) && 1 <= a.year <= 9999
    requires Calendar.Valid(b) && 1 <= b.year <= 9999
    ensures ResolveRange(Some("custom"), Some(Calendar.FormatIsoDate(a)), Some(Calendar.FormatIsoDate(b)), today)
            == if Calendar.ToOrdinal(a) <= Calendar.ToOrdinal(b)
               then Ok(Range(Calendar.ToOrdinal(a), Calendar.ToOrdinal(b)))
               else Err(StartAfterEnd)
  {
    Calendar.ParseFormatRoundTrip(a);
    Calendar.ParseFormatRoundTrip(b);
  }

  /** A custom range with a date missing is a format error. */
  lemma CustomRangeNeedsBothDates(startParam: Option<string>, endParam: Option<string>, today: Calendar.Date)
    requires Calendar.Valid(today)
    requires startParam.None? || endParam.None?
    ensures ResolveRange(Some("custom"), startParam, endParam, today) == Err(InvalidDateFormat)
  {
  }

  datatype Granularity = Daily | Weekly | Monthly

  /** Monthly buckets beyond 180 days, weekly ones beyond 30, daily ones otherwise. */
  function GranularityFor(days: int): (g: Granularity)
    ensures g == Monthly <==> days > 180
    ensures g == Weekly <==> 30 < days <= 180
    ensures g == Daily <==> days <= 30
  {
    if days > 180 then Monthly else if days > 30 then Weekly else Daily
  }

  /** One trend entry: the days `[lo, hi]` and their income and expense totals. */
  datatype Bucket = Bucket(lo: int, hi: int, income: int, expense: int)

  /** The entry's `savings`. */
  function Savings(b: Bucket): int {
    b.income - b.expense
  }

  /** `bs` splits `[lo, hi]` into non-empty, consecutive pieces in order. */
  predicate Tiles(bs: seq<Bucket>, lo: int, hi: int) {
    |bs| > 0 && bs[0].lo == lo && bs[|bs| - 1].hi == hi
    && (forall i :: 0 <= i < |bs| ==> bs[i].lo <= bs[i].hi)
    && (forall i :: 0 <= i < |bs| - 1 ==> bs[i].hi + 1 == bs[i + 1].lo)
  }

  /** Each entry carries the totals of `user`'s rows in its own days. */
  predicate HasTotals(bs: seq<Bucket>, txs: seq<Transaction>, user: int) {
    forall i :: 0 <= i < |bs| ==>
      bs[i].income == RangeSum(txs, user, Income, bs[i].lo, bs[i].hi)
      && bs[i].expense == RangeSum(txs, user, Expense, bs[i].lo, bs[i].hi)
  }

  predicate InSomeBucket(bs: seq<Bucket>, z: int) {
    exists i :: 0 <= i < |bs| && bs[i].lo <= z <= bs[i].hi
  }

  /** A tiling is contiguous and non-overlapping, stays inside `[lo, hi]`, and covers every day of it. */
  lemma TilesCover(bs: seq<Bucket>, lo: int, hi: int)
    requires Tiles(bs, lo, hi)
    ensures lo <= hi
    ensures forall i :: 0 <= i < |bs| ==> lo <= bs[i].lo && bs[i].hi <= hi
    ensures forall i, j :: 0 <= i < j < |bs| ==> bs[i].hi < bs[j].lo
    ensures forall z :: lo <= z <= hi ==> InSomeBucket(bs, z)
  {
    TilesWithin(bs, lo, hi);
    TilesOrdered(bs, lo, hi);
    TilesCovering(bs, lo, hi);
  }

  /** The tiling of `[lo, hi]` without its last bucket tiles up to that bucket's first day. */
  lemma TilesInit(bs: seq<Bucket>, lo: int, hi: int)
    requires Tiles(bs, lo, hi) && |bs| > 1
    ensures Tiles(bs[..|bs| - 1], lo, bs[|bs| - 2].hi)
    ensures bs[|bs| - 2].hi + 1 == bs[|bs| - 1].lo
  {
  }

  lemma {:induction false} TilesWithin(bs: seq<Bucket>, lo: int, hi: int)
    requires Tiles(bs, lo, hi)
    ensures lo <= hi
    ensures forall i :: 0 <= i < |bs| ==> lo <= bs[i].lo && bs[i].hi <= hi
  {
    var n := |bs|;
    if n > 1 {
      var init, mid := bs[..n - 1], bs[n - 2].hi;
      TilesInit(bs, lo, hi);
      TilesWithin(init, lo, mid);
      forall i | 0 <= i < n
        ensures lo <= bs[i].lo && bs[i].hi <= hi
      {
        if i < n - 1 {
          assert init[i] == bs[i];
        }
      }
    }
  }

  lemma {:induction false} TilesOrdered(bs: seq<Bucket>, lo: int, hi: int)
    requires Tiles(bs, lo, hi)
    ensures forall i, j :: 0 <= i < j < |bs| ==> bs[i].hi < bs[j].lo
  {
    var n := |bs|;
    if n > 1 {
      var init, mid := bs[..n - 1], bs[n - 2].hi;
      TilesInit(bs, lo, hi);
      TilesWithin(init, lo, mid);
      TilesOrdered(init, lo, mid);
      forall i, j | 0 <= i < j < n
        ensures bs[i].hi < bs[j].lo
      {
        assert init[i] == bs[i];
        if j < n - 1 {
          assert init[j] == bs[j];
        }
      }
    }
  }

  lemma {:induction false} TilesCovering(bs: seq<Bucket>, lo: int, hi: int)
    requires Tiles(bs, lo, hi)
    ensures forall z :: lo <= z <= hi ==> InSomeBucket(bs, z)
  {
    var n := |bs|;
    if n == 1 {
      forall z | lo <= z <= hi
        ensures InSomeBucket(bs, z)
      {
        assert bs[0].lo <= z <= bs[0].hi;
      }
    } else {
      var init, mid := bs[..n - 1], bs[n - 2].hi;
      TilesInit(bs, lo, hi);
      TilesCovering(init, lo, mid);
      forall z | lo <= z <= hi
        ensures InSomeBucket(bs, z)
      {
        if z <= mid {
          assert InSomeBucket(init, z);
          var i :| 0 <= i < |init| && init[i].lo <= z <= init[i].hi;
          assert bs[i] == init[i];
        } else {
          assert bs[n - 1].lo <= z <= bs[n - 1].hi;
        }
      }
    }
  }

  /** The sums of a trend's income and expense columns. */
  function IncomeTotal(bs: seq<Bucket>): int {
    if bs == [] then 0 else IncomeTotal(bs[..|bs| - 1]) + bs[|bs| - 1].income
  }

  function ExpenseTotal(bs: seq<Bucket>): int {
    if bs == [] then 0 else ExpenseTotal(bs[..|bs| - 1]) + bs[|bs| - 1].expense
  }

  /** Whatever the bucketing, the trend's columns add up to the range totals. */
  lemma {:induction false} TilingSums(bs: seq<Bucket>, txs: seq<Transaction>, user: int, lo: int, hi: int)
    requires Tiles(bs, lo, hi) && HasTotals(bs, txs, user)
    ensures IncomeTotal(bs) == RangeSum(txs, user, Income, lo, hi)
    ensures ExpenseTotal(bs) == RangeSum(txs, user, Expense, lo, hi)
  {
    var n := |bs|;
    if n == 1 {
      assert bs[..0] == [];
    } else {
      var init := bs[..n - 1];
      var mid := bs[n - 2].hi;
      assert Tiles(init, lo, mid);
      assert HasTotals(init, txs, user) by {
        forall i | 0 <= i < |init|
          ensures init[i] == bs[i]
        {
        }
      }
      TilesCover(init, lo, mid);
      TilingSums(init, txs, user, lo, mid);
      RangeSumSplit(txs, user, Income, lo, mid, hi);
      RangeSumSplit(txs, user, Expense, lo, mid, hi);
    }
  }

  /** The daily trend: one entry per day, `filter(date=current)`. */
  method DailyTrend(txs: seq<Transaction>, user: int, s: int, e: int) returns (bs: seq<Bucket>)
    requires s <= e
    ensures |bs| == e - s + 1
    ensures forall i :: 0 <= i < |bs| ==> bs[i].lo == s + i && bs[i].hi == s + i
    ensures Tiles(bs, s, e) && HasTotals(bs, txs, user)
  {
    bs := [];
    var current := s;
    while current <= e
      invariant s <= current <= e + 1
      invariant |bs| == current - s
      invariant forall i :: 0 <= i < |bs| ==> bs[i].lo == s + i && bs[i].hi == s + i
      invariant HasTotals(bs, txs, user)
    {
      var dIncome := RangeSum(txs, user, Income, current, current);
      var dExpense := RangeSum(txs, user, Expense, current, current);
      bs := bs + [Bucket(current, current, dIncome, dExpense)];
      current := current + 1;
    }
  }

  /** Weeks counted from the range's first day; only the last may be short. */
  predicate WeeklyShape(bs: seq<Bucket>) {
    (forall i :: 0 <= i < |bs| ==> bs[i].hi - bs[i].lo <= 6)
    && (forall i :: 0 <= i < |bs| - 1 ==> bs[i].hi - bs[i].lo == 6)
  }

  /** The weekly trend: seven-day buckets from `start_date`, the last cut at `end_date`. */
  method WeeklyTrend(txs: seq<Transaction>, user: int, s: int, e: int) returns (bs: seq<Bucket>)
    requires s <= e
    ensures Tiles(bs, s, e) && HasTotals(bs, txs, user)
    ensures WeeklyShape(bs)
    ensures |bs| == (e - s) / 7 + 1
  {
    bs := [];
    var current := s;
    while current <= e
      invariant s <= current <= e + 1
      invariant bs == [] <==> current == s
      invariant bs != [] ==> bs[0].lo == s && bs[|bs| - 1].hi + 1 == current
      invariant forall i :: 0 <= i < |bs| ==> bs[i].lo <= bs[i].hi
      invariant forall i :: 0 <= i < |bs| - 1 ==> bs[i].hi + 1 == bs[i + 1].lo
      invariant WeeklyShape(bs)
      invariant current <= e ==> forall i :: 0 <= i < |bs| ==> bs[i].hi - bs[i].lo == 6
      invariant current <= e ==> current - s == 7 * |bs|
      invariant current == e + 1 ==> |bs| == (e - s) / 7 + 1
      invariant HasTotals(bs, txs, user)
      decreases e - current
    {
      var wEnd := if current + 6 < e then current + 6 else e;
      var wIncome := RangeSum(txs, user, Income, current, wEnd);
      var wExpense := RangeSum(txs, user, Expense, current, wEnd);
      var b := Bucket(current, wEnd, wIncome, wExpense);
      AppendChain(bs, b);
      AppendTotals(bs, b, txs, user);
      AppendWeek(bs, b);
      if wEnd == e {
        WeekCount(|bs|, e - current);
      }
      bs := bs + [b];
      current := wEnd + 1;
    }
  }

  /** Appending a week of at most seven days to full weeks keeps the weekly shape, and
      a full week keeps every week full. */
  lemma AppendWeek(bs: seq<Bucket>, b: Bucket)
    requires forall i :: 0 <= i < |bs| ==> bs[i].hi - bs[i].lo == 6
    requires b.hi - b.lo <= 6
    ensures WeeklyShape(bs + [b])
    ensures b.hi - b.lo == 6 ==> forall i :: 0 <= i < |bs + [b]| ==> (bs + [b])[i].hi - (bs + [b])[i].lo == 6
  {
    var nbs := bs + [b];
    assert forall i :: 0 <= i < |bs| ==> nbs[i] == bs[i];
    assert nbs[|bs|] == b;
  }

  /** `n` full weeks and a remainder of at most six more days make `n + 1` weeks. */
  lemma WeekCount(n: nat, r: int)
    requires 0 <= r <= 6
    ensures (7 * n + r) / 7 + 1 == n + 1
  {
  }

  /** The month a day falls in. */
  function MonthOfDay(z: int): (p: Periods.MonthYear)
    ensures 1 <= p.month <= 12
  {
    var d := Calendar.FromOrdinal(z);
    Periods.MonthYear(d.month, d.year)
  }

  function MonthNumber(z: int): int {
    Periods.MonthIndex(MonthOfDay(z))
  }

  /** The month with index `k`. */
  function MonthAt(k: int): (p: Periods.MonthYear)
    ensures 1 <= p.month <= 12 && Periods.MonthIndex(p) == k
  {
    Periods.MonthYear(k % 12 + 1, k / 12)
  }

  /** The days `[b.lo, b.hi]` lie in month `p`. */
  predicate WithinMonth(b: Bucket, p: Periods.MonthYear)
    requires 1 <= p.month <= 12
  {
    Calendar.MonthStart(p.year, p.month) <= b.lo && b.hi <= Calendar.MonthEnd(p.year, p.month)
  }

  /** A bucket within a month has both its first and its last day in that month. */
  lemma WithinMonthDays(b: Bucket, p: Periods.MonthYear)
    requires 1 <= p.month <= 12 && b.lo <= b.hi && WithinMonth(b, p)
    ensures MonthOfDay(b.lo) == p && MonthOfDay(b.hi) == p
  {
    Calendar.InMonthIffInRange(b.lo, p.year, p.month);
    Calendar.InMonthIffInRange(b.hi, p.year, p.month);
  }

  /** `s` lies in the month with index `first`, `e` in the one with index `last`. */
  predicate Spans(s: int, e: int, first: int, last: int) {
    && s <= e && first <= last
    && Calendar.MonthStart(MonthAt(first).year, MonthAt(first).month) <= s
    && s <= Calendar.MonthEnd(MonthAt(first).year, MonthAt(first).month)
    && Calendar.MonthStart(MonthAt(last).year, MonthAt(last).month) <= e
    && e <= Calendar.MonthEnd(MonthAt(last).year, MonthAt(last).month)
  }

  /** The months of a range's two ends, in order. */
  lemma SpansOfRange(s: int, e: int)
    requires s <= e
    ensures Spans(s, e, MonthNumber(s), MonthNumber(e))
  {
    var first, last := MonthOfDay(s), MonthOfDay(e);
    Periods.MonthIndexInjective(MonthAt(MonthNumber(s)), first);
    Periods.MonthIndexInjective(MonthAt(MonthNumber(e)), last);
    Calendar.InMonthIffInRange(s, first.year, first.month);
    Calendar.InMonthIffInRange(e, last.year, last.month);
    if MonthNumber(s) > MonthNumber(e) {
      Calendar.MonthsOrdered(last.year, last.month, first.year, first.month);
    }
  }

  /** The bucket for month `c`: the whole month, cut at `s` in the first month and at `e`
      in the last, with its totals. */
  function MonthBucket(txs: seq<Transaction>, user: int, c: Periods.MonthYear, s: int, e: int,
                       first: int, last: int): (b: Bucket)
    requires Spans(s, e, first, last) && 1 <= c.month <= 12
    requires first <= Periods.MonthIndex(c) <= last
    ensures b.lo == if Periods.MonthIndex(c) == first then s else Calendar.MonthStart(c.year, c.month)
    ensures b.hi == if Periods.MonthIndex(c) == last then e else Calendar.MonthEnd(c.year, c.month)
    ensures b.lo <= b.hi && WithinMonth(b, c)
    ensures b.income == RangeSum(txs, user, Income, b.lo, b.hi)
    ensures b.expense == RangeSum(txs, user, Expense, b.lo, b.hi)
  {
    var ms, me := Calendar.MonthStart(c.year, c.month), Calendar.MonthEnd(c.year, c.month);
    var lo := if ms < s then s else ms;
    var hi := if me > e then e else me;
    MonthBucketBounds(c, s, e, first, last, lo, hi);
    Bucket(lo, hi, RangeSum(txs, user, Income, lo, hi), RangeSum(txs, user, Expense, lo, hi))
  }

  lemma MonthBucketBounds(c: Periods.MonthYear, s: int, e: int, first: int, last: int, lo: int, hi: int)
    requires Spans(s, e, first, last) && 1 <= c.month <= 12
    requires first <= Periods.MonthIndex(c) <= last
    requires lo == if Calendar.MonthStart(c.year, c.month) < s then s else Calendar.MonthStart(c.year, c.month)
    requires hi == if Calendar.MonthEnd(c.year, c.month) > e then e else Calendar.MonthEnd(c.year, c.month)
    ensures lo == if Periods.MonthIndex(c) == first then s else Calendar.MonthStart(c.year, c.month)
    ensures hi == if Periods.MonthIndex(c) == last then e else Calendar.MonthEnd(c.year, c.month)
    ensures Calendar.MonthStart(c.year, c.month) <= lo <= hi <= Calendar.MonthEnd(c.year, c.month)
  {
    var f, l := MonthAt(first), MonthAt(last);
    if Periods.MonthIndex(c) == first {
      Periods.MonthIndexInjective(c, f);
    } else {
      Calendar.MonthsOrdered(f.year, f.month, c.year, c.month);
    }
    if Periods.MonthIndex(c) == last {
      Periods.MonthIndexInjective(c, l);
    } else {
      Calendar.MonthsOrdered(c.year, c.month, l.year, l.month);
    }
  }

  /** The day after the last of month `c` is the first of the month after it. */
  lemma NextMonthStart(c: Periods.MonthYear)
    requires 1 <= c.month <= 12
    ensures Calendar.MonthEnd(c.year, c.month) + 1
            == Calendar.MonthStart(Periods.NextMonth(c).year, Periods.NextMonth(c).month)
  {
    Calendar.MonthEndNext(c.year, c.month);
  }

  /** Bucket `i` lies within the `i`-th month after month `first`. */
  predicate MonthlyShape(bs: seq<Bucket>, first: int) {
    forall i :: 0 <= i < |bs| ==> WithinMonth(bs[i], MonthAt(first + i))
  }

  /** The state of the monthly loop before month `current`: the buckets of the months
      from `first` up to `current`, each cut to `[s, e]`, with their totals. */
  predicate MonthLoop(bs: seq<Bucket>, current: Periods.MonthYear, txs: seq<Transaction>, user: int,
                      s: int, e: int, first: int, last: int) {
    && 1 <= current.month <= 12
    && first <= Periods.MonthIndex(current) <= last + 1
    && |bs| == Periods.MonthIndex(current) - first
    && (bs != [] ==> bs[0].lo == s)
    && (bs != [] && Periods.MonthIndex(current) <= last ==>
        bs[|bs| - 1].hi + 1 == Calendar.MonthStart(current.year, current.month))
    && (bs != [] && Periods.MonthIndex(current) > last ==> bs[|bs| - 1].hi == e)
    && (forall i :: 0 <= i < |bs| ==> bs[i].lo <= bs[i].hi)
    && (forall i :: 0 <= i < |bs| - 1 ==> bs[i].hi + 1 == bs[i + 1].lo)
    && MonthlyShape(bs, first)
    && HasTotals(bs, txs, user)
  }

  /** One turn of the monthly loop keeps its state. */
  lemma MonthLoopStep(bs: seq<Bucket>, current: Periods.MonthYear, txs: seq<Transaction>, user: int,
                      s: int, e: int, first: int, last: int)
    requires Spans(s, e, first, last)
    requires MonthLoop(bs, current, txs, user, s, e, first, last) && Periods.MonthIndex(current) <= last
    ensures MonthLoop(bs + [MonthBucket(txs, user, current, s, e, first, last)], Periods.NextMonth(current),
                      txs, user, s, e, first, last)
  {
    var b := MonthBucket(txs, user, current, s, e, first, last);
    NextMonthStart(current);
    Periods.MonthIndexInjective(MonthAt(first + |bs|), current);
    AppendBucket(bs, b, txs, user, first);
  }

  /** Appending a bucket that follows on from the last one keeps the buckets ordered and
      contiguous, each within its month and carrying its totals. */
  lemma AppendBucket(bs: seq<Bucket>, b: Bucket, txs: seq<Transaction>, user: int, first: int)
    requires forall i :: 0 <= i < |bs| ==> bs[i].lo <= bs[i].hi
    requires forall i :: 0 <= i < |bs| - 1 ==> bs[i].hi + 1 == bs[i + 1].lo
    requires MonthlyShape(bs, first) && HasTotals(bs, txs, user)
    requires b.lo <= b.hi && WithinMonth(b, MonthAt(first + |bs|))
    requires b.income == RangeSum(txs, user, Income, b.lo, b.hi)
    requires b.expense == RangeSum(txs, user, Expense, b.lo, b.hi)
    requires bs != [] ==> bs[|bs| - 1].hi + 1 == b.lo
    ensures forall i :: 0 <= i < |bs + [b]| ==> (bs + [b])[i].lo <= (bs + [b])[i].hi
    ensures forall i :: 0 <= i < |bs + [b]| - 1 ==> (bs + [b])[i].hi + 1 == (bs + [b])[i + 1].lo
    ensures MonthlyShape(bs + [b], first) && HasTotals(bs + [b], txs, user)
  {
    AppendChain(bs, b);
    AppendShape(bs, b, first);
    AppendTotals(bs, b, txs, user);
  }

  lemma AppendChain(bs: seq<Bucket>, b: Bucket)
    requires forall i :: 0 <= i < |bs| ==> bs[i].lo <= bs[i].hi
    requires forall i :: 0 <= i < |bs| - 1 ==> bs[i].hi + 1 == bs[i + 1].lo
    requires b.lo <= b.hi && (bs != [] ==> bs[|bs| - 1].hi + 1 == b.lo)
    ensures forall i :: 0 <= i < |bs + [b]| ==> (bs + [b])[i].lo <= (bs + [b])[i].hi
    ensures forall i :: 0 <= i < |bs + [b]| - 1 ==> (bs + [b])[i].hi + 1 == (bs + [b])[i + 1].lo
  {
    var nbs := bs + [b];
    forall i | 0 <= i < |nbs|
      ensures nbs[i].lo <= nbs[i].hi
    {
      if i < |bs| {
        assert nbs[i] == bs[i];
      }
    }
    forall i | 0 <= i < |nbs| - 1
      ensures nbs[i].hi + 1 == nbs[i + 1].lo
    {
      if i < |bs| - 1 {
        assert nbs[i] == bs[i] && nbs[i + 1] == bs[i + 1];
      } else {
        assert nbs[i] == bs[|bs| - 1] && nbs[i + 1] == b;
      }
    }
  }

  lemma AppendShape(bs: seq<Bucket>, b: Bucket, first: int)
    requires MonthlyShape(bs, first) && WithinMonth(b, MonthAt(first + |bs|))
    ensures MonthlyShape(bs + [b], first)
  {
    var nbs := bs + [b];
    forall i | 0 <= i < |nbs|
      ensures WithinMonth(nbs[i], MonthAt(first + i))
    {
      if i < |bs| {
        assert nbs[i] == bs[i];
      }
    }
  }

  lemma AppendTotals(bs: seq<Bucket>, b: Bucket, txs: seq<Transaction>, user: int)
    requires HasTotals(bs, txs, user)
    requires b.income == RangeSum(txs, user, Income, b.lo, b.hi)
    requires b.expense == RangeSum(txs, user, Expense, b.lo, b.hi)
    ensures HasTotals(bs + [b], txs, user)
  {
    var nbs := bs + [b];
    forall i | 0 <= i < |nbs|
      ensures nbs[i].income == RangeSum(txs, user, Income, nbs[i].lo, nbs[i].hi)
      ensures nbs[i].expense == RangeSum(txs, user, Expense, nbs[i].lo, nbs[i].hi)
    {
      if i < |bs| {
        assert nbs[i] == bs[i];
      }
    }
  }

  /** When the loop passes month `last`, its buckets tile `[s, e]`, one per month. */
  lemma MonthLoopDone(bs: seq<Bucket>, current: Periods.MonthYear, txs: seq<Transaction>, user: int,
                      s: int, e: int, first: int, last: int)
    requires Spans(s, e, first, last)
    requires MonthLoop(bs, current, txs, user, s, e, first, last) && Periods.MonthIndex(current) > last
    ensures Tiles(bs, s, e) && |bs| == last - first + 1
  {
  }

  /** The monthly trend: one bucket per calendar month touched by `[s, e]`, each cut to the range. */
  method MonthlyTrend(txs: seq<Transaction>, user: int, s: int, e: int) returns (bs: seq<Bucket>)
    requires s <= e
    ensures Tiles(bs, s, e) && HasTotals(bs, txs, user)
    ensures MonthlyShape(bs, MonthNumber(s))
    ensures |bs| == MonthNumber(e) - MonthNumber(s) + 1
  {
    SpansOfRange(s, e);
    var first, last := MonthNumber(s), MonthNumber(e);
    var current := MonthOfDay(s);
    bs := [];
    while Periods.MonthIndex(current) <= last
      invariant MonthLoop(bs, current, txs, user, s, e, first, last)
      decreases last + 1 - Periods.MonthIndex(current)
    {
      MonthLoopStep(bs, current, txs, user, s, e, first, last);
      bs := bs + [MonthBucket(txs, user, current, s, e, first, last)];
      current := Periods.NextMonth(current);
    }
    MonthLoopDone(bs, current, txs, user, s, e, first, last);
  }

  /** One cumulative entry: a day and the running totals up to and including it. */
  datatype Running = Running(day: int, income: int, expense: int)

  /** The cumulative trend: running income and expense totals, day by day. */
  method Cumulative(txs: seq<Transaction>, user: int, s: int, e: int) returns (rows: seq<Running>)
    requires s <= e
    ensures |rows| == e - s + 1
    ensures forall i :: 0 <= i < |rows| ==>
              rows[i].day == s + i
              && rows[i].income == RangeSum(txs, user, Income, s, s + i)
              && rows[i].expense == RangeSum(txs, user, Expense, s, s + i)
    ensures rows[|rows| - 1].income == RangeSum(txs, user, Income, s, e)
    ensures rows[|rows| - 1].expense == RangeSum(txs, user, Expense, s, e)
  {
    rows := [];
    var cumulativeExpense, cumulativeIncome := 0, 0;
    RangeSumEmpty(txs, user, Income, s, s - 1);
    RangeSumEmpty(txs, user, Expense, s, s - 1);
    var current := s;
    while current <= e
      invariant s <= current <= e + 1
      invariant |rows| == current - s
      invariant cumulativeIncome == RangeSum(txs, user, Income, s, current - 1)
      invariant cumulativeExpense == RangeSum(txs, user, Expense, s, current - 1)
      invariant forall i :: 0 <= i < |rows| ==>
                  rows[i].day == s + i
                  && rows[i].income == RangeSum(txs, user, Income, s, s + i)
                  && rows[i].expense == RangeSum(txs, user, Expense, s, s + i)
    {
      var dExpense := RangeSum(txs, user, Expense, current, current);
      var dIncome := RangeSum(txs, user, Income, current, current);
      RangeSumSplit(txs, user, Income, s, current - 1, current);
      RangeSumSplit(txs, user, Expense, s, current - 1, current);
      cumulativeExpense := cumulativeExpense + dExpense;
      cumulativeIncome := cumulativeIncome + dIncome;
      rows := rows + [Running(current, cumulativeIncome, cumulativeExpense)];
      current := current + 1;
    }
  }

  /** The period of the same length that ends the day before `rg` starts. */
  function PreviousPeriod(rg: Range): (p: Range)
    ensures p.end + 1 == rg.start
    ensures DaysInRange(p) == DaysInRange(rg)
  {
    var prevEnd := rg.start - 1;
    Range(prevEnd - (DaysInRange(rg) - 1), prevEnd)
  }

  /** The previous period and the range together form one range of twice the length,
      whose totals are the two periods' totals added. */
  lemma PreviousPeriodJoins(txs: seq<Transaction>, user: int, kind: TxType, rg: Range)
    requires rg.start <= rg.end
    ensures var p := PreviousPeriod(rg);
            && p.start <= p.end
            && DaysInRange(Range(p.start, rg.end)) == 2 * DaysInRange(rg)
            && RangeSum(txs, user, kind, p.start, rg.end)
               == RangeSum(txs, user, kind, p.start, p.end) + RangeSum(txs, user, kind, rg.start, rg.end)
  {
    var p := PreviousPeriod(rg);
    RangeSumSplit(txs, user, kind, p.start, p.end, rg.end);
  }

  /** A day `datetime.date` can hold: one whose year lies between 1 and 9999. */
  predicate Representable(z: int) {
    1 <= Calendar.FromOrdinal(z).year <= 9999
  }

  /** The day the weekly loop starts its last week on. */
  function LastWeekStart(rg: Range): int
    requires rg.start <= rg.end
  {
    rg.start + 7 * ((rg.end - rg.start) / 7)
  }

  /** The first day of the month after the one holding `z`, which the monthly loop's
      `relativedelta(months=1)` reaches from the range's last month. */
  function NextMonthFirst(z: int): int {
    var d := Calendar.FromOrdinal(z);
    Calendar.MonthEnd(d.year, d.month) + 1
  }

  /** The view computes a day outside `date`'s years, and raises, for one of these: the
      day after `end_date` (where the cumulative loop, and the daily and weekly loops,
      step past the range), the previous period's first day (`prev_start_date`), the
      sixth day after the last week's start (`current + timedelta(days=6)`), and the
      first of the month after `end_date`'s (`relativedelta(months=1)`). Every other
      day it computes, the presets' starting points included, lies between the
      previous period's first day and one of these. */
  predicate Overflows(rg: Range)
    requires rg.start <= rg.end
  {
    || !Representable(rg.end + 1)
    || !Representable(PreviousPeriod(rg).start)
    || (GranularityFor(DaysInRange(rg)) == Weekly && !Representable(LastWeekStart(rg) + 6))
    || (GranularityFor(DaysInRange(rg)) == Monthly && !Representable(NextMonthFirst(rg.end)))
  }

  /** A day before the first of January of year `y` lies in an earlier year. */
  lemma BeforeYearStart(z: int, y: int)
    requires z < Calendar.MonthStart(y, 1)
    ensures Calendar.FromOrdinal(z).year < y
  {
    var d := Calendar.FromOrdinal(z);
    if d.year * 12 + d.month > y * 12 + 1 {
      Calendar.EarlierMonthEarlierDate(Calendar.Date(y, 1, 1), d);
    }
  }

  /** A range ending on the last of December of year 9999 or later fails: the cumulative
      loop steps into the year after. */
  lemma LastDayOverflows(rg: Range, y: int)
    requires rg.start <= rg.end && y >= 9999
    requires rg.end == Calendar.MonthEnd(y, 12)
    ensures Overflows(rg)
  {
    NewYearUnrepresentable(y);
  }

  /** The day after the last of December of year 9999 or later is outside `date`'s years. */
  lemma NewYearUnrepresentable(y: int)
    requires y >= 9999
    ensures !Representable(Calendar.MonthEnd(y, 12) + 1)
  {
    var next := Calendar.Date(y + 1, 1, 1);
    Calendar.MonthEndNext(y, 12);
    Calendar.FromToOrdinal(next);
    assert Calendar.FromOrdinal(Calendar.MonthEnd(y, 12) + 1) == next;
  }

  /** A range of more than 180 days ending in December of year 9999 or later fails: the
      monthly loop asks for the month after. */
  lemma LastMonthOverflows(rg: Range)
    requires rg.start <= rg.end && DaysInRange(rg) > 180
    requires Calendar.FromOrdinal(rg.end).year >= 9999 && Calendar.FromOrdinal(rg.end).month == 12
    ensures Overflows(rg)
  {
    var y := Calendar.FromOrdinal(rg.end).year;
    Calendar.MonthEndNext(y, 12);
    Calendar.FromToOrdinal(Calendar.Date(y + 1, 1, 1));
  }

  /** A range starting on the first of January of year 1 or earlier fails: the previous
      period ends the day before. */
  lemma FirstDayOverflows(rg: Range, y: int)
    requires rg.start <= rg.end && y <= 1
    requires rg.start == Calendar.MonthStart(y, 1)
    ensures Overflows(rg)
  {
    BeforeYearStart(PreviousPeriod(rg).start, y);
  }

  /** The parts of the response this model computes. */
  datatype Report = Report(range: Range, days: int, granularity: Granularity,
                           totalIncome: int, totalExpenses: int,
                           trend: seq<Bucket>, cumulative: seq<Running>,
                           previous: Range, previousIncome: int, previousExpenses: int)

  /** What a report for `rg` states about `user`'s rows. */
  predicate ReportOf(g: Report, txs: seq<Transaction>, user: int, rg: Range)
    requires rg.start <= rg.end
  {
    && g.range == rg
    && g.days == DaysInRange(rg)
    && g.granularity == GranularityFor(g.days)
    && g.totalIncome == RangeSum(txs, user, Income, rg.start, rg.end)
    && g.totalExpenses == RangeSum(txs, user, Expense, rg.start, rg.end)
    && Tiles(g.trend, rg.start, rg.end) && HasTotals(g.trend, txs, user)
    && IncomeTotal(g.trend) == g.totalIncome && ExpenseTotal(g.trend) == g.totalExpenses
    && (g.granularity == Daily ==> |g.trend| == g.days)
    && (g.granularity == Weekly ==> WeeklyShape(g.trend))
    && (g.granularity == Monthly ==> MonthlyShape(g.trend, MonthNumber(rg.start)))
    && |g.cumulative| == g.days
    && g.cumulative[|g.cumulative| - 1].income == g.totalIncome
    && g.cumulative[|g.cumulative| - 1].expense == g.totalExpenses
    && g.previous == PreviousPeriod(rg)
    && g.previousIncome == RangeSum(txs, user, Income, g.previous.start, g.previous.end)
    && g.previousExpenses == RangeSum(txs, user, Expense, g.previous.start, g.previous.end)
  }

  /** The trend at the chosen granularity. */
  method TrendFor(txs: seq<Transaction>, user: int, s: int, e: int, g: Granularity) returns (trend: seq<Bucket>)
    requires s <= e
    ensures Tiles(trend, s, e) && HasTotals(trend, txs, user)
    ensures g == Daily ==> |trend| == e - s + 1
    ensures g == Weekly ==> WeeklyShape(trend)
    ensures g == Monthly ==> MonthlyShape(trend, MonthNumber(s))
  {
    match g
    case Monthly => trend := MonthlyTrend(txs, user, s, e);
    case Weekly => trend := WeeklyTrend(txs, user, s, e);
    case Daily => trend := DailyTrend(txs, user, s, e);
  }

  /** How the view fails: a 400 with its message, or a 500 from a day outside `date`'s years. */
  datatype Failure = BadRequest(error: RangeError) | ServerError

  /** `AnalyticsDateRangeView.get`: a 400 for a malformed or inverted range, a 500 when
      the range reaches the limits of `date`, otherwise the report. */
  method DateRangeAnalytics(txs: seq<Transaction>, user: int, rangeType: Option<string>,
                            startParam: Option<string>, endParam: Option<string>, today: Calendar.Date)
    returns (r: Result<Report, Failure>)
    requires Calendar.Valid(today)
    ensures ResolveRange(rangeType, startParam, endParam, today).Err? ==>
            r == Err(BadRequest(ResolveRange(rangeType, startParam, endParam, today).error))
    ensures ResolveRange(rangeType, startParam, endParam, today).Ok? ==>
            (r == Err(ServerError) <==> Overflows(ResolveRange(rangeType, startParam, endParam, today).value))
    ensures ResolveRange(rangeType, startParam, endParam, today).Ok?
            && !Overflows(ResolveRange(rangeType, startParam, endParam, today).value) ==>
            r.Ok? && ReportOf(r.value, txs, user, ResolveRange(rangeType, startParam, endParam, today).value)
  {
    var resolved := ResolveRange(rangeType, startParam, endParam, today);
    if resolved.Err? {
      return Err(BadRequest(resolved.error));
    }
    var rg := resolved.value;
    if Overflows(rg) {
      return Err(ServerError);
    }
    var report := BuildReport(txs, user, rg);
    r := Ok(report);
  }

  /** The report for a resolved range: totals, trend, running totals and the previous period. */
  method BuildReport(txs: seq<Transaction>, user: int, rg: Range) returns (g: Report)
    requires rg.start <= rg.end
    ensures ReportOf(g, txs, user, rg)
  {
    var s, e := rg.start, rg.end;
    var days := DaysInRange(rg);
    var totalIncome := RangeSum(txs, user, Income, s, e);
    var totalExpenses := RangeSum(txs, user, Expense, s, e);
    var granularity := GranularityFor(days);
    var trend := TrendFor(txs, user, s, e, granularity);
    TilingSums(trend, txs, user, s, e);
    var cumulative := Cumulative(txs, user, s, e);
    var previous := PreviousPeriod(rg);
    var previousIncome := RangeSum(txs, user, Income, previous.start, previous.end);
    var previousExpenses := RangeSum(txs, user, Expense, previous.start, previous.end);
    g := Report(rg, days, granularity, totalIncome, totalExpenses, trend, cumulative,
                previous, previousIncome, previousExpenses);
  }
}
