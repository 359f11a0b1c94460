/** The proleptic Gregorian calendar as Python's `datetime.date` uses it: civil
    dates, day ordinals (days since 1970-01-01), day and month arithmetic, and
    `strptime(..., '%Y-%m-%d')` parsing with its `isoformat()` partner. */
module Calendar {
  import opened Wrappers
  import Text

  datatype Date = Date(year: int, month: int, day: int)

  predicate IsLeap(y: int) {
    y % 4 == 0 && (y % 100 != 0 || y % 400 == 0)
  }

  function DaysInYear(y: int): (n: int)
    ensures n == 365 || n == 366
    ensures n == 366 <==> IsLeap(y)
  {
    if IsLeap(y) then 366 else 365
  }

  /** `calendar.monthrange(y, m)[1]`. */
  function DaysInMonth(y: int, m: int): (n: int)
    requires 1 <= m <= 12
    ensures 28 <= n <= 31
    ensures m == 2 ==> (n == 29 <==> IsLeap(y))
    ensures m != 2 ==> n >= 30
  {
    if m == 2 then (if IsLeap(y) then 29 else 28)
    else if m == 4 || m == 6 || m == 9 || m == 11 then 30
    else 31
  }

  /** A date `datetime.date` would accept (the year range 1..9999 aside). */
  predicate Valid(d: Date) {
    1 <= d.month <= 12 && 1 <= d.day <= DaysInMonth(d.year, d.month)
  }

  const Epoch: int := 1970

  /** Days from 1970-01-01 to January 1st of year `y` (negative before 1970). */
  function DaysBeforeYear(y: int): int
    decreases if y >= Epoch then y - Epoch else Epoch - y
  {
    if y == Epoch then 0
    else if y > Epoch then DaysBeforeYear(y - 1) + DaysInYear(y - 1)
    else DaysBeforeYear(y + 1) - DaysInYear(y)
  }

  lemma YearStep(y: int)
    ensures DaysBeforeYear(y + 1) == DaysBeforeYear(y) + DaysInYear(y)
  {
  }

  /** Days of year `y` that come before the first of month `m` (`m == 13` is the year's end). */
  function DaysBeforeMonth(y: int, m: int): (n: int)
    requires 1 <= m <= 13
    ensures 0 <= n <= DaysInYear(y)
    ensures m == 1 ==> n == 0
    ensures m == 13 ==> n == DaysInYear(y)
  {
    var table := [0, 31, 59, 90, 120, 151, 181, 212, 243, 273, 304, 334, 365];
    table[m - 1] + (if m > 2 && IsLeap(y) then 1 else 0)
  }

  lemma MonthStep(y: int, m: int)
    requires 1 <= m <= 12
    ensures DaysBeforeMonth(y, m + 1) == DaysBeforeMonth(y, m) + DaysInMonth(y, m)
  {
  }

  /** The ordinal of a date: days since 1970-01-01. */
  function ToOrdinal(d: Date): int
    requires Valid(d)
  {
    DaysBeforeYear(d.year) + DaysBeforeMonth(d.year, d.month) + d.day - 1
  }

  lemma YearsBelow(k: int)
    requires k >= 0
    ensures DaysBeforeYear(Epoch + k) <= 366 * k
    ensures DaysBeforeYear(Epoch - k) <= -365 * k
  {
    if k > 0 {
      YearsBelow(k - 1);
      YearStep(Epoch + k - 1);
      YearStep(Epoch - k);
    }
  }

  function YearSearch(z: int, y: int): (r: int)
    requires DaysBeforeYear(y) <= z
    ensures DaysBeforeYear(r) <= z < DaysBeforeYear(r + 1)
    decreases z - DaysBeforeYear(y)
  {
    YearStep(y);
    if z < DaysBeforeYear(y + 1) then y else YearSearch(z, y + 1)
  }

  /** A first year to search from: never past the year that contains `z`. */
  function YearGuess(z: int): int {
    if z >= 0 then Epoch + z / 366 else Epoch + z / 365
  }

  lemma YearGuessBelow(z: int)
    ensures DaysBeforeYear(YearGuess(z)) <= z
  {
    if z >= 0 { YearsBelow(z / 366); } else { YearsBelow(-(z / 365)); }
  }

  /** The year that contains ordinal `z`. */
  function YearOf(z: int): (y: int)
    ensures DaysBeforeYear(y) <= z < DaysBeforeYear(y + 1)
  {
    YearGuessBelow(z);
    YearSearch(z, YearGuess(z))
  }

  function MonthSearch(y: int, doy: int, m: int): (r: int)
    requires 1 <= m <= 12 && DaysBeforeMonth(y, m) <= doy < DaysInYear(y)
    ensures 1 <= r <= 12 && DaysBeforeMonth(y, r) <= doy < DaysBeforeMonth(y, r + 1)
    decreases 13 - m
  {
    if doy < DaysBeforeMonth(y, m + 1) then m else MonthSearch(y, doy, m + 1)
  }

  /** The date of ordinal `z` (`date.fromordinal`, shifted to the 1970 epoch). */
  function FromOrdinal(z: int): (d: Date)
    ensures Valid(d) && ToOrdinal(d) == z
  {
    var y := YearOf(z);
    YearStep(y);
    var doy := z - DaysBeforeYear(y);
    var m := MonthSearch(y, doy, 1);
    MonthStep(y, m);
    Date(y, m, doy - DaysBeforeMonth(y, m) + 1)
  }

  lemma YearsIncrease(a: int, b: int)
    requires a < b
    ensures DaysBeforeYear(a + 1) <= DaysBeforeYear(b)
    decreases b - a
  {
    YearStep(b - 1);
    if a + 1 < b {
      YearsIncrease(a, b - 1);
    }
  }

  lemma YearUnique(z: int, a: int, b: int)
    requires DaysBeforeYear(a) <= z < DaysBeforeYear(a + 1)
    requires DaysBeforeYear(b) <= z < DaysBeforeYear(b + 1)
    ensures a == b
  {
    if a < b { YearsIncrease(a, b); }
    if b < a { YearsIncrease(b, a); }
  }

  lemma MonthsIncrease(y: int, a: int, b: int)
    requires 1 <= a < b <= 12
    ensures DaysBeforeMonth(y, a + 1) <= DaysBeforeMonth(y, b)
  {
  }

  /** A valid date's ordinal lies in its own year and its own month. */
  lemma OrdinalPlacement(d: Date)
    requires Valid(d)
    ensures DaysBeforeYear(d.year) <= ToOrdinal(d) < DaysBeforeYear(d.year + 1)
    ensures DaysBeforeMonth(d.year, d.month) <= ToOrdinal(d) - DaysBeforeYear(d.year)
              < DaysBeforeMonth(d.year, d.month + 1)
  {
    YearStep(d.year);
    MonthStep(d.year, d.month);
  }

  /** Ordinals name dates one-to-one. */
  lemma OrdinalInjective(d: Date, e: Date)
    requires Valid(d) && Valid(e) && ToOrdinal(d) == ToOrdinal(e)
    ensures d == e
  {
    var z := ToOrdinal(d);
    OrdinalPlacement(d);
    OrdinalPlacement(e);
    YearUnique(z, d.year, e.year);
    if d.month < e.month { MonthsIncrease(d.year, d.month, e.month); }
    if e.month < d.month { MonthsIncrease(d.year, e.month, d.month); }
  }

  /** Converting a valid date to its ordinal and back gives the date again. */
  lemma FromToOrdinal(d: Date)
    requires Valid(d)
    ensures FromOrdinal(ToOrdinal(d)) == d
  {
    OrdinalInjective(FromOrdinal(ToOrdinal(d)), d);
  }

  /** The first and last ordinals of month `m` of year `y`. */
  function MonthStart(y: int, m: int): int
    requires 1 <= m <= 12
  {
    ToOrdinal(Date(y, m, 1))
  }

  function MonthEnd(y: int, m: int): int
    requires 1 <= m <= 12
  {
    ToOrdinal(Date(y, m, DaysInMonth(y, m)))
  }

  /** A date falls in month `m` of year `y` exactly when its ordinal lies between that
      month's first and last day: the `date__month`/`date__year` filters and the
      `date__gte`/`date__lte` filters over a month select the same rows. */
  lemma InMonthIffInRange(z: int, y: int, m: int)
    requires 1 <= m <= 12
    ensures (FromOrdinal(z).year == y && FromOrdinal(z).month == m)
            <==> MonthStart(y, m) <= z <= MonthEnd(y, m)
  {
    var d := FromOrdinal(z);
    OrdinalPlacement(d);
    MonthStep(y, m);
    if MonthStart(y, m) <= z <= MonthEnd(y, m) {
      YearStep(y);
      assert DaysBeforeYear(y) <= z < DaysBeforeYear(y + 1);
      YearUnique(z, y, d.year);
      if d.month < m { MonthsIncrease(y, d.month, m); }
      if m < d.month { MonthsIncrease(y, m, d.month); }
    }
  }

  /** The day after a month's last day is the first day of the month after it. */
  lemma MonthEndNext(y: int, m: int)
    requires 1 <= m <= 12
    ensures MonthEnd(y, m) + 1 == if m == 12 then MonthStart(y + 1, 1) else MonthStart(y, m + 1)
  {
    MonthStep(y, m);
    if m == 12 {
      YearStep(y);
    }
  }

  /** Months in calendar order occupy increasing, disjoint ranges of ordinals. */
  lemma {:induction false} MonthsOrdered(y1: int, m1: int, y2: int, m2: int)
    requires 1 <= m1 <= 12 && 1 <= m2 <= 12
    requires y1 * 12 + m1 < y2 * 12 + m2
    ensures MonthEnd(y1, m1) < MonthStart(y2, m2)
    decreases y2 * 12 + m2 - (y1 * 12 + m1)
  {
    MonthEndNext(y1, m1);
    var ny := if m1 == 12 then y1 + 1 else y1;
    var nm := if m1 == 12 then 1 else m1 + 1;
    assert MonthEnd(y1, m1) + 1 == MonthStart(ny, nm);
    if ny * 12 + nm < y2 * 12 + m2 {
      MonthsOrdered(ny, nm, y2, m2);
    } else {
      assert ny == y2 && nm == m2;
    }
  }

  /** A date in an earlier month has a smaller ordinal. */
  lemma EarlierMonthEarlierDate(d: Date, e: Date)
    requires Valid(d) && Valid(e)
    requires d.year * 12 + d.month < e.year * 12 + e.month
    ensures ToOrdinal(d) < ToOrdinal(e)
  {
    MonthsOrdered(d.year, d.month, e.year, e.month);
  }

  /** `d + timedelta(days=n)`. */
  function AddDays(d: Date, n: int): (r: Date)
    requires Valid(d)
    ensures Valid(r) && ToOrdinal(r) == ToOrdinal(d) + n
  {
    FromOrdinal(ToOrdinal(d) + n)
  }

  /** `d + relativedelta(months=k)`: shift the month and clamp the day to the new month's length. */
  function AddMonths(d: Date, k: int): (r: Date)
    requires Valid(d)
    ensures Valid(r)
    ensures r.year * 12 + r.month == d.year * 12 + d.month + k
    ensures r.day == if d.day <= DaysInMonth(r.year, r.month) then d.day else DaysInMonth(r.year, r.month)
  {
    var total := d.year * 12 + (d.month - 1) + k;
    var y := total / 12;
    var m := total % 12 + 1;
    Date(y, m, if d.day <= DaysInMonth(y, m) then d.day else DaysInMonth(y, m))
  }

  /** Shifting by a month and back returns the same date when the day needs no clamping. */
  lemma AddMonthsBack(d: Date, k: int)
    requires Valid(d)
    requires d.day <= 28
    ensures AddMonths(AddMonths(d, k), -k) == d
  {
  }

  /** The month abbreviations `strftime('%b')` prints in the C locale. */
  function MonthAbbr(m: int): (s: string)
    requires 1 <= m <= 12
    ensures |s| == 3
  {
    ["Jan", "Feb", "Mar", "Apr", "May", "Jun", "Jul", "Aug", "Sep", "Oct", "Nov", "Dec"][m - 1]
  }

  /** Two decimal digits with a leading zero (`%02d`). */
  function Pad2(n: nat): (s: string)
    requires n < 100
    ensures |s| == 2 && Text.AllDigits(s)
  {
    [Text.DigitChar(n / 10), Text.DigitChar(n % 10)]
  }

  /** Four decimal digits with leading zeros (`%04d`). */
  function Pad4(n: nat): (s: string)
    requires n < 10000
    ensures |s| == 4 && Text.AllDigits(s)
  {
    Pad2(n / 100) + Pad2(n % 100)
  }

  /** `date.isoformat()`, which is also what `toISOString().split('T')[0]` yields on the client. */
  function FormatIsoDate(d: Date): (s: string)
    requires Valid(d) && 1 <= d.year <= 9999
    ensures |s| == 10 && s[4] == '-' && s[7] == '-'
  {
    Pad4(d.year) + "-" + Pad2(d.month) + "-" + Pad2(d.day)
  }

  function DigitValue(c: char): int {
    c as int - '0' as int
  }

  /** The month field `%m` matches: `1[0-2]`, `0[1-9]` or `[1-9]`. */
  function ParseMonthField(f: string): (r: Option<int>)
    ensures r.Some? ==> 1 <= r.value <= 12
  {
    if |f| == 2 && f[0] == '1' && '0' <= f[1] <= '2' then Some(10 + DigitValue(f[1]))
    else if |f| == 2 && f[0] == '0' && '1' <= f[1] <= '9' then Some(DigitValue(f[1]))
    else if |f| == 1 && '1' <= f[0] <= '9' then Some(DigitValue(f[0]))
    else None
  }

  /** The day field `%d` matches: `3[01]`, `[12][0-9]`, `0[1-9]`, `[1-9]` or a space and `[1-9]`. */
  function ParseDayField(f: string): (r: Option<int>)
    ensures r.Some? ==> 1 <= r.value <= 31
  {
    if |f| == 2 && f[0] == '3' && '0' <= f[1] <= '1' then Some(30 + DigitValue(f[1]))
    else if |f| == 2 && '1' <= f[0] <= '2' && Text.IsDigit(f[1]) then Some(10 * DigitValue(f[0]) + DigitValue(f[1]))
    else if |f| == 2 && (f[0] == '0' || f[0] == ' ') && '1' <= f[1] <= '9' then Some(DigitValue(f[1]))
    else if |f| == 1 && '1' <= f[0] <= '9' then Some(DigitValue(f[0]))
    else None
  }

  /** `datetime.strptime(s, '%Y-%m-%d').date()`: `None` where Python raises `ValueError`
      (no match, unconverted data left over, year 0, or a day past the month's end). */
  function ParseIsoDate(s: string): (r: Option<Date>)
    ensures r.Some? ==> Valid(r.value) && 1 <= r.value.year <= 9999
  {
    if |s| < 8 || !Text.AllDigits(s[..4]) || s[4] != '-' then None
    else
      var rest := s[5..];
      var dash := if |rest| >= 3 && rest[2] == '-' then 2 else 1;
      if rest[dash] != '-' then None
      else
        var month := ParseMonthField(rest[..dash]);
        var day := ParseDayField(rest[dash + 1..]);
        var year := Text.DigitsValue(s[..4]);
        Text.DigitsValueBound(s[..4]);
        if month.None? || day.None? || year < 1 || day.value > DaysInMonth(year, month.value) then None
        else Some(Date(year, month.value, day.value))
  }

  lemma Pad2Value(n: nat)
    requires n < 100
    ensures Text.DigitsValue(Pad2(n)) == n
  {
    var s := Pad2(n);
    assert s[..1] == [Text.DigitChar(n / 10)];
    assert s[..1][..0] == [];
    assert Text.DigitsValue(s[..1]) == n / 10;
    assert Text.DigitsValue(s) == n / 10 * 10 + n % 10;
  }

  lemma Pad4Value(n: nat)
    requires n < 10000
    ensures Text.DigitsValue(Pad4(n)) == n
  {
    Text.DigitsValueAppend(Pad2(n / 100), Pad2(n % 100));
    Pad2Value(n / 100);
    Pad2Value(n % 100);
    assert Text.Pow10(2) == 100;
  }

  /** Parsing what `isoformat()` prints gives the date back. */
  lemma ParseFormatRoundTrip(d: Date)
    requires Valid(d) && 1 <= d.year <= 9999
    ensures ParseIsoDate(FormatIsoDate(d)) == Some(d)
  {
    var s := FormatIsoDate(d);
    assert s[..4] == Pad4(d.year);
    Pad4Value(d.year);
    var rest := s[5..];
    assert rest == Pad2(d.month) + "-" + Pad2(d.day);
    assert rest[..2] == Pad2(d.month);
    assert rest[3..] == Pad2(d.day);
  }
}
