/** The selected-month query of the dashboard, budget and analytics views:
    Python's `int()` on a query parameter, the fallback to today's month and
    year, and stepping to the previous and next month. */
module Periods {
  import opened Wrappers
  import Text
  import Calendar

  /** Digits with single underscores allowed between two digits, as `int()` accepts them. */
  predicate DigitGroups(s: string) {
    |s| >= 1 && Text.IsDigit(s[0]) && Text.IsDigit(s[|s| - 1]) && DigitsOrUnderscores(s)
    && forall i, j :: 0 <= i < |s| && 0 <= j < |s| && j == i + 1 && s[i] == '_' ==> Text.IsDigit(s[j])
  }

  predicate DigitsOrUnderscores(s: string) {
    forall i :: 0 <= i < |s| ==> Text.IsDigit(s[i]) || s[i] == '_'
  }

  function DropUnderscores(s: string): (r: string)
    requires DigitsOrUnderscores(s)
    ensures Text.AllDigits(r)
  {
    if s == [] then []
    else (if s[0] == '_' then [] else [s[0]]) + DropUnderscores(s[1..])
  }

  /** Python's `int(s)` on a string: `None` where it raises `ValueError`. */
  function ParseInt(s: string): (r: Option<int>)
    ensures r.Some? ==> Text.Strip(s) != []
  {
    ParseStripped(Text.Strip(s))
  }

  /** `int()` after stripping the surrounding whitespace: an optional sign, then digit groups. */
  function ParseStripped(t: string): (r: Option<int>)
    ensures r.Some? ==> t != []
  {
    if t == [] then None
    else if t[0] == '-' then
      match ParseMagnitude(t[1..])
      case None => None
      case Some(n) => Some(-(n as int))
    else if t[0] == '+' then ParseMagnitude(t[1..])
    else ParseMagnitude(t)
  }

  /** The value of an unsigned run of digit groups. */
  function ParseMagnitude(body: string): (r: Option<nat>)
    ensures r.Some? ==> DigitGroups(body)
  {
    if DigitGroups(body) then Some(Text.DigitsValue(DropUnderscores(body))) else None
  }

  /** `str(n)`. */
  function IntToString(n: int): string {
    if n < 0 then "-" + Text.NatToString(-n) else Text.NatToString(n)
  }

  lemma {:induction false} DropUnderscoresOfDigits(s: string)
    requires Text.AllDigits(s)
    ensures DropUnderscores(s) == s
  {
    if s != [] {
      DropUnderscoresOfDigits(s[1..]);
      assert [s[0]] + s[1..] == s;
    }
  }

  lemma StripNumeral(s: string)
    requires |s| >= 1 && !Text.IsSpace(s[0]) && !Text.IsSpace(s[|s| - 1])
    ensures Text.Strip(s) == s
  {
  }

  /** A plain numeral is a well-formed `int()` body with no underscores to drop. */
  lemma ParseMagnitudeOfNumeral(digits: string)
    requires |digits| >= 1 && Text.AllDigits(digits)
    ensures ParseMagnitude(digits) == Some(Text.DigitsValue(digits))
  {
    DropUnderscoresOfDigits(digits);
  }

  /** `int(str(n)) == n`: the backend reads back every number the client renders. */
  lemma ParseIntRoundTrip(n: int)
    ensures ParseInt(IntToString(n)) == Some(n)
  {
    var k: nat := if n < 0 then -n else n;
    var digits := Text.NatToString(k);
    Text.NatToStringRoundTrip(k);
    ParseMagnitudeOfNumeral(digits);
    assert Text.IsDigit(digits[0]) && Text.IsDigit(digits[|digits| - 1]);
    if n < 0 {
      ParseMinus(digits);
      assert IntToString(n) == "-" + digits;
    } else {
      ParseUnsigned(digits);
      assert IntToString(n) == digits;
    }
  }

  /** An unsigned body with no space at either end parses to its magnitude. */
  lemma ParseUnsigned(t: string)
    requires |t| >= 1 && !Text.IsSpace(t[0]) && !Text.IsSpace(t[|t| - 1])
    requires t[0] != '-' && t[0] != '+' && ParseMagnitude(t).Some?
    ensures ParseInt(t) == Some(ParseMagnitude(t).value as int)
  {
    StripNumeral(t);
  }

  /** A minus sign before a body with no trailing space parses to the negated magnitude. */
  lemma ParseMinus(t: string)
    requires |t| >= 1 && !Text.IsSpace(t[|t| - 1]) && ParseMagnitude(t).Some?
    ensures ParseInt("-" + t) == Some(-(ParseMagnitude(t).value as int))
  {
    var s := "-" + t;
    assert s[0] == '-' && s[1..] == t && s[|s| - 1] == t[|t| - 1];
    StripNumeral(s);
  }

  /** The month and year a view reports on. */
  datatype MonthYear = MonthYear(month: int, year: int)

  const MinYear: int := 2020
  const MaxYear: int := 2030

  /** `int(request.query_params.get(name, default))`: an absent parameter takes the default. */
  function QueryInt(param: Option<string>, default: int): Option<int> {
    match param
    case None => Some(default)
    case Some(s) => ParseInt(s)
  }

  /** The month/year fallback of the views: a month outside 1..12 becomes today's month,
      a year outside 2020..2030 becomes today's year, and when either parameter fails to
      parse both become today's. */
  function SelectedMonth(monthParam: Option<string>, yearParam: Option<string>, today: Calendar.Date): (r: MonthYear)
    requires Calendar.Valid(today)
    ensures 1 <= r.month <= 12
    ensures MinYear <= r.year <= MaxYear || r.year == today.year
    ensures QueryInt(monthParam, today.month).None? || QueryInt(yearParam, today.year).None?
            ==> r == MonthYear(today.month, today.year)
  {
    var m := QueryInt(monthParam, today.month);
    var y := QueryInt(yearParam, today.year);
    if m.None? || y.None? then MonthYear(today.month, today.year)
    else
      MonthYear(if 1 <= m.value <= 12 then m.value else today.month,
                if MinYear <= y.value <= MaxYear then y.value else today.year)
  }

  /** A month and year in range, rendered as the client sends them, are kept as they are. */
  lemma SelectedMonthKeepsValid(m: int, y: int, today: Calendar.Date)
    requires Calendar.Valid(today)
    requires 1 <= m <= 12 && MinYear <= y <= MaxYear
    ensures SelectedMonth(Some(IntToString(m)), Some(IntToString(y)), today) == MonthYear(m, y)
  {
    ParseIntRoundTrip(m);
    ParseIntRoundTrip(y);
  }

  /** Sending back the selection a view reported selects it again. */
  lemma SelectedMonthIdempotent(monthParam: Option<string>, yearParam: Option<string>, today: Calendar.Date)
    requires Calendar.Valid(today)
    ensures var r := SelectedMonth(monthParam, yearParam, today);
            SelectedMonth(Some(IntToString(r.month)), Some(IntToString(r.year)), today) == r
  {
    var r := SelectedMonth(monthParam, yearParam, today);
    ParseIntRoundTrip(r.month);
    ParseIntRoundTrip(r.year);
  }

  /** Months counted from year 0: consecutive months differ by one. */
  function MonthIndex(p: MonthYear): int {
    p.year * 12 + p.month - 1
  }

  /** The previous month, wrapping January to December of the year before. */
  function PrevMonth(p: MonthYear): (r: MonthYear)
    requires 1 <= p.month <= 12
    ensures 1 <= r.month <= 12
    ensures MonthIndex(r) == MonthIndex(p) - 1
  {
    if p.month == 1 then MonthYear(12, p.year - 1) else MonthYear(p.month - 1, p.year)
  }

  /** The next month, wrapping December to January of the year after. */
  function NextMonth(p: MonthYear): (r: MonthYear)
    requires 1 <= p.month <= 12
    ensures 1 <= r.month <= 12
    ensures MonthIndex(r) == MonthIndex(p) + 1
  {
    if p.month == 12 then MonthYear(1, p.year + 1) else MonthYear(p.month + 1, p.year)
  }

  /** A month is determined by its index. */
  lemma MonthIndexInjective(p: MonthYear, q: MonthYear)
    requires 1 <= p.month <= 12 && 1 <= q.month <= 12
    requires MonthIndex(p) == MonthIndex(q)
    ensures p == q
  {
  }

  /** Going back a month and forward again, or forward and back, returns to the start. */
  lemma PrevNextInverse(p: MonthYear)
    requires 1 <= p.month <= 12
    ensures NextMonth(PrevMonth(p)) == p
    ensures PrevMonth(NextMonth(p)) == p
  {
    MonthIndexInjective(NextMonth(PrevMonth(p)), p);
    MonthIndexInjective(PrevMonth(NextMonth(p)), p);
  }

  /** The month `k` months before `p`, as `datetime(y, m, 1) - relativedelta(months=k)`. */
  function MonthsBefore(p: MonthYear, k: int): (r: MonthYear)
    requires 1 <= p.month <= 12
    ensures 1 <= r.month <= 12
    ensures MonthIndex(r) == MonthIndex(p) - k
  {
    var d := Calendar.AddMonths(Calendar.Date(p.year, p.month, 1), -k);
    MonthYear(d.month, d.year)
  }

  /** One month before is the previous month. */
  lemma MonthsBeforeOne(p: MonthYear)
    requires 1 <= p.month <= 12
    ensures MonthsBefore(p, 1) == PrevMonth(p)
  {
    MonthIndexInjective(MonthsBefore(p, 1), PrevMonth(p));
  }
}
