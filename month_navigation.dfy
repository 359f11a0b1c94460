/** The month picker shared by the dashboard, budget and analytics pages
    (`pages/Dashboard.jsx`, `pages/Budget.jsx`, `pages/Analytics.jsx`): the selected
    (month, year) pair, stepped back, forward, or reset to today's month. */
module MonthNavigation {
  import opened Periods

  /** A picker button press. */
  datatype Press = Prev | Next | Today

  /** The pair a press leads to from `p`. */
  function Step(p: MonthYear, today: MonthYear, press: Press): (r: MonthYear)
    requires 1 <= p.month <= 12 && 1 <= today.month <= 12
    ensures 1 <= r.month <= 12
    ensures press != Today ==> MonthIndex(r) == MonthIndex(p) + (if press == Next then 1 else -1)
  {
    match press
    case Prev => PrevMonth(p)
    case Next => NextMonth(p)
    case Today => today
  }

  /** The pair after a run of presses; however the buttons are pressed, the month
      stays in 1..12. */
  function Run(p: MonthYear, today: MonthYear, presses: seq<Press>): (r: MonthYear)
    requires 1 <= p.month <= 12 && 1 <= today.month <= 12
    ensures 1 <= r.month <= 12
  {
    if presses == [] then p
    else Step(Run(p, today, presses[..|presses| - 1]), today, presses[|presses| - 1])
  }

  function CountOf(presses: seq<Press>, press: Press): nat {
    if presses == [] then 0
    else CountOf(presses[..|presses| - 1], press) + (if presses[|presses| - 1] == press then 1 else 0)
  }

  /** Without a return to today, a run moves by the forward presses less the backward
      ones, whatever their order. */
  lemma {:induction false} RunDisplacement(p: MonthYear, today: MonthYear, presses: seq<Press>)
    requires 1 <= p.month <= 12 && 1 <= today.month <= 12
    requires forall i :: 0 <= i < |presses| ==> presses[i] != Today
    ensures MonthIndex(Run(p, today, presses)) == MonthIndex(p) + CountOf(presses, Next) - CountOf(presses, Prev)
  {
    if presses != [] {
      RunDisplacement(p, today, presses[..|presses| - 1]);
    }
  }

  /** The selected month of one page. */
  class MonthSelector {
    var selected: MonthYear
    const today: MonthYear

    predicate Valid()
      reads this
    {
      1 <= selected.month <= 12 && 1 <= today.month <= 12
    }

    /** `useState(today.getMonth() + 1)`, `useState(today.getFullYear())`. */
    constructor(today: MonthYear)
      requires 1 <= today.month <= 12
      ensures Valid() && selected == today && this.today == today && IsCurrentMonth()
    {
      selected := today;
      this.today := today;
    }

    /** `isCurrentMonth`. */
    predicate IsCurrentMonth()
      reads this
    {
      selected == today
    }

    /** `goToPrevMonth`. */
    method GoToPrevMonth()
      requires Valid()
      modifies this
      ensures Valid() && selected == Step(old(selected), today, Prev)
      ensures MonthIndex(selected) == MonthIndex(old(selected)) - 1
      ensures old(selected).month == 1 ==> selected == MonthYear(12, old(selected).year - 1)
      ensures old(selected).month != 1 ==> selected == MonthYear(old(selected).month - 1, old(selected).year)
    {
      if selected.month == 1 {
        selected := MonthYear(12, selected.year - 1);
      } else {
        selected := MonthYear(selected.month - 1, selected.year);
      }
    }

    /** `goToNextMonth`. */
    method GoToNextMonth()
      requires Valid()
      modifies this
      ensures Valid() && selected == Step(old(selected), today, Next)
      ensures MonthIndex(selected) == MonthIndex(old(selected)) + 1
      ensures old(selected).month == 12 ==> selected == MonthYear(1, old(selected).year + 1)
      ensures old(selected).month != 12 ==> selected == MonthYear(old(selected).month + 1, old(selected).year)
    {
      if selected.month == 12 {
        selected := MonthYear(1, selected.year + 1);
      } else {
        selected := MonthYear(selected.month + 1, selected.year);
      }
    }

    /** `goToCurrentMonth`. */
    method GoToCurrentMonth()
      requires Valid()
      modifies this
      ensures Valid() && selected == Step(old(selected), today, Today) && IsCurrentMonth()
    {
      selected := today;
    }
  }

  /** Back then forward, or forward then back, returns to the month shown. */
  lemma PrevNextUndo(p: MonthYear, today: MonthYear)
    requires 1 <= p.month <= 12 && 1 <= today.month <= 12
    ensures Run(p, today, [Prev, Next]) == p && Run(p, today, [Next, Prev]) == p
  {
    assert [Prev, Next][..1] == [Prev] && [Next, Prev][..1] == [Next];
    assert [Prev][..0] == [] && [Next][..0] == [];
    assert Run(p, today, [Prev]) == PrevMonth(p);
    assert Run(p, today, [Next]) == NextMonth(p);
    PrevNextInverse(p);
  }
}
