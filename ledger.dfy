/** The transaction and budget tables of the backend as sequences of records, and
    `filter(...).aggregate(Sum('amount'))` as a filter-and-sum over them. Money is
    a whole number of cents; dates are day ordinals (see `Calendar`). */
module Ledger {
  import opened Wrappers
  import Calendar

  datatype TxType = Income | Expense

  /** A `Transaction` row: `category` is `None` when the category was deleted (SET_NULL). */
  datatype Transaction = Transaction(id: int, user: int, category: Option<int>, kind: TxType, amount: int, date: int)

  /** The category a budget refers to, as the foreign key resolves it. */
  datatype CategoryRef = CategoryRef(id: int, name: string, color: string)

  /** A `Budget` row; an overall budget normally has no category, a category budget one. */
  datatype Budget = Budget(id: int, user: int, category: Option<CategoryRef>, amount: int,
                           month: int, year: int, isOverall: bool, alertThreshold: int)

  /** The sum of the amounts of the rows `keep` selects; `0` when none is selected
      (the `or Decimal('0')` after an empty aggregate). */
  function SumWhere(txs: seq<Transaction>, keep: Transaction -> bool): int {
    if txs == [] then 0
    else SumWhere(txs[..|txs| - 1], keep) + (if keep(txs[|txs| - 1]) then txs[|txs| - 1].amount else 0)
  }

  /** Summing a table in two parts. */
  lemma {:induction false} SumWhereAppend(a: seq<Transaction>, b: seq<Transaction>, keep: Transaction -> bool)
    ensures SumWhere(a + b, keep) == SumWhere(a, keep) + SumWhere(b, keep)
  {
    if b == [] {
      assert a + b == a;
    } else {
      assert (a + b)[..|a + b| - 1] == a + b[..|b| - 1];
      SumWhereAppend(a, b[..|b| - 1], keep);
    }
  }

  /** Two filters that select the same rows give the same sum. */
  lemma {:induction false} SumWhereSameRows(txs: seq<Transaction>, p: Transaction -> bool, q: Transaction -> bool)
    requires forall i :: 0 <= i < |txs| ==> p(txs[i]) == q(txs[i])
    ensures SumWhere(txs, p) == SumWhere(txs, q)
  {
    if txs != [] {
      SumWhereSameRows(txs[..|txs| - 1], p, q);
    }
  }

  /** A filter that splits into two disjoint filters sums to the sum of the two. */
  lemma {:induction false} SumWhereDisjointUnion(txs: seq<Transaction>, p: Transaction -> bool,
                                                 q: Transaction -> bool, both: Transaction -> bool)
    requires forall i :: 0 <= i < |txs| ==> both(txs[i]) == (p(txs[i]) || q(txs[i]))
    requires forall i :: 0 <= i < |txs| ==> !(p(txs[i]) && q(txs[i]))
    ensures SumWhere(txs, both) == SumWhere(txs, p) + SumWhere(txs, q)
  {
    if txs != [] {
      SumWhereDisjointUnion(txs[..|txs| - 1], p, q, both);
    }
  }

  /** Rows of `user` and `kind` dated within `[lo, hi]` (`date__gte=lo, date__lte=hi`). */
  function InRange(user: int, kind: TxType, lo: int, hi: int): Transaction -> bool {
    (t: Transaction) => t.user == user && t.kind == kind && lo <= t.date <= hi
  }

  /** The total of `user`'s rows of `kind` in `[lo, hi]`. */
  function RangeSum(txs: seq<Transaction>, user: int, kind: TxType, lo: int, hi: int): int {
    SumWhere(txs, InRange(user, kind, lo, hi))
  }

  /** A range total splits at any day inside the range. */
  lemma RangeSumSplit(txs: seq<Transaction>, user: int, kind: TxType, lo: int, mid: int, hi: int)
    requires lo - 1 <= mid <= hi
    ensures RangeSum(txs, user, kind, lo, hi) == RangeSum(txs, user, kind, lo, mid) + RangeSum(txs, user, kind, mid + 1, hi)
  {
    SumWhereDisjointUnion(txs, InRange(user, kind, lo, mid), InRange(user, kind, mid + 1, hi), InRange(user, kind, lo, hi));
  }

  /** An empty range sums to nothing. */
  lemma {:induction false} RangeSumEmpty(txs: seq<Transaction>, user: int, kind: TxType, lo: int, hi: int)
    requires hi < lo
    ensures RangeSum(txs, user, kind, lo, hi) == 0
  {
    if txs != [] {
      RangeSumEmpty(txs[..|txs| - 1], user, kind, lo, hi);
    }
  }

  /** The row's date lies in month `m` of year `y` (`date__month=m, date__year=y`). */
  predicate InMonth(t: Transaction, y: int, m: int) {
    var d := Calendar.FromOrdinal(t.date);
    d.year == y && d.month == m
  }

  /** All of `user`'s expenses (or incomes) in a month, whatever their category. */
  function MonthKind(user: int, kind: TxType, y: int, m: int): Transaction -> bool {
    (t: Transaction) => t.user == user && t.kind == kind && InMonth(t, y, m)
  }

  /** `user`'s expenses in a month whose category is `category` (`None` selects rows with no category). */
  function CategoryMonthExpense(user: int, category: Option<int>, y: int, m: int): Transaction -> bool {
    (t: Transaction) => t.user == user && t.kind == Expense && t.category == category && InMonth(t, y, m)
  }

  /** A month's total is the total over the range from its first to its last day. */
  lemma MonthSumIsRangeSum(txs: seq<Transaction>, user: int, kind: TxType, y: int, m: int)
    requires 1 <= m <= 12
    ensures SumWhere(txs, MonthKind(user, kind, y, m))
            == RangeSum(txs, user, kind, Calendar.MonthStart(y, m), Calendar.MonthEnd(y, m))
  {
    forall i | 0 <= i < |txs|
      ensures MonthKind(user, kind, y, m)(txs[i]) == InRange(user, kind, Calendar.MonthStart(y, m), Calendar.MonthEnd(y, m))(txs[i])
    {
      Calendar.InMonthIffInRange(txs[i].date, y, m);
    }
    SumWhereSameRows(txs, MonthKind(user, kind, y, m), InRange(user, kind, Calendar.MonthStart(y, m), Calendar.MonthEnd(y, m)));
  }
}
