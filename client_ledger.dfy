/** The list logic of the transactions and income pages (`pages/Transactions.jsx`,
    `pages/Income.jsx`): the query parameters of the list fetch, the case-insensitive
    search, the totals, and the grouping of income by source. Amounts arrive as the
    server's decimal strings; `parse` stands for `parseFloat` and yields cents. */
module ClientLedger {
  import opened Wrappers
  import Text
  import Ledger
  import Sorting

  /** A transaction as the list endpoint returns it. */
  datatype Entry = Entry(id: nat, kind: Ledger.TxType, amount: string, description: string,
                         category: Option<nat>, categoryName: Option<string>, date: string,
                         paymentMethod: Option<string>, notes: Option<string>)

  // ---- query parameters ----

  /** The `month`/`year` part of the parameters for a `"YYYY-MM"` filter: the year is the
      text before the first `-`, the month the text after it; a missing month is an
      `undefined` parameter, which is not sent. */
  function MonthParams(filterMonth: string): (p: map<string, string>)
    ensures filterMonth == "" ==> p == map[]
    ensures filterMonth != "" ==> "year" in p && p["year"] == Text.SplitOn(filterMonth, '-')[0]
    ensures "month" in p <==> filterMonth != "" && |Text.SplitOn(filterMonth, '-')| >= 2
    ensures "month" in p ==> p["month"] == Text.SplitOn(filterMonth, '-')[1]
    ensures p.Keys <= {"month", "year"}
  {
    if filterMonth == "" then map[]
    else
      var parts := Text.SplitOn(filterMonth, '-');
      map["year" := parts[0]] + (if |parts| >= 2 then map["month" := parts[1]] else map[])
  }

  /** A month picked as `y-m` is sent as year `y` and month `m`. */
  lemma MonthParamsOfPicked(y: string, m: string)
    requires '-' !in y && '-' !in m
    ensures MonthParams(y + "-" + m) == map["year" := y, "month" := m]
  {
    Text.SplitPair(y, m, '-');
    assert y + "-" + m == y + ['-'] + m;
  }

  /** `fetchTransactions`: type and category only when their filter is set. */
  method TransactionParams(filterType: string, filterCategory: string, filterMonth: string)
    returns (params: map<string, string>)
    ensures "type" in params <==> filterType != ""
    ensures "type" in params ==> params["type"] == filterType
    ensures "category" in params <==> filterCategory != ""
    ensures "category" in params ==> params["category"] == filterCategory
    ensures forall k :: k in MonthParams(filterMonth) ==> k in params && params[k] == MonthParams(filterMonth)[k]
    ensures params.Keys == MonthParams(filterMonth).Keys + (if filterType != "" then {"type"} else {})
                           + (if filterCategory != "" then {"category"} else {})
  {
    params := map[];
    if filterType != "" {
      params := params["type" := filterType];
    }
    if filterCategory != "" {
      params := params["category" := filterCategory];
    }
    params := params + MonthParams(filterMonth);
  }

  /** `fetchIncomes`: always the income type, then the category and month filters. */
  method IncomeParams(filterCategory: string, filterMonth: string) returns (params: map<string, string>)
    ensures "type" in params && params["type"] == "income"
    ensures "category" in params <==> filterCategory != ""
    ensures "category" in params ==> params["category"] == filterCategory
    ensures forall k :: k in MonthParams(filterMonth) ==> k in params && params[k] == MonthParams(filterMonth)[k]
    ensures params.Keys == MonthParams(filterMonth).Keys + {"type"} + (if filterCategory != "" then {"category"} else {})
  {
    params := map["type" := "income"];
    if filterCategory != "" {
      params := params["category" := filterCategory];
    }
    params := params + MonthParams(filterMonth);
  }

  // ---- search ----

  /** The search test: the description, or a non-empty category name, contains the
      query, both lower-cased. */
  predicate MatchesSearch(e: Entry, query: string) {
    Text.Contains(Text.Lower(e.description), Text.Lower(query))
    || (Text.Truthy(e.categoryName) && Text.Contains(Text.Lower(e.categoryName.value), Text.Lower(query)))
  }

  /** `r` is `s` with some elements left out and the rest in their order. */
  predicate Subsequence<T(==)>(r: seq<T>, s: seq<T>)
    decreases |s|
  {
    if r == [] then true
    else if s == [] then false
    else (r[0] == s[0] && Subsequence(r[1..], s[1..])) || Subsequence(r, s[1..])
  }

  /** `filteredTransactions` / `filteredIncomes`: the entries that match, in list order. */
  function Filtered(es: seq<Entry>, query: string): (r: seq<Entry>)
    ensures Subsequence(r, es)
    ensures forall i :: 0 <= i < |r| ==> MatchesSearch(r[i], query)
    ensures forall e :: e in es && MatchesSearch(e, query) ==> e in r
  {
    if es == [] then []
    else if MatchesSearch(es[0], query) then [es[0]] + Filtered(es[1..], query)
    else Filtered(es[1..], query)
  }

  /** An empty search keeps every entry. */
  lemma {:induction false} EmptySearchKeepsAll(es: seq<Entry>)
    ensures Filtered(es, "") == es
  {
    if es != [] {
      Text.ContainsEmpty(Text.Lower(es[0].description));
      assert Text.Lower("") == "";
      EmptySearchKeepsAll(es[1..]);
      assert [es[0]] + es[1..] == es;
    }
  }

  /** Searching the search result again changes nothing. */
  lemma {:induction false} FilteredIdempotent(es: seq<Entry>, query: string)
    ensures Filtered(Filtered(es, query), query) == Filtered(es, query)
  {
    if es != [] {
      FilteredIdempotent(es[1..], query);
      if MatchesSearch(es[0], query) {
        var r := Filtered(es, query);
        assert r[0] == es[0] && r[1..] == Filtered(es[1..], query);
      }
    }
  }

  // ---- totals ----

  /** `reduce((sum, t) => sum + parseFloat(t.amount), 0)`. */
  function SumAmounts(es: seq<Entry>, parse: string -> int): int {
    if es == [] then 0 else SumAmounts(es[..|es| - 1], parse) + parse(es[|es| - 1].amount)
  }

  /** The same sum over the entries of one type only. */
  function KindTotal(es: seq<Entry>, kind: Ledger.TxType, parse: string -> int): int {
    if es == [] then 0
    else KindTotal(es[..|es| - 1], kind, parse) + (if es[|es| - 1].kind == kind then parse(es[|es| - 1].amount) else 0)
  }

  /** Every entry is income or expense, so the two totals share out the whole sum, and
      the net balance shown is the whole sum less twice the expenses. */
  lemma {:induction false} TotalsPartition(es: seq<Entry>, parse: string -> int)
    ensures KindTotal(es, Ledger.Income, parse) + KindTotal(es, Ledger.Expense, parse) == SumAmounts(es, parse)
  {
    if es != [] {
      TotalsPartition(es[..|es| - 1], parse);
    }
  }

  /** Totals over a list in two parts. */
  lemma {:induction false} KindTotalAppend(a: seq<Entry>, b: seq<Entry>, kind: Ledger.TxType, parse: string -> int)
    ensures KindTotal(a + b, kind, parse) == KindTotal(a, kind, parse) + KindTotal(b, kind, parse)
  {
    if b == [] {
      assert a + b == a;
    } else {
      assert (a + b)[..|a + b| - 1] == a + b[..|b| - 1];
      KindTotalAppend(a, b[..|b| - 1], kind, parse);
    }
  }

  /** A list holding only entries of one type totals its whole sum under that type and
      nothing under the other: the income page's total is an income total. */
  lemma {:induction false} KindTotalOfOneKind(es: seq<Entry>, kind: Ledger.TxType, parse: string -> int)
    requires forall i :: 0 <= i < |es| ==> es[i].kind == kind
    ensures KindTotal(es, kind, parse) == SumAmounts(es, parse)
  {
    if es != [] {
      KindTotalOfOneKind(es[..|es| - 1], kind, parse);
    }
  }

  // ---- income by source ----

  /** The group an income belongs to: its category name, or `Other`. */
  function SourceOf(e: Entry): string {
    if Text.Truthy(e.categoryName) then e.categoryName.value else "Other"
  }

  /** A JavaScript object's entries in insertion order. */
  type Groups = seq<(string, int)>

  predicate DistinctKeys(g: Groups) {
    forall i, j :: 0 <= i < j < |g| ==> g[i].0 != g[j].0
  }

  function SumValues(g: Groups): int {
    if g == [] then 0 else SumValues(g[..|g| - 1]) + g[|g| - 1].1
  }

  /** Where `key` sits among the groups, if anywhere. */
  function IndexOfKey(g: Groups, key: string): (r: Option<nat>)
    ensures r.None? <==> forall i :: 0 <= i < |g| ==> g[i].0 != key
    ensures r.Some? ==> r.value < |g| && g[r.value].0 == key
                        && forall i :: 0 <= i < r.value ==> g[i].0 != key
  {
    if g == [] then None
    else if g[0].0 == key then Some(0)
    else match IndexOfKey(g[1..], key)
         case None => None
         case Some(j) => Some(j + 1)
  }

  /** `acc[source] = (acc[source] || 0) + amount`. */
  function AddTo(g: Groups, key: string, v: int): Groups {
    match IndexOfKey(g, key)
    case Some(j) => g[j := (key, g[j].1 + v)]
    case None => g + [(key, v)]
  }

  /** The grouping `reduce` builds, entry by entry. */
  function BySource(es: seq<Entry>, parse: string -> int): Groups {
    if es == [] then [] else AddTo(BySource(es[..|es| - 1], parse), SourceOf(es[|es| - 1]), parse(es[|es| - 1].amount))
  }

  /** `incomeBySource`: the reduce over the filtered incomes, updating the accumulator
      in place. */
  method IncomeBySource(es: seq<Entry>, parse: string -> int) returns (acc: Groups)
    ensures acc == BySource(es, parse)
  {
    acc := [];
    for i := 0 to |es|
      invariant acc == BySource(es[..i], parse)
    {
      BySourceStep(es, i, parse);
      acc := AddAmount(acc, SourceOf(es[i]), parse(es[i].amount));
    }
    assert es[..|es|] == es;
  }

  /** `acc[source] = (acc[source] || 0) + amount` on the accumulator. */
  method AddAmount(g: Groups, key: string, v: int) returns (r: Groups)
    ensures r == AddTo(g, key, v)
  {
    var j := FindKey(g, key);
    if j < |g| {
      r := g[j := (key, g[j].1 + v)];
    } else {
      r := g + [(key, v)];
    }
  }

  /** One more entry adds its amount to its source's group. */
  lemma BySourceStep(es: seq<Entry>, i: nat, parse: string -> int)
    requires i < |es|
    ensures BySource(es[..i + 1], parse) == AddTo(BySource(es[..i], parse), SourceOf(es[i]), parse(es[i].amount))
  {
    assert es[..i + 1][..i] == es[..i];
  }

  /** The property lookup `acc[source]`: the position of the key, or `|g|` when it is absent. */
  method FindKey(g: Groups, key: string) returns (j: nat)
    ensures j <= |g|
    ensures IndexOfKey(g, key) == if j < |g| then Some(j) else None
  {
    j := 0;
    while j < |g| && g[j].0 != key
      invariant j <= |g|
      invariant forall k :: 0 <= k < j ==> g[k].0 != key
    {
      j := j + 1;
    }
  }

  lemma {:induction false} SumValuesUpdate(g: Groups, j: nat, key: string, v: int)
    requires j < |g|
    ensures SumValues(g[j := (key, g[j].1 + v)]) == SumValues(g) + v
  {
    var h := g[j := (key, g[j].1 + v)];
    if j < |g| - 1 {
      assert h[..|h| - 1] == g[..|g| - 1][j := (key, g[j].1 + v)];
      SumValuesUpdate(g[..|g| - 1], j, key, v);
    } else {
      assert h[..|h| - 1] == g[..|g| - 1];
    }
  }

  lemma AddToSum(g: Groups, key: string, v: int)
    ensures SumValues(AddTo(g, key, v)) == SumValues(g) + v
  {
    match IndexOfKey(g, key)
    case Some(j) => SumValuesUpdate(g, j, key, v);
    case None => assert (g + [(key, v)])[..|g|] == g;
  }

  /** The groups' amounts add up to the page's total income. */
  lemma {:induction false} BySourceTotal(es: seq<Entry>, parse: string -> int)
    ensures SumValues(BySource(es, parse)) == SumAmounts(es, parse)
  {
    if es != [] {
      BySourceTotal(es[..|es| - 1], parse);
      AddToSum(BySource(es[..|es| - 1], parse), SourceOf(es[|es| - 1]), parse(es[|es| - 1].amount));
    }
  }

  function KeySet(g: Groups): set<string> {
    set p | p in g :: p.0
  }

  function SourceSet(es: seq<Entry>): set<string> {
    set e | e in es :: SourceOf(e)
  }

  lemma AddToKeys(g: Groups, key: string, v: int)
    requires DistinctKeys(g)
    ensures DistinctKeys(AddTo(g, key, v))
    ensures KeySet(AddTo(g, key, v)) == KeySet(g) + {key}
  {
    var h := AddTo(g, key, v);
    match IndexOfKey(g, key)
    case Some(j) =>
      assert forall i :: 0 <= i < |h| ==> h[i].0 == g[i].0;
      forall k | k in KeySet(h) ensures k in KeySet(g) {
        var p :| p in h && p.0 == k;
        var i :| 0 <= i < |h| && h[i] == p;
        assert g[i] in g;
      }
      forall k | k in KeySet(g) ensures k in KeySet(h) {
        var p :| p in g && p.0 == k;
        var i :| 0 <= i < |g| && g[i] == p;
        assert h[i] in h;
      }
    case None =>
      assert forall i :: 0 <= i < |g| ==> h[i] == g[i];
      assert h[|g|] in h;
  }

  /** Each source appears once, and the sources are exactly those of the entries. */
  lemma {:induction false} BySourceKeys(es: seq<Entry>, parse: string -> int)
    ensures DistinctKeys(BySource(es, parse))
    ensures KeySet(BySource(es, parse)) == SourceSet(es)
  {
    if es != [] {
      var prefix := es[..|es| - 1];
      BySourceKeys(prefix, parse);
      AddToKeys(BySource(prefix, parse), SourceOf(es[|es| - 1]), parse(es[|es| - 1].amount));
      assert es == prefix + [es[|es| - 1]];
      assert SourceSet(es) == SourceSet(prefix) + {SourceOf(es[|es| - 1])};
    }
  }

  function GroupAmount(p: (string, int)): real {
    p.1 as real
  }

  /** `topSources`: the groups by descending amount, at most four. */
  function TopSources(g: Groups): (r: Groups)
    ensures |r| == if |g| < 4 then |g| else 4
    ensures Sorting.SortedDesc(r, GroupAmount)
    ensures forall p :: p in r ==> p in g
  {
    var sorted := Sorting.SortDesc(g, GroupAmount);
    Sorting.SortDescCorrect(g, GroupAmount);
    var n := if |g| < 4 then |g| else 4;
    Sorting.SortedPrefix(sorted, n, GroupAmount);
    assert forall p :: p in sorted ==> p in multiset(g);
    sorted[..n]
  }

  /** A group left out of the top four has no more than any group shown. */
  lemma TopSourcesAreLargest(g: Groups, p: (string, int))
    requires p in g && p !in TopSources(g)
    ensures forall q :: q in TopSources(g) ==> q.1 >= p.1
  {
    var sorted := Sorting.SortDesc(g, GroupAmount);
    Sorting.SortDescCorrect(g, GroupAmount);
    assert p in multiset(sorted);
    var k :| 0 <= k < |sorted| && sorted[k] == p;
    var r := TopSources(g);
    assert r == sorted[..|r|];
    assert k >= |r|;
    forall q | q in r ensures q.1 >= p.1 {
      var i :| 0 <= i < |r| && r[i] == q;
      assert GroupAmount(sorted[i]) >= GroupAmount(sorted[k]);
    }
  }
}
