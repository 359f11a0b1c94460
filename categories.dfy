/** The category table and its seeding: the 19 default categories, the
    `get_or_create` insert-if-absent that the `seed_categories` command and
    `create_default_categories` run for each of them, and the list of categories a
    user sees. */
module Categories {
  import opened Wrappers
  import opened Ledger

  /** A `Category` row; `user` is `None` for a shared (default) category. */
  datatype Category = Category(id: int, user: Option<int>, name: string, kind: TxType,
                               icon: string, color: string, isDefault: bool)

  /** One entry of the defaults list. */
  datatype Default = Default(name: string, kind: TxType, icon: string, color: string)

  const Defaults: seq<Default> := [
    Default("Food & Dining", Expense, "FiCoffee", "#f97316"),
    Default("Transportation", Expense, "FiTruck", "#3b82f6"),
    Default("Shopping", Expense, "FiShoppingBag", "#ec4899"),
    Default("Entertainment", Expense, "FiFilm", "#8b5cf6"),
    Default("Bills & Utilities", Expense, "FiZap", "#eab308"),
    Default("Healthcare", Expense, "FiHeart", "#ef4444"),
    Default("Education", Expense, "FiBook", "#06b6d4"),
    Default("Personal Care", Expense, "FiUser", "#14b8a6"),
    Default("Rent & Housing", Expense, "FiHome", "#64748b"),
    Default("Travel", Expense, "FiMapPin", "#0ea5e9"),
    Default("Subscriptions", Expense, "FiCreditCard", "#a855f7"),
    Default("Other Expense", Expense, "FiTag", "#6b7280"),
    Default("Salary", Income, "FiBriefcase", "#10b981"),
    Default("Freelance", Income, "FiMonitor", "#22c55e"),
    Default("Business", Income, "FiTrendingUp", "#059669"),
    Default("Investments", Income, "FiBarChart", "#0d9488"),
    Default("Gifts", Income, "FiGift", "#f43f5e"),
    Default("Refunds", Income, "FiRefreshCw", "#84cc16"),
    Default("Other Income", Income, "FiPlus", "#6b7280")
  ]

  /** Two defaults with the same (name, type) lookup key. */
  predicate SameKey(d: Default, e: Default) {
    d.name == e.name && d.kind == e.kind
  }

  predicate DistinctKeys(ds: seq<Default>) {
    forall i, j :: 0 <= i < j < |ds| ==> !SameKey(ds[i], ds[j])
  }

  /** The defaults list has 19 entries and no lookup key twice. */
  lemma DefaultsDistinct()
    ensures |Defaults| == 19 && DistinctKeys(Defaults)
  {
    forall i, j | 0 <= i < j < |Defaults|
      ensures !SameKey(Defaults[i], Defaults[j])
    {
      assert Defaults[i].name[..2] != Defaults[j].name[..2] || Defaults[i].name[..3] != Defaults[j].name[..3]
             || Defaults[i].name != Defaults[j].name;
    }
  }

  /** The row `get_or_create(name=, type=, is_default=True)` looks for. */
  predicate Matches(c: Category, d: Default) {
    c.name == d.name && c.kind == d.kind && c.isDefault
  }

  /** How many rows the lookup finds. */
  function MatchCount(rows: seq<Category>, d: Default): nat {
    if rows == [] then 0
    else MatchCount(rows[..|rows| - 1], d) + (if Matches(rows[|rows| - 1], d) then 1 else 0)
  }

  /** The row `get_or_create` inserts: the lookup fields, the `defaults` icon and colour, no user. */
  function NewRow(d: Default, id: int): Category {
    Category(id, None, d.name, d.kind, d.icon, d.color, true)
  }

  lemma MatchCountAppend(rows: seq<Category>, d: Default, e: Default, id: int)
    ensures MatchCount(rows + [NewRow(e, id)], d) == MatchCount(rows, d) + (if SameKey(d, e) then 1 else 0)
  {
    assert (rows + [NewRow(e, id)])[..|rows|] == rows;
  }

  /** The outcome of one `get_or_create`: created, found, or `MultipleObjectsReturned`. */
  datatype Outcome = Created | Found | MultipleFound

  /** The state after seeding `ds` in order from `rows`: the table, the next id, the
      number created, and whether the run got through the whole list. */
  datatype SeedResult = SeedResult(rows: seq<Category>, nextId: int, created: nat, completed: bool)

  /** Seeding as a function of the table: insert each absent default, skip a present one,
      stop at one the lookup finds twice (the rows inserted until then stay). */
  function SeedFrom(rows: seq<Category>, nextId: int, ds: seq<Default>): SeedResult
    decreases |ds|
  {
    if ds == [] then SeedResult(rows, nextId, 0, true)
    else
      var n := MatchCount(rows, ds[0]);
      if n == 0 then
        var r := SeedFrom(rows + [NewRow(ds[0], nextId)], nextId + 1, ds[1..]);
        r.(created := r.created + 1)
      else if n == 1 then SeedFrom(rows, nextId, ds[1..])
      else SeedResult(rows, nextId, 0, false)
  }

  class CategoryTable {
    var rows: seq<Category>
    var nextId: int

    constructor(initial: seq<Category>, next: int)
      ensures rows == initial && nextId == next
    {
      rows := initial;
      nextId := next;
    }

    /** `Category.objects.get_or_create(name=, type=, is_default=True, defaults={icon, color})`. */
    method GetOrCreate(d: Default) returns (outcome: Outcome)
      modifies this
      ensures MatchCount(old(rows), d) == 0 ==>
                outcome == Created && rows == old(rows) + [NewRow(d, old(nextId))] && nextId == old(nextId) + 1
      ensures MatchCount(old(rows), d) == 1 ==> outcome == Found && rows == old(rows) && nextId == old(nextId)
      ensures MatchCount(old(rows), d) > 1 ==> outcome == MultipleFound && rows == old(rows) && nextId == old(nextId)
    {
      var n := MatchCount(rows, d);
      if n == 0 {
        rows := rows + [NewRow(d, nextId)];
        nextId := nextId + 1;
        outcome := Created;
      } else if n == 1 {
        outcome := Found;
      } else {
        outcome := MultipleFound;
      }
    }

    /** `seed_categories`' `handle`: `get_or_create` for every default, counting the
        creations; `completed` is false when a lookup raised. */
    method Seed() returns (createdCount: nat, completed: bool)
      modifies this
      ensures SeedFrom(old(rows), old(nextId), Defaults) == SeedResult(rows, nextId, createdCount, completed)
    {
      createdCount, completed := SeedEach(Defaults);
    }

    /** The loop of `handle` over a list of defaults. */
    method SeedEach(ds: seq<Default>) returns (createdCount: nat, completed: bool)
      modifies this
      ensures SeedFrom(old(rows), old(nextId), ds) == SeedResult(rows, nextId, createdCount, completed)
    {
      ghost var goal := SeedFrom(rows, nextId, ds);
      createdCount := 0;
      var i := 0;
      while i < |ds|
        invariant 0 <= i <= |ds|
        invariant SeedFrom(rows, nextId, ds[i..]).rows == goal.rows
        invariant SeedFrom(rows, nextId, ds[i..]).nextId == goal.nextId
        invariant SeedFrom(rows, nextId, ds[i..]).completed == goal.completed
        invariant createdCount + SeedFrom(rows, nextId, ds[i..]).created == goal.created
      {
        ghost var before := SeedFrom(rows, nextId, ds[i..]);
        assert ds[i..][0] == ds[i] && ds[i..][1..] == ds[i + 1..];
        var outcome := GetOrCreate(ds[i]);
        if outcome == MultipleFound {
          assert before == SeedResult(rows, nextId, 0, false);
          return createdCount, false;
        }
        if outcome == Created {
          assert before == SeedFrom(rows, nextId, ds[i + 1..]).(created := SeedFrom(rows, nextId, ds[i + 1..]).created + 1);
          createdCount := createdCount + 1;
        } else {
          assert before == SeedFrom(rows, nextId, ds[i + 1..]);
        }
        i := i + 1;
      }
      assert ds[i..] == [];
      completed := true;
    }

    /** `create_default_categories`: the same loop without the count. */
    method CreateDefaultCategories() returns (completed: bool)
      modifies this
      ensures SeedFrom(old(rows), old(nextId), Defaults).rows == rows
      ensures SeedFrom(old(rows), old(nextId), Defaults).completed == completed
    {
      var _, c := Seed();
      completed := c;
    }
  }

  /** Seeding only appends: existing rows, their icons and colours included, are untouched,
      and every appended row is a shared default category. */
  lemma {:induction false} SeedAppends(rows: seq<Category>, nextId: int, ds: seq<Default>)
    ensures var r := SeedFrom(rows, nextId, ds);
            && |r.rows| == |rows| + r.created && r.rows[..|rows|] == rows
            && r.created <= |ds|
            && forall k :: |rows| <= k < |r.rows| ==> r.rows[k].isDefault && r.rows[k].user.None?
    decreases |ds|
  {
    if ds != [] && MatchCount(rows, ds[0]) <= 1 {
      var next := if MatchCount(rows, ds[0]) == 0 then rows + [NewRow(ds[0], nextId)] else rows;
      var nextNextId := if MatchCount(rows, ds[0]) == 0 then nextId + 1 else nextId;
      SeedAppends(next, nextNextId, ds[1..]);
      var r := SeedFrom(next, nextNextId, ds[1..]);
      assert r.rows[..|next|] == next;
      assert r.rows[..|rows|] == next[..|rows|];
    }
  }

  /** Seeding never changes the lookup count of a key that is not in the list. */
  lemma {:induction false} SeedOtherKeys(rows: seq<Category>, nextId: int, ds: seq<Default>, e: Default)
    requires forall i :: 0 <= i < |ds| ==> !SameKey(e, ds[i])
    ensures MatchCount(SeedFrom(rows, nextId, ds).rows, e) == MatchCount(rows, e)
    decreases |ds|
  {
    if ds != [] && MatchCount(rows, ds[0]) <= 1 {
      if MatchCount(rows, ds[0]) == 0 {
        MatchCountAppend(rows, e, ds[0], nextId);
        SeedOtherKeys(rows + [NewRow(ds[0], nextId)], nextId + 1, ds[1..], e);
      } else {
        SeedOtherKeys(rows, nextId, ds[1..], e);
      }
    }
  }

  /** With distinct keys: a run completes exactly when no key is found twice beforehand,
      and after a completed run every key is found exactly once. */
  lemma {:induction false} SeedCompletes(rows: seq<Category>, nextId: int, ds: seq<Default>)
    requires DistinctKeys(ds)
    ensures SeedFrom(rows, nextId, ds).completed <==> forall i :: 0 <= i < |ds| ==> MatchCount(rows, ds[i]) <= 1
    ensures SeedFrom(rows, nextId, ds).completed ==>
              forall i :: 0 <= i < |ds| ==> MatchCount(SeedFrom(rows, nextId, ds).rows, ds[i]) == 1
    decreases |ds|
  {
    if ds != [] {
      var d := ds[0];
      var rest := ds[1..];
      assert DistinctKeys(rest) by {
        forall i, j | 0 <= i < j < |rest|
          ensures !SameKey(rest[i], rest[j])
        {
          assert rest[i] == ds[i + 1] && rest[j] == ds[j + 1];
        }
      }
      assert forall i :: 0 <= i < |rest| ==> !SameKey(d, rest[i]) by {
        forall i | 0 <= i < |rest|
          ensures !SameKey(d, rest[i])
        {
          assert rest[i] == ds[i + 1];
        }
      }
      var n := MatchCount(rows, d);
      if n <= 1 {
        var next := if n == 0 then rows + [NewRow(d, nextId)] else rows;
        var nextNextId := if n == 0 then nextId + 1 else nextId;
        assert SeedFrom(rows, nextId, ds).rows == SeedFrom(next, nextNextId, rest).rows;
        assert SeedFrom(rows, nextId, ds).completed == SeedFrom(next, nextNextId, rest).completed;
        SeedCompletes(next, nextNextId, rest);
        forall i | 0 <= i < |rest|
          ensures MatchCount(next, rest[i]) == MatchCount(rows, rest[i])
        {
          if n == 0 {
            MatchCountAppend(rows, rest[i], d, nextId);
          }
        }
        if n == 0 {
          MatchCountAppend(rows, d, d, nextId);
        }
        SeedOtherKeys(next, nextNextId, rest, d);
        forall i | 0 <= i < |ds|
          ensures MatchCount(rows, ds[i]) <= 1 <==> (i == 0 || MatchCount(next, rest[i - 1]) <= 1)
        {
          if i > 0 {
            assert ds[i] == rest[i - 1];
          }
        }
        if SeedFrom(rows, nextId, ds).completed {
          forall i | 0 <= i < |ds|
            ensures MatchCount(SeedFrom(rows, nextId, ds).rows, ds[i]) == 1
          {
            if i > 0 {
              assert ds[i] == rest[i - 1];
            }
          }
        }
      }
    }
  }

  /** How many keys of `ds` the lookup does not find in `rows`. */
  function CountAbsent(rows: seq<Category>, ds: seq<Default>): (n: nat)
    ensures n <= |ds|
  {
    if ds == [] then 0
    else (if MatchCount(rows, ds[0]) == 0 then 1 else 0) + CountAbsent(rows, ds[1..])
  }

  lemma {:induction false} CountAbsentOther(rows: seq<Category>, d: Default, id: int, ds: seq<Default>)
    requires forall i :: 0 <= i < |ds| ==> !SameKey(ds[i], d)
    ensures CountAbsent(rows + [NewRow(d, id)], ds) == CountAbsent(rows, ds)
  {
    if ds != [] {
      MatchCountAppend(rows, ds[0], d, id);
      CountAbsentOther(rows, d, id, ds[1..]);
    }
  }

  /** A completed run creates exactly as many rows as there were keys absent before it. */
  lemma {:induction false} SeedCount(rows: seq<Category>, nextId: int, ds: seq<Default>)
    requires DistinctKeys(ds)
    requires SeedFrom(rows, nextId, ds).completed
    ensures SeedFrom(rows, nextId, ds).created == CountAbsent(rows, ds)
    decreases |ds|
  {
    if ds != [] {
      var d := ds[0];
      var rest := ds[1..];
      assert DistinctKeys(rest) by {
        forall i, j | 0 <= i < j < |rest|
          ensures !SameKey(rest[i], rest[j])
        {
          assert rest[i] == ds[i + 1] && rest[j] == ds[j + 1];
        }
      }
      if MatchCount(rows, d) == 0 {
        SeedCount(rows + [NewRow(d, nextId)], nextId + 1, rest);
        forall i | 0 <= i < |rest|
          ensures !SameKey(rest[i], d)
        {
          assert rest[i] == ds[i + 1];
        }
        CountAbsentOther(rows, d, nextId, rest);
      } else {
        SeedCount(rows, nextId, rest);
      }
    }
  }

  /** A table in which every key is found exactly once is left as it is, with nothing created. */
  lemma {:induction false} SeedAllPresent(rows: seq<Category>, nextId: int, ds: seq<Default>)
    requires forall i :: 0 <= i < |ds| ==> MatchCount(rows, ds[i]) == 1
    ensures SeedFrom(rows, nextId, ds) == SeedResult(rows, nextId, 0, true)
    decreases |ds|
  {
    if ds != [] {
      assert MatchCount(rows, ds[0]) == 1;
      SeedAllPresent(rows, nextId, ds[1..]);
    }
  }

  /** Seeding is idempotent: after a completed run a second run creates nothing and
      changes nothing. */
  lemma SeedIdempotent(rows: seq<Category>, nextId: int)
    requires SeedFrom(rows, nextId, Defaults).completed
    ensures var r := SeedFrom(rows, nextId, Defaults);
            SeedFrom(r.rows, r.nextId, Defaults) == SeedResult(r.rows, r.nextId, 0, true)
  {
    DefaultsDistinct();
    SeedCompletes(rows, nextId, Defaults);
    var r := SeedFrom(rows, nextId, Defaults);
    SeedAllPresent(r.rows, r.nextId, Defaults);
  }

  /** The defaults seeding guarantees: a run over a table with no default key twice
      completes, leaves all 19 defaults present, and creates exactly the absent ones,
      at most 19. */
  lemma SeedDefaults(rows: seq<Category>, nextId: int)
    requires forall i :: 0 <= i < |Defaults| ==> MatchCount(rows, Defaults[i]) <= 1
    ensures var r := SeedFrom(rows, nextId, Defaults);
            && r.completed
            && (forall i :: 0 <= i < |Defaults| ==> MatchCount(r.rows, Defaults[i]) == 1)
            && r.created == CountAbsent(rows, Defaults) && r.created <= 19
  {
    DefaultsDistinct();
    SeedCompletes(rows, nextId, Defaults);
    SeedCount(rows, nextId, Defaults);
  }

  /** `CategoryListCreateView.get_queryset`: the default categories and the user's own. */
  function Visible(rows: seq<Category>, user: int): (r: seq<Category>)
    ensures forall c :: c in r <==> c in rows && (c.isDefault || c.user == Some(user))
    ensures |r| <= |rows|
  {
    if rows == [] then []
    else
      var c := rows[|rows| - 1];
      Visible(rows[..|rows| - 1], user) + (if c.isDefault || c.user == Some(user) then [c] else [])
  }
}
