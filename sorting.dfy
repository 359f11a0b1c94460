/** Python's `list.sort(key=..., reverse=True)` and JavaScript's `sort((a, b) => key(b) - key(a))`:
    a stable sort into descending key order, on values. */
module Sorting {

  predicate SortedDesc<T>(s: seq<T>, key: T -> real) {
    forall i, j :: 0 <= i < j < |s| ==> key(s[i]) >= key(s[j])
  }

  /** Insert `x` after every element whose key is at least `x`'s, which keeps equal keys in input order. */
  function InsertDesc<T>(x: T, s: seq<T>, key: T -> real): (r: seq<T>)
    ensures multiset(r) == multiset(s) + multiset{x}
    ensures |r| == |s| + 1
  {
    if s == [] then [x]
    else if key(s[0]) >= key(x) then
      assert s == [s[0]] + s[1..];
      [s[0]] + InsertDesc(x, s[1..], key)
    else [x] + s
  }

  /** Putting an element in front of a sorted list keeps it sorted when its key is at
      least the old head's. */
  lemma SortedCons<T>(a: T, t: seq<T>, key: T -> real)
    requires SortedDesc(t, key)
    requires t != [] ==> key(a) >= key(t[0])
    ensures SortedDesc([a] + t, key)
  {
    var r := [a] + t;
    forall i, j | 0 <= i < j < |r| ensures key(r[i]) >= key(r[j]) {
      assert r[j] == t[j - 1];
      if i == 0 {
        if j > 1 { assert key(t[0]) >= key(t[j - 1]); }
      } else {
        assert r[i] == t[i - 1];
      }
    }
  }

  lemma {:induction false} InsertDescSorted<T>(x: T, s: seq<T>, key: T -> real)
    requires SortedDesc(s, key)
    ensures SortedDesc(InsertDesc(x, s, key), key)
    ensures InsertDesc(x, s, key)[0] == if s != [] && key(s[0]) >= key(x) then s[0] else x
  {
    if s == [] {
    } else if key(s[0]) >= key(x) {
      var rest := InsertDesc(x, s[1..], key);
      assert SortedDesc(s[1..], key) by {
        forall i, j | 0 <= i < j < |s[1..]| ensures key(s[1..][i]) >= key(s[1..][j]) {
          assert s[1..][i] == s[i + 1] && s[1..][j] == s[j + 1];
        }
      }
      InsertDescSorted(x, s[1..], key);
      assert key(s[0]) >= key(rest[0]) by {
        if |s| > 1 && key(s[1]) >= key(x) { assert rest[0] == s[1]; }
      }
      SortedCons(s[0], rest, key);
      assert InsertDesc(x, s, key) == [s[0]] + rest;
    } else {
      SortedCons(x, s, key);
      assert InsertDesc(x, s, key) == [x] + s;
    }
  }

  /** The stable descending sort; `SortDescStable` states the stability. */
  function SortDesc<T>(s: seq<T>, key: T -> real): (r: seq<T>)
    ensures |r| == |s|
  {
    if s == [] then [] else InsertDesc(s[|s| - 1], SortDesc(s[..|s| - 1], key), key)
  }

  /** The sort orders by descending key and only rearranges its input. */
  lemma SortDescCorrect<T>(s: seq<T>, key: T -> real)
    ensures SortedDesc(SortDesc(s, key), key)
    ensures multiset(SortDesc(s, key)) == multiset(s)
  {
    SortDescSorted(s, key);
    SortDescPermutes(s, key);
  }

  lemma {:induction false} SortDescSorted<T>(s: seq<T>, key: T -> real)
    ensures SortedDesc(SortDesc(s, key), key)
  {
    if s != [] {
      SortDescSorted(s[..|s| - 1], key);
      InsertDescSorted(s[|s| - 1], SortDesc(s[..|s| - 1], key), key);
    }
  }

  lemma {:induction false} SortDescPermutes<T>(s: seq<T>, key: T -> real)
    ensures multiset(SortDesc(s, key)) == multiset(s)
  {
    if s != [] {
      var init, x := s[..|s| - 1], s[|s| - 1];
      SortDescPermutes(init, key);
      assert s == init + [x];
      assert multiset(s) == multiset(init) + multiset{x};
    }
  }

  /** The elements of `s` whose key is `k`, in their order in `s`. */
  function WithKey<T>(s: seq<T>, key: T -> real, k: real): seq<T> {
    if s == [] then [] else (if key(s[0]) == k then [s[0]] else []) + WithKey(s[1..], key, k)
  }

  lemma {:induction false} WithKeyAppend<T>(a: seq<T>, b: seq<T>, key: T -> real, k: real)
    ensures WithKey(a + b, key, k) == WithKey(a, key, k) + WithKey(b, key, k)
  {
    if a == [] {
      assert a + b == b;
    } else {
      var h, t := if key(a[0]) == k then [a[0]] else [], a[1..];
      assert a + b == [a[0]] + (t + b);
      WithKeyCons(a[0], t + b, key, k);
      WithKeyAppend(t, b, key, k);
      assert a == [a[0]] + t;
      WithKeyCons(a[0], t, key, k);
      assert h + (WithKey(t, key, k) + WithKey(b, key, k)) == (h + WithKey(t, key, k)) + WithKey(b, key, k);
    }
  }

  lemma {:induction false} WithKeyCons<T>(a: T, t: seq<T>, key: T -> real, k: real)
    ensures WithKey([a] + t, key, k) == (if key(a) == k then [a] else []) + WithKey(t, key, k)
  {
    assert ([a] + t)[0] == a && ([a] + t)[1..] == t;
  }

  /** The tail of a descending list is descending. */
  lemma {:induction false} SortedTail<T>(s: seq<T>, key: T -> real)
    requires SortedDesc(s, key) && s != []
    ensures SortedDesc(s[1..], key)
  {
    forall i, j | 0 <= i < j < |s[1..]| ensures key(s[1..][i]) >= key(s[1..][j]) {
      assert s[1..][i] == s[i + 1] && s[1..][j] == s[j + 1];
    }
  }

  /** Nothing in a descending list whose head is below `k` has key `k`. */
  lemma {:induction false} WithKeyBelow<T>(s: seq<T>, key: T -> real, k: real)
    requires SortedDesc(s, key) && s != [] && key(s[0]) < k
    ensures WithKey(s, key, k) == []
  {
    assert s == [s[0]] + s[1..];
    WithKeyCons(s[0], s[1..], key, k);
    if |s| > 1 {
      SortedTail(s, key);
      assert s[1..][0] == s[1];
      WithKeyBelow(s[1..], key, k);
    } else {
      assert s[1..] == [];
    }
  }

  /** Inserting `x` into a descending list puts it after every element with its key. */
  lemma {:induction false} WithKeyInsert<T>(x: T, s: seq<T>, key: T -> real, k: real)
    requires SortedDesc(s, key)
    ensures WithKey(InsertDesc(x, s, key), key, k) == WithKey(s, key, k) + (if key(x) == k then [x] else [])
  {
    if s == [] {
      WithKeyCons(x, [], key, k);
      assert InsertDesc(x, s, key) == [x] + [];
    } else if key(s[0]) >= key(x) {
      SortedTail(s, key);
      WithKeyInsert(x, s[1..], key, k);
      InsertPastHead(x, s, key, k);
    } else {
      InsertAtHead(x, s, key, k);
    }
  }

  /** The step of `WithKeyInsert` where `x` goes past the head. */
  lemma InsertPastHead<T>(x: T, s: seq<T>, key: T -> real, k: real)
    requires s != [] && key(s[0]) >= key(x)
    requires WithKey(InsertDesc(x, s[1..], key), key, k) == WithKey(s[1..], key, k) + (if key(x) == k then [x] else [])
    ensures WithKey(InsertDesc(x, s, key), key, k) == WithKey(s, key, k) + (if key(x) == k then [x] else [])
  {
    var rest, t := InsertDesc(x, s[1..], key), s[1..];
    InsertDescPast(x, s, key);
    assert s == [s[0]] + t;
    ConsKeepsSuffix(s[0], rest, t, if key(x) == k then [x] else [], key, k);
  }

  /** Inserting behind the head leaves the head in front. */
  lemma InsertDescPast<T>(x: T, s: seq<T>, key: T -> real)
    requires s != [] && key(s[0]) >= key(x)
    ensures InsertDesc(x, s, key) == [s[0]] + InsertDesc(x, s[1..], key)
  {
  }

  /** Putting the same element in front of two lists whose selections differ by a suffix keeps that suffix. */
  lemma ConsKeepsSuffix<T>(a: T, rest: seq<T>, t: seq<T>, tail: seq<T>, key: T -> real, k: real)
    requires WithKey(rest, key, k) == WithKey(t, key, k) + tail
    ensures WithKey([a] + rest, key, k) == WithKey([a] + t, key, k) + tail
  {
    var head := if key(a) == k then [a] else [];
    WithKeyCons(a, rest, key, k);
    WithKeyCons(a, t, key, k);
    assert head + (WithKey(t, key, k) + tail) == (head + WithKey(t, key, k)) + tail;
  }

  /** The step of `WithKeyInsert` where `x` goes in front. */
  lemma InsertAtHead<T>(x: T, s: seq<T>, key: T -> real, k: real)
    requires SortedDesc(s, key) && s != [] && key(s[0]) < key(x)
    ensures WithKey(InsertDesc(x, s, key), key, k) == WithKey(s, key, k) + (if key(x) == k then [x] else [])
  {
    assert InsertDesc(x, s, key) == [x] + s;
    WithKeyCons(x, s, key, k);
    if key(x) == k { WithKeyBelow(s, key, k); }
  }

  /** The sort is stable: the elements of each key keep their input order. */
  lemma {:induction false} SortDescStable<T>(s: seq<T>, key: T -> real, k: real)
    ensures WithKey(SortDesc(s, key), key, k) == WithKey(s, key, k)
  {
    if s != [] {
      var init, x := s[..|s| - 1], s[|s| - 1];
      assert s == init + [x];
      SortDescStable(init, key, k);
      SortDescSorted(init, key);
      StableStep(init, x, key, k);
    }
  }

  /** Stability for every key at once. */
  lemma SortDescStableAll<T>(s: seq<T>, key: T -> real)
    ensures forall k :: WithKey(SortDesc(s, key), key, k) == WithKey(s, key, k)
  {
    forall k ensures WithKey(SortDesc(s, key), key, k) == WithKey(s, key, k) {
      SortDescStable(s, key, k);
    }
  }

  /** One step of the sort: inserting the last element keeps each key's elements in order. */
  lemma StableStep<T>(init: seq<T>, x: T, key: T -> real, k: real)
    requires SortedDesc(SortDesc(init, key), key)
    requires WithKey(SortDesc(init, key), key, k) == WithKey(init, key, k)
    ensures WithKey(InsertDesc(x, SortDesc(init, key), key), key, k) == WithKey(init + [x], key, k)
  {
    WithKeyInsert(x, SortDesc(init, key), key, k);
    WithKeyAppend(init, [x], key, k);
    assert [x][1..] == [];
  }

  /** A prefix of a sorted list is sorted and holds only elements of the list. */
  lemma SortedPrefix<T>(s: seq<T>, n: nat, key: T -> real)
    requires SortedDesc(s, key) && n <= |s|
    ensures SortedDesc(s[..n], key)
    ensures forall x :: x in s[..n] ==> x in s
  {
    assert forall i :: 0 <= i < n ==> s[..n][i] == s[i];
  }
}
