// Python's list.sort and SQL's ORDER BY: a stable sort by an integer key.
module Ordering {

  ghost predicate SortedBy<T>(s: seq<T>, key: T -> int) {
    forall i, j | 0 <= i < j < |s| :: key(s[i]) <= key(s[j])
  }

  /** Places x behind every element whose key is not greater. */
  function Insert<T>(s: seq<T>, x: T, key: T -> int): (r: seq<T>)
    requires SortedBy(s, key)
    ensures SortedBy(r, key)
    ensures multiset(r) == multiset(s) + multiset{x}
  {
    if s == [] || key(s[|s| - 1]) <= key(x) then s + [x]
    else
      var front := Insert(s[..|s| - 1], x, key);
      assert s == s[..|s| - 1] + [s[|s| - 1]];
      assert forall y | y in front :: key(y) <= key(s[|s| - 1]) by {
        assert forall y | y in front :: y in multiset(front);
      }
      front + [s[|s| - 1]]
  }

  function StableSort<T>(s: seq<T>, key: T -> int): (r: seq<T>)
    ensures SortedBy(r, key)
    ensures multiset(r) == multiset(s)
  {
    if s == [] then []
    else
      assert s == s[..|s| - 1] + [s[|s| - 1]];
      Insert(StableSort(s[..|s| - 1], key), s[|s| - 1], key)
  }

  /** Sorting neither loses nor invents an element. */
  lemma SameElements<T>(s: seq<T>, r: seq<T>)
    requires multiset(s) == multiset(r)
    ensures |s| == |r|
    ensures forall x :: x in s <==> x in r
  {
    assert |multiset(s)| == |multiset(r)|;
    forall x
      ensures x in s <==> x in r
    {
      assert x in s <==> x in multiset(s);
      assert x in r <==> x in multiset(r);
    }
  }

  /** The elements with one key value, in the order in which they stand. */
  function WithKey<T>(s: seq<T>, key: T -> int, k: int): seq<T> {
    if s == [] then []
    else WithKey(s[..|s| - 1], key, k) + (if key(s[|s| - 1]) == k then [s[|s| - 1]] else [])
  }

  lemma WithKeySnoc<T>(s: seq<T>, x: T, key: T -> int, k: int)
    ensures WithKey(s + [x], key, k) == WithKey(s, key, k) + if key(x) == k then [x] else []
  {
    assert (s + [x])[..|s|] == s;
  }

  lemma {:induction false} InsertIsStable<T>(s: seq<T>, x: T, key: T -> int, k: int)
    requires SortedBy(s, key)
    ensures WithKey(Insert(s, x, key), key, k) == WithKey(s + [x], key, k)
  {
    hide WithKey;
    WithKeySnoc(s, x, key, k);
    if s != [] && key(s[|s| - 1]) > key(x) {
      var front, last := s[..|s| - 1], s[|s| - 1];
      assert s == front + [last];
      WithKeySnoc(front, last, key, k);
      InsertIsStable(front, x, key, k);
      WithKeySnoc(front, x, key, k);
      WithKeySnoc(Insert(front, x, key), last, key, k);
    }
  }

  /** Elements with equal keys keep their relative order. */
  lemma {:induction false} SortIsStable<T>(s: seq<T>, key: T -> int, k: int)
    ensures WithKey(StableSort(s, key), key, k) == WithKey(s, key, k)
  {
    if s != [] {
      var front, last := s[..|s| - 1], s[|s| - 1];
      SortIsStable(front, key, k);
      InsertIsStable(StableSort(front, key), last, key, k);
      WithKeySnoc(StableSort(front, key), last, key, k);
    }
  }

  lemma SortedFront<T>(s: seq<T>, key: T -> int)
    requires SortedBy(s, key) && s != []
    ensures SortedBy(s[..|s| - 1], key)
    ensures |s| > 1 ==> key(s[..|s| - 1][|s| - 2]) <= key(s[|s| - 1])
  {}

  lemma InsertLast<T>(s: seq<T>, x: T, key: T -> int)
    requires SortedBy(s, key) && (s != [] ==> key(s[|s| - 1]) <= key(x))
    ensures Insert(s, x, key) == s + [x]
  {}

  ghost predicate StrictlySorted<T>(s: seq<T>, key: T -> int) {
    forall i, j | 0 <= i < j < |s| :: key(s[i]) < key(s[j])
  }

  lemma LastsAreShared<T>(s: seq<T>, r: seq<T>)
    requires multiset(s) == multiset(r)
    ensures |s| == |r|
    ensures s != [] ==> s[|s| - 1] in r && r[|r| - 1] in s
  {
    SameElements(s, r);
  }

  lemma GreatestIsLast<T>(s: seq<T>, r: seq<T>, key: T -> int)
    requires StrictlySorted(s, key) && SortedBy(r, key) && s != [] && r != []
    requires s[|s| - 1] in r && r[|r| - 1] in s
    ensures s[|s| - 1] == r[|r| - 1]
    ensures StrictlySorted(s[..|s| - 1], key) && SortedBy(r[..|r| - 1], key)
  {}

  lemma WithoutLast<T>(s: seq<T>)
    requires s != []
    ensures s == s[..|s| - 1] + [s[|s| - 1]]
    ensures multiset(s[..|s| - 1]) == multiset(s) - multiset{s[|s| - 1]}
  {
    assert s == s[..|s| - 1] + [s[|s| - 1]];
  }

  /** Only one order of distinct keys is sorted. */
  lemma {:induction false} SortedIsUnique<T>(s: seq<T>, r: seq<T>, key: T -> int)
    requires StrictlySorted(s, key) && SortedBy(r, key) && multiset(s) == multiset(r)
    ensures s == r
  {
    LastsAreShared(s, r);
    if s != [] {
      GreatestIsLast(s, r, key);
      hide SortedBy, StrictlySorted;
      WithoutLast(s);
      WithoutLast(r);
      SortedIsUnique(s[..|s| - 1], r[..|r| - 1], key);
    }
  }
}
