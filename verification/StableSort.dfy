/** Sorting by an integer key, equal keys in their old order, as the language's own sort does it. */
module StableSort {

  ghost predicate Sorted<T>(s: seq<T>, key: T -> int) {
    forall i, j :: 0 <= i < j < |s| ==> key(s[i]) <= key(s[j])
  }

  function Insert<T(==)>(x: T, s: seq<T>, key: T -> int): (r: seq<T>)
    ensures multiset(r) == multiset{x} + multiset(s)
  {
    if s == [] || key(x) <= key(s[0]) then [x] + s
    else
      assert s == [s[0]] + s[1..];
      [s[0]] + Insert(x, s[1..], key)
  }

  function Sort<T(==)>(s: seq<T>, key: T -> int): (r: seq<T>)
    ensures multiset(r) == multiset(s)
  {
    if s == [] then []
    else
      assert s == [s[0]] + s[1..];
      Insert(s[0], Sort(s[1..], key), key)
  }

  lemma {:induction false} InsertSorts<T>(x: T, s: seq<T>, key: T -> int)
    requires Sorted(s, key)
    ensures Sorted(Insert(x, s, key), key)
  {
    if s != [] && key(x) > key(s[0]) {
      InsertSorts(x, s[1..], key);
      var r := Insert(x, s[1..], key);
      forall y | y in r ensures key(s[0]) <= key(y) {
        assert y in multiset(r);
        assert y == x || y in s[1..];
      }
    }
  }

  lemma {:induction false} SortSorts<T>(s: seq<T>, key: T -> int)
    ensures Sorted(Sort(s, key), key)
  {
    if s != [] {
      SortSorts(s[1..], key);
      InsertSorts(s[0], Sort(s[1..], key), key);
    }
  }

  /** The elements of one key, in their order. */
  function OfKey<T>(s: seq<T>, key: T -> int, k: int): seq<T> {
    if s == [] then [] else (if key(s[0]) == k then [s[0]] else []) + OfKey(s[1..], key, k)
  }

  lemma OfKeyCons<T>(x: T, s: seq<T>, key: T -> int, k: int)
    ensures OfKey([x] + s, key, k) == (if key(x) == k then [x] + OfKey(s, key, k) else OfKey(s, key, k))
  {
    assert ([x] + s)[1..] == s;
    assert [] + OfKey(s, key, k) == OfKey(s, key, k);
  }

  lemma {:induction false} InsertKeepsTies<T>(x: T, s: seq<T>, key: T -> int, k: int)
    requires Sorted(s, key)
    ensures OfKey(Insert(x, s, key), key, k) == OfKey([x] + s, key, k)
  {
    hide OfKey;
    if s != [] && key(x) > key(s[0]) {
      InsertKeepsTies(x, s[1..], key, k);
      assert s == [s[0]] + s[1..];
      OfKeyCons(s[0], Insert(x, s[1..], key), key, k);
      OfKeyCons(x, s[1..], key, k);
      OfKeyCons(s[0], s[1..], key, k);
      OfKeyCons(x, s, key, k);
    }
  }

  /** The sort is stable: elements of equal keys keep their order. */
  lemma {:induction false} SortKeepsTies<T>(s: seq<T>, key: T -> int, k: int)
    ensures OfKey(Sort(s, key), key, k) == OfKey(s, key, k)
  {
    hide OfKey, Insert;
    if s != [] {
      SortKeepsTies(s[1..], key, k);
      SortSorts(s[1..], key);
      InsertKeepsTies(s[0], Sort(s[1..], key), key, k);
      assert s == [s[0]] + s[1..];
      OfKeyCons(s[0], Sort(s[1..], key), key, k);
      OfKeyCons(s[0], s[1..], key, k);
    }
  }
}
