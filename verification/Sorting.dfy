/** The stable sort that the language gives every list. */
module Sorting {
  import opened Prelude

  predicate SortedBy<T>(key: T -> int, s: seq<T>) {
    forall i, j :: 0 <= i < j < |s| ==> key(s[i]) <= key(s[j])
  }

  function Insert<T(!new)>(key: T -> int, x: T, s: seq<T>): (r: seq<T>)
    requires SortedBy(key, s)
    ensures SortedBy(key, r)
    ensures forall y :: y in r <==> y == x || y in s
  {
    if s == [] || key(x) <= key(s[0]) then [x] + s
    else
      assert s == [s[0]] + s[1..];
      var rest := Insert(key, x, s[1..]);
      assert forall y :: y in rest ==> key(s[0]) <= key(y);
      [s[0]] + rest
  }

  /** Stable sort by an increasing key: equal keys keep their order. */
  function SortBy<T(!new)>(key: T -> int, s: seq<T>): (r: seq<T>)
    ensures SortedBy(key, r)
    ensures forall y :: y in r <==> y in s
  {
    if s == [] then []
    else
      assert s == [s[0]] + s[1..];
      Insert(key, s[0], SortBy(key, s[1..]))
  }

  /** The elements of one key, in order. */
  function OfKey<T(!new)>(key: T -> int, k: int, s: seq<T>): seq<T> {
    Filter((y: T) => key(y) == k, s)
  }

  lemma FilterCons<T(!new)>(p: T -> bool, x: T, s: seq<T>)
    ensures Filter(p, [x] + s) == if p(x) then [x] + Filter(p, s) else Filter(p, s)
  {
    assert ([x] + s)[1..] == s;
  }

  lemma {:induction false} InsertStable<T(!new)>(key: T -> int, x: T, s: seq<T>, k: int)
    requires SortedBy(key, s)
    ensures var p := (y: T) => key(y) == k; Filter(p, Insert(key, x, s)) == Filter(p, [x] + s)
  {
    var p := (y: T) => key(y) == k;
    if s != [] && key(x) > key(s[0]) {
      var rest := s[1..];
      InsertStable(key, x, rest, k);
      FilterCons(p, x, rest);
      FilterCons(p, x, s);
      FilterCons(p, s[0], rest);
      FilterCons(p, s[0], Insert(key, x, rest));
      assert s == [s[0]] + rest && Insert(key, x, s) == [s[0]] + Insert(key, x, rest);
      hide Insert, Filter, SortedBy;
    }
  }

  /** Elements of equal key keep the order they had. */
  lemma {:induction false} SortStable<T(!new)>(key: T -> int, s: seq<T>, k: int)
    ensures OfKey(key, k, SortBy(key, s)) == OfKey(key, k, s)
  {
    var p := (y: T) => key(y) == k;
    if s != [] {
      SortStable(key, s[1..], k);
      InsertStable(key, s[0], SortBy(key, s[1..]), k);
      assert ([s[0]] + SortBy(key, s[1..]))[1..] == SortBy(key, s[1..]);
      assert [s[0]] + s[1..] == s;
    }
  }

  /** Sorting a sorted list leaves it as it is. */
  lemma {:induction false} SortSorted<T(!new)>(key: T -> int, s: seq<T>)
    requires SortedBy(key, s)
    ensures SortBy(key, s) == s
  {
    if s != [] {
      SortSorted(key, s[1..]);
      assert s == [s[0]] + s[1..];
    }
  }

  lemma {:induction false} InsertCount<T(!new)>(key: T -> int, x: T, s: seq<T>)
    requires SortedBy(key, s)
    ensures multiset(Insert(key, x, s)) == multiset{x} + multiset(s)
  {
    if s != [] && key(x) > key(s[0]) {
      InsertCount(key, x, s[1..]);
      assert s == [s[0]] + s[1..];
    }
  }

  /** Sorting only reorders. */
  lemma {:induction false} SortCount<T(!new)>(key: T -> int, s: seq<T>)
    ensures multiset(SortBy(key, s)) == multiset(s)
  {
    if s != [] {
      SortCount(key, s[1..]);
      InsertCount(key, s[0], SortBy(key, s[1..]));
      assert s == [s[0]] + s[1..];
    }
  }
}
