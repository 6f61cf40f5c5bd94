/** The library's unstable sort: its result is some permutation in order. */
module Sorting {

  ghost predicate TotalPreorder<T(!new)>(le: (T, T) -> bool) {
    && (forall x, y :: le(x, y) || le(y, x))
    && (forall x, y, z :: le(x, y) && le(y, z) ==> le(x, z))
  }

  ghost predicate SortedBy<T>(s: seq<T>, le: (T, T) -> bool) {
    forall i, j :: 0 <= i < j < |s| ==> le(s[i], s[j])
  }

  ghost predicate SortOf<T>(s: seq<T>, r: seq<T>, le: (T, T) -> bool) {
    SortedBy(r, le) && multiset(r) == multiset(s)
  }

  function Insert<T>(x: T, s: seq<T>, le: (T, T) -> bool): (r: seq<T>)
    ensures |r| == |s| + 1
    ensures multiset(r) == multiset(s) + multiset{x}
  {
    if s == [] || le(x, s[0]) then [x] + s
    else
      assert s == [s[0]] + s[1..];
      [s[0]] + Insert(x, s[1..], le)
  }

  lemma {:induction false} InsertSorted<T(!new)>(x: T, s: seq<T>, le: (T, T) -> bool)
    requires TotalPreorder(le) && SortedBy(s, le)
    ensures SortedBy(Insert(x, s, le), le)
  {
    if s == [] {
    } else if le(x, s[0]) {
      assert forall i :: 0 <= i < |s| ==> le(s[0], s[i]) || i == 0;
    } else {
      InsertSorted(x, s[1..], le);
      var r := Insert(x, s[1..], le);
      forall i | 0 <= i < |r| ensures le(s[0], r[i]) {
        assert r[i] in multiset(r);
        assert r[i] == x || r[i] in s[1..];
      }
      Cons(s[0], r, le);
    }
  }

  lemma Cons<T>(x: T, r: seq<T>, le: (T, T) -> bool)
    requires SortedBy(r, le) && forall i :: 0 <= i < |r| ==> le(x, r[i])
    ensures SortedBy([x] + r, le)
  {
  }

  function InsertionSort<T>(s: seq<T>, le: (T, T) -> bool): (r: seq<T>)
    ensures |r| == |s| && multiset(r) == multiset(s)
  {
    if s == [] then [] else
    assert s == [s[0]] + s[1..];
    Insert(s[0], InsertionSort(s[1..], le), le)
  }

  lemma {:induction false} InsertionSortSorts<T(!new)>(s: seq<T>, le: (T, T) -> bool)
    requires TotalPreorder(le)
    ensures SortOf(s, InsertionSort(s, le), le)
  {
    if s != [] {
      InsertionSortSorts(s[1..], le);
      InsertSorted(s[0], InsertionSort(s[1..], le), le);
    }
  }

  method SortSlice<T(!new)>(s: seq<T>, le: (T, T) -> bool) returns (r: seq<T>)
    requires TotalPreorder(le)
    ensures SortOf(s, r, le)
  {
    r := InsertionSort(s, le);
    InsertionSortSorts(s, le);
  }

  lemma SameElements<T>(s: seq<T>, r: seq<T>)
    requires multiset(s) == multiset(r)
    ensures |s| == |r|
    ensures forall x :: x in s <==> x in r
  {
    assert |s| == |multiset(s)| && |r| == |multiset(r)|;
    assert forall x :: x in s <==> x in multiset(s);
    assert forall x :: x in r <==> x in multiset(r);
  }

  lemma HeadFirst<T>(r: seq<T>, y: T, le: (T, T) -> bool)
    requires SortedBy(r, le) && y in r
    ensures y == r[0] || le(r[0], y)
  {
    var k :| 0 <= k < |r| && r[k] == y;
  }

  lemma TailOf<T>(r: seq<T>, le: (T, T) -> bool)
    requires r != [] && SortedBy(r, le)
    ensures multiset(r[1..]) == multiset(r) - multiset{r[0]} && SortedBy(r[1..], le)
  {
    assert r == [r[0]] + r[1..];
  }

  /** When the order is antisymmetric on its elements, a list has one sorted permutation, so the
      instability of the sort does not show. */
  lemma {:induction false} SortUnique<T(!new)>(r: seq<T>, r': seq<T>, le: (T, T) -> bool)
    requires SortedBy(r, le) && SortedBy(r', le) && multiset(r) == multiset(r')
    requires forall x, y :: x in r && y in r && le(x, y) && le(y, x) ==> x == y
    ensures r == r'
  {
    SameElements(r, r');
    if r != [] {
      HeadFirst(r, r'[0], le);
      HeadFirst(r', r[0], le);
      TailOf(r, le);
      TailOf(r', le);
      hide SortedBy;
      SortUnique(r[1..], r'[1..], le);
      assert r == [r[0]] + r[1..] && r' == [r[0]] + r'[1..];
    }
  }
}
