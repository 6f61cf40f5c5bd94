/** What the front part of a list sorted by an unstable sort can depend on. */
module Cuts {
  import opened Sorting

  predicate Ties<T>(x: T, y: T, le: (T, T) -> bool) {
    le(x, y) && le(y, x)
  }

  function Map<T, U>(f: T -> U, s: seq<T>): (r: seq<U>)
    ensures |r| == |s|
  {
    seq(|s|, i requires 0 <= i < |s| => f(s[i]))
  }

  lemma {:induction false} MapMultiset<T, U>(f: T -> U, s: seq<T>, s': seq<T>)
    requires multiset(s) == multiset(s')
    ensures multiset(Map(f, s)) == multiset(Map(f, s'))
    decreases |s|
  {
    if s == [] {
      SameElements(s, s');
    } else {
      var a, b := FindFirst(s, s');
      hide Map;
      MapMultiset(f, s[1..], a + b);
      MapParts(f, a, s[0], b);
      MapParts(f, [], s[0], s[1..]);
    }
  }

  lemma MapParts<T, U>(f: T -> U, a: seq<T>, x: T, b: seq<T>)
    ensures multiset(Map(f, a + [x] + b)) == multiset(Map(f, a + b)) + multiset{f(x)}
  {
    assert Map(f, a + [x] + b) == Map(f, a) + [f(x)] + Map(f, b);
    assert Map(f, a + b) == Map(f, a) + Map(f, b);
  }

  /** The first element of a list, found in a permutation of it and taken out of both. */
  lemma FindFirst<T>(s: seq<T>, s': seq<T>) returns (a: seq<T>, b: seq<T>)
    requires multiset(s) == multiset(s') && s != []
    ensures s' == a + [s[0]] + b && multiset(s[1..]) == multiset(a + b)
    ensures s == [] + [s[0]] + s[1..] && [] + s[1..] == s[1..]
  {
    HeadParts(s);
    var j := FindIn(s, s', 0);
    a, b := s'[..j], s'[j + 1..];
    PartsOf(s', j);
    TakeOut([], s[0], s[1..]);
    TakeOut(a, s[0], b);
  }

  lemma HeadParts<T>(s: seq<T>)
    requires s != []
    ensures s == [] + [s[0]] + s[1..] && [] + s[1..] == s[1..]
  {
  }

  lemma PartsOf<T>(s: seq<T>, j: nat)
    requires j < |s|
    ensures s == s[..j] + [s[j]] + s[j + 1..]
  {
  }

  lemma FindIn<T>(s: seq<T>, s': seq<T>, i: nat) returns (j: nat)
    requires multiset(s) == multiset(s') && i < |s|
    ensures j < |s'| && s'[j] == s[i]
  {
    SameElements(s, s');
    assert s[i] in s && s[i] in s';
    j :| 0 <= j < |s'| && s'[j] == s[i];
  }

  lemma TakeOut<T>(a: seq<T>, x: T, b: seq<T>)
    ensures multiset(a + b) == multiset(a + [x] + b) - multiset{x}
  {
  }

  // ----- prefixes of sorted lists -----

  function Filter<T>(s: seq<T>, p: T -> bool): seq<T> {
    if s == [] then [] else (if p(s[0]) then [s[0]] else []) + Filter(s[1..], p)
  }

  lemma FilterCons<T>(x: T, s: seq<T>, p: T -> bool)
    ensures Filter([x] + s, p) == (if p(x) then [x] else []) + Filter(s, p)
  {
    assert ([x] + s)[1..] == s;
  }

  lemma {:induction false} FilterParts<T>(a: seq<T>, x: T, b: seq<T>, p: T -> bool)
    ensures multiset(Filter(a + [x] + b, p)) == multiset(Filter(a + b, p)) + if p(x) then multiset{x} else multiset{}
  {
    if a == [] {
      assert a + [x] + b == [x] + b && a + b == b;
      FilterCons(x, b, p);
    } else {
      var y, rest := a[0], a[1..];
      FilterParts(rest, x, b, p);
      hide Filter;
      FrontParts(a, x, b);
      FilterCons(y, rest + [x] + b, p);
      FilterCons(y, rest + b, p);
      var more := if p(x) then multiset{x} else multiset{};
      AddBehind(if p(y) then [y] else [], Filter(rest + [x] + b, p), Filter(rest + b, p), more);
    }
  }

  lemma FrontParts<T>(a: seq<T>, x: T, b: seq<T>)
    requires a != []
    ensures a + [x] + b == [a[0]] + (a[1..] + [x] + b) && a + b == [a[0]] + (a[1..] + b)
  {
  }

  lemma AddBehind<T>(u: seq<T>, s: seq<T>, t: seq<T>, more: multiset<T>)
    requires multiset(s) == multiset(t) + more
    ensures multiset(u + s) == multiset(u + t) + more
  {
  }

  lemma {:induction false} FilterSame<T>(s: seq<T>, s': seq<T>, p: T -> bool)
    requires multiset(s) == multiset(s')
    ensures multiset(Filter(s, p)) == multiset(Filter(s', p))
    decreases |s|
  {
    if s == [] {
      SameElements(s, s');
    } else {
      var a, b := FindFirst(s, s');
      hide Filter;
      FilterSame(s[1..], a + b, p);
      FilterParts(a, s[0], b, p);
      FilterParts([], s[0], s[1..], p);
    }
  }

  ghost predicate Downward<T(!new)>(p: T -> bool, le: (T, T) -> bool) {
    forall x, y :: le(x, y) && p(y) ==> p(x)
  }

  /** A downward-closed part of a sorted list is a prefix of it. */
  lemma {:induction false} FilterIsPrefix<T(!new)>(s: seq<T>, p: T -> bool, le: (T, T) -> bool)
    requires SortedBy(s, le) && Downward(p, le)
    ensures var k := |Filter(s, p)|; k <= |s| && Filter(s, p) == s[..k] && forall i :: 0 <= i < |s| ==> (i < k <==> p(s[i]))
  {
    if s != [] {
      assert SortedBy(s[1..], le);
      FilterIsPrefix(s[1..], p, le);
      var k := |Filter(s[1..], p)|;
      assert forall i :: 0 < i < |s| ==> s[i] == s[1..][i - 1] && le(s[0], s[i]);
      if p(s[0]) {
        assert s[..k + 1] == [s[0]] + s[1..][..k];
      } else {
        assert forall i :: 0 <= i < |s[1..]| ==> !p(s[1..][i]);
      }
    }
  }

  /** A downward-closed part takes the same number of places, and the same elements, in every sort. */
  lemma SamePart<T(!new)>(r: seq<T>, r': seq<T>, p: T -> bool, le: (T, T) -> bool) returns (k: nat)
    requires SortedBy(r, le) && SortOf(r, r', le) && Downward(p, le)
    ensures k <= |r| == |r'| && multiset(r[..k]) == multiset(r'[..k])
    ensures forall i :: 0 <= i < |r| ==> (i < k <==> p(r[i])) && (i < k <==> p(r'[i]))
  {
    SameElements(r, r');
    FilterSame(r, r', p);
    SameElements(Filter(r, p), Filter(r', p));
    FilterIsPrefix(r, p, le);
    FilterIsPrefix(r', p, le);
    k := |Filter(r, p)|;
  }

  /** Two sorts of a list tie place by place. */
  lemma SortsTie<T(!new)>(r: seq<T>, r': seq<T>, le: (T, T) -> bool, i: nat)
    requires TotalPreorder(le) && SortedBy(r, le) && SortOf(r, r', le) && i < |r|
    ensures |r| == |r'| && Ties(r[i], r'[i], le)
  {
    SameElements(r, r');
    Reflexive(r[i], le);
    Reflexive(r'[i], le);
    var k := SamePart(r, r', y => le(y, r[i]), le);
    var k' := SamePart(r, r', y => le(y, r'[i]), le);
  }

  lemma Reflexive<T(!new)>(x: T, le: (T, T) -> bool)
    requires TotalPreorder(le)
    ensures le(x, x)
  {
    assert le(x, x) || le(x, x);
  }

  // ----- the cut -----

  /** Two elements on different sides of the cut tie, and `f` tells them apart. */
  ghost predicate CutTie<T, U>(r: seq<T>, n: nat, le: (T, T) -> bool, f: T -> U) {
    exists i, j :: 0 <= i < n <= j < |r| && Ties(r[i], r[j], le) && f(r[i]) != f(r[j])
  }

  /** Without such a pair every sort has the same front part, as far as `f` tells. */
  lemma CutSame<T(!new), U>(r: seq<T>, r': seq<T>, n: nat, le: (T, T) -> bool, f: T -> U)
    requires TotalPreorder(le) && SortedBy(r, le) && SortOf(r, r', le) && n <= |r| && !CutTie(r, n, le, f)
    ensures |r| == |r'| && multiset(Map(f, r[..n])) == multiset(Map(f, r'[..n]))
  {
    SameElements(r, r');
    if n == |r| {
      assert r[..n] == r && r'[..n] == r';
      MapMultiset(f, r, r');
    } else {
      var x := r[n];
      var k := SamePart(r, r', y => !le(x, y), le);
      MapMultiset(f, r[..k], r'[..k]);
      Reflexive(x, le);
      assert k <= n;
      ClassAlike(r, r', n, k, le, f);
      assert r[..n] == r[..k] + r[k..n] && r'[..n] == r'[..k] + r'[k..n];
      assert Map(f, r[..n]) == Map(f, r[..k]) + Map(f, r[k..n]);
      assert Map(f, r'[..n]) == Map(f, r'[..k]) + Map(f, r'[k..n]);
    }
  }

  /** Between the strictly smaller elements and the cut both sorts have elements of one class, which
      `f` does not tell apart. */
  lemma ClassAlike<T(!new), U>(r: seq<T>, r': seq<T>, n: nat, k: nat, le: (T, T) -> bool, f: T -> U)
    requires TotalPreorder(le) && SortedBy(r, le) && SortOf(r, r', le) && k <= n < |r| == |r'| && !CutTie(r, n, le, f)
    requires forall i :: 0 <= i < |r| ==> (i < k <==> !le(r[n], r[i])) && (i < k <==> !le(r[n], r'[i]))
    ensures Map(f, r[k..n]) == Map(f, r'[k..n])
  {
    SameElements(r, r');
    forall i | k <= i < n ensures f(r[i]) == f(r'[i]) {
      assert Ties(r[i], r[n], le);
      assert f(r[i]) == f(r[n]);
      SortsTie(r, r', le, i);
      var j := FindIn(r', r, i);
      assert Ties(r[j], r[i], le);
      assert Ties(r[j], r[n], le);
    }
    assert forall i :: 0 <= i < n - k ==> r[k..n][i] == r[k + i] && r'[k..n][i] == r'[k + i];
  }

  /** With such a pair, exchanging the two is another sort with another front part. */
  lemma CutDiffers<T(!new), U>(r: seq<T>, n: nat, le: (T, T) -> bool, f: T -> U) returns (r': seq<T>)
    requires TotalPreorder(le) && SortedBy(r, le) && n <= |r| && CutTie(r, n, le, f)
    ensures SortOf(r, r', le) && |r'| == |r| && multiset(Map(f, r'[..n])) != multiset(Map(f, r[..n]))
  {
    var i, j :| 0 <= i < n <= j < |r| && Ties(r[i], r[j], le) && f(r[i]) != f(r[j]);
    r' := r[i := r[j]][j := r[i]];
    SwapKeeps(r, i, j);
    SwapSorted(r, i, j, le);
    var s := Map(f, r[..n]);
    assert Map(f, r'[..n]) == s[i := f(r[j])];
    UpdateCount(s, i, f(r[j]));
  }

  lemma SwapKeeps<T>(r: seq<T>, i: nat, j: nat)
    requires i < j < |r|
    ensures multiset(r[i := r[j]][j := r[i]]) == multiset(r)
  {
    var a, b, c := r[..i], r[i + 1..j], r[j + 1..];
    assert r == a + [r[i]] + b + [r[j]] + c;
    assert r[i := r[j]][j := r[i]] == a + [r[j]] + b + [r[i]] + c;
  }

  lemma SwapSorted<T(!new)>(r: seq<T>, i: nat, j: nat, le: (T, T) -> bool)
    requires TotalPreorder(le) && SortedBy(r, le) && i < j < |r| && Ties(r[i], r[j], le)
    ensures SortedBy(r[i := r[j]][j := r[i]], le)
  {
    var r' := r[i := r[j]][j := r[i]];
    forall a, b | 0 <= a < b < |r| ensures le(r'[a], r'[b]) {
      assert le(r[a], r[b]);
      Reflexive(r[a], le);
      Reflexive(r[b], le);
      assert le(r'[a], r[a]) && le(r[b], r'[b]);
      assert le(r'[a], r[b]);
    }
  }

  lemma UpdateCount<U>(s: seq<U>, i: nat, v: U)
    requires i < |s| && s[i] != v
    ensures multiset(s[i := v]) != multiset(s)
  {
    assert multiset(s[i := v])[v] == multiset(s)[v] + 1;
  }

  /** Every sort has the same front part, as far as `f` tells, if and only if no two elements that
      `f` tells apart tie across the cut. */
  lemma CutExactly<T(!new), U>(r: seq<T>, n: nat, le: (T, T) -> bool, f: T -> U)
    requires TotalPreorder(le) && SortedBy(r, le) && n <= |r|
    ensures (forall r' :: SortOf(r, r', le) ==> |r'| == |r| && multiset(Map(f, r'[..n])) == multiset(Map(f, r[..n])))
       <==> !CutTie(r, n, le, f)
  {
    if CutTie(r, n, le, f) {
      var r' := CutDiffers(r, n, le, f);
    } else {
      forall r' | SortOf(r, r', le) ensures |r'| == |r| && multiset(Map(f, r'[..n])) == multiset(Map(f, r[..n])) {
        CutSame(r, r', n, le, f);
      }
    }
  }
}
