/** The malicious-flow index: time windows per flow key, merged in place, queried by binary search. */
module Windows {
  import Sorting

  datatype Window = Window(start: int, end: int)

  /** Instants are modelled as reals so that touching and merely adjacent windows differ. */
  ghost predicate Holds(w: Window, t: real) {
    w.start as real <= t <= w.end as real
  }

  ghost predicate Covers(s: seq<Window>, t: real) {
    exists w :: w in s && Holds(w, t)
  }

  predicate StartsNoLater(v: Window, w: Window) {
    v.start <= w.start
  }

  ghost predicate Sorted(s: seq<Window>) {
    Sorting.SortedBy(s, StartsNoLater)
  }

  ghost predicate SortOf(wins: seq<Window>, s: seq<Window>) {
    Sorting.SortOf(wins, s, StartsNoLater)
  }

  /** The library sort on a slice: some permutation in order of start; callers rely on nothing else. */
  method SortSlice(a: array<Window>)
    modifies a
    ensures SortOf(old(a[..]), a[..])
  {
    var s := Sorting.SortSlice(a[..], StartsNoLater);
    Sorting.SameElements(a[..], s);
    for i := 0 to a.Length
      invariant a[..i] == s[..i]
    {
      a[i] := s[i];
    }
    assert a[..] == s;
  }

  // ----- merging -----

  /** One step of the merge: extend the last window, or start a new one. */
  function Absorb(m: seq<Window>, w: Window): seq<Window> {
    if |m| > 0 && w.start <= m[|m| - 1].end then
      var last := m[|m| - 1];
      m[|m| - 1 := Window(last.start, if w.end > last.end then w.end else last.end)]
    else m + [w]
  }

  function Merge(s: seq<Window>): seq<Window> {
    if s == [] then [] else Absorb(Merge(s[..|s| - 1]), s[|s| - 1])
  }

  lemma MergeStep(s: seq<Window>, i: nat)
    requires i < |s|
    ensures Merge(s[..0]) == []
    ensures Merge(s[..i + 1]) == Absorb(Merge(s[..i]), s[i])
  {
    assert s[..i + 1][..i] == s[..i];
  }

  /** Sorting and merging in place: the merged prefix overwrites the array it is read from, and
      the write position never passes the read position. */
  method MergeWindows(wins: array<Window>) returns (n: nat, ghost sorted: seq<Window>)
    modifies wins
    ensures n <= wins.Length
    ensures SortOf(old(wins[..]), sorted) && wins[..n] == Merge(sorted)
  {
    SortSlice(wins);
    sorted := wins[..];
    n := 0;
    assert Merge(sorted[..0]) == [];
    hide SortOf, Merge, Absorb;
    for i := 0 to wins.Length
      invariant n <= i
      invariant wins[i..] == sorted[i..]
      invariant wins[..n] == Merge(sorted[..i])
    {
      MergeStep(sorted, i);
      assert wins[i] == wins[i..][0] == sorted[i];
      assert wins[i..][1..] == wins[i + 1..] && sorted[i..][1..] == sorted[i + 1..];
      n := MergeOne(wins, n, i);
    }
    assert sorted[..|sorted|] == sorted;
  }

  /** The loop body: window `i` is absorbed into the merged prefix, which never passes it. */
  method MergeOne(wins: array<Window>, merged: nat, i: nat) returns (n: nat)
    requires merged <= i < wins.Length
    modifies wins
    ensures n <= i + 1 && wins[..n] == Absorb(old(wins[..merged]), old(wins[i]))
    ensures wins[i + 1..] == old(wins[i + 1..])
  {
    n := merged;
    var w := wins[i];
    if n > 0 && w.start <= wins[n - 1].end {
      if w.end > wins[n - 1].end {
        wins[n - 1] := Window(wins[n - 1].start, w.end);
      }
    } else {
      wins[n] := w;
      n := n + 1;
    }
  }

  ghost predicate Separated(m: seq<Window>) {
    forall i, j :: 0 <= i < j < |m| ==> m[i].end < m[j].start
  }

  ghost predicate AtLeast(s: seq<Window>, gap: int) {
    forall w :: w in s ==> w.start <= w.end + gap
  }

  ghost predicate EndsAscend(m: seq<Window>) {
    forall i, j :: 0 <= i < j < |m| ==> m[i].end <= m[j].end
  }

  ghost predicate EndsIncrease(m: seq<Window>) {
    forall i, j :: 0 <= i < j < |m| ==> m[i].end < m[j].end
  }

  /** Merging a sorted list keeps exactly the covered instants, whatever the windows are. */
  lemma {:induction false} MergeCovers(s: seq<Window>, t: real)
    requires Sorted(s)
    ensures Covers(Merge(s), t) <==> Covers(s, t)
  {
    if s != [] {
      var front, w := s[..|s| - 1], s[|s| - 1];
      MergeCovers(front, t);
      MergeStarts(front);
      AbsorbCovers(Merge(front), w, t);
      assert s == front + [w];
    }
  }

  /** The windows a merge produces start where an input window starts. */
  lemma {:induction false} MergeStarts(s: seq<Window>)
    ensures forall m :: m in Merge(s) ==> exists w :: w in s && w.start == m.start
  {
    if s != [] {
      var front := s[..|s| - 1];
      MergeStarts(front);
      forall m | m in Merge(s) ensures exists w :: w in s && w.start == m.start {
        if m == s[|s| - 1] {
        } else {
          var k :| 0 <= k < |Merge(s)| && Merge(s)[k] == m;
          assert k < |Merge(front)| && Merge(front)[k].start == m.start && Merge(front)[k] in Merge(front);
          var w :| w in front && w.start == m.start;
          assert w in s;
        }
      }
    }
  }

  lemma AbsorbCovers(m: seq<Window>, w: Window, t: real)
    requires forall x :: x in m ==> x.start <= w.start
    ensures Covers(Absorb(m, w), t) <==> Covers(m, t) || Holds(w, t)
  {
    var a := Absorb(m, w);
    if |m| > 0 && w.start <= m[|m| - 1].end {
      var last := m[|m| - 1];
      assert last in m && a[|a| - 1] in a;
      assert Holds(a[|a| - 1], t) <==> Holds(last, t) || Holds(w, t);
      assert forall x :: x in m && x != last ==> x in a by {
        forall x | x in m && x != last ensures x in a {
          var k :| 0 <= k < |m| && m[k] == x;
          assert a[k] == x;
        }
      }
      assert forall x :: x in a ==> x in m || x == a[|a| - 1];
    } else {
      assert a == m + [w];
    }
  }

  /** The shape of a merged list: strictly separated, ends in order. */
  ghost predicate Tidy(m: seq<Window>, gap: int) {
    Separated(m) && AtLeast(m, gap) && EndsAscend(m)
  }

  lemma TidySnoc(m: seq<Window>, w: Window, gap: int)
    requires Tidy(m, gap) && 0 <= gap <= 1 && w.start <= w.end + gap
    requires |m| > 0 ==> m[|m| - 1].end < w.start
    ensures Tidy(m + [w], gap)
  {
    var a := m + [w];
    assert forall k :: 0 <= k < |m| ==> a[k] == m[k] && m[k].end <= m[|m| - 1].end;
  }

  lemma TidyExtend(m: seq<Window>, end: int, gap: int)
    requires Tidy(m, gap) && 0 <= gap <= 1 && |m| > 0 && end >= m[|m| - 1].end
    ensures Tidy(m[|m| - 1 := Window(m[|m| - 1].start, end)], gap)
  {
    var a := m[|m| - 1 := Window(m[|m| - 1].start, end)];
    assert m[|m| - 1] in m;
    assert forall k :: 0 <= k < |m| - 1 ==> a[k] == m[k] && m[k] in m;
  }

  /** A merged list is strictly separated, with ends in order. */
  lemma {:induction false} MergeTidy(s: seq<Window>, gap: int)
    requires Sorted(s) && AtLeast(s, gap) && 0 <= gap <= 1
    ensures Tidy(Merge(s), gap)
  {
    if s != [] {
      var front, w := s[..|s| - 1], s[|s| - 1];
      assert AtLeast(front, gap);
      MergeTidy(front, gap);
      var m := Merge(front);
      assert w in s;
      if |m| > 0 && w.start <= m[|m| - 1].end {
        TidyExtend(m, if w.end > m[|m| - 1].end then w.end else m[|m| - 1].end, gap);
      } else {
        TidySnoc(m, w, gap);
      }
    }
  }

  /** Merged windows are strictly separated; when none ends before it starts, their ends strictly
      increase. */
  lemma MergeShape(s: seq<Window>, gap: int)
    requires Sorted(s) && AtLeast(s, gap) && 0 <= gap <= 1
    ensures Tidy(Merge(s), gap)
    ensures gap == 0 ==> EndsIncrease(Merge(s))
  {
    MergeTidy(s, gap);
    hide Merge;
    if gap == 0 {
      TidyIncreases(Merge(s));
    }
  }

  lemma TidyIncreases(m: seq<Window>)
    requires Tidy(m, 0)
    ensures EndsIncrease(m)
  {
    assert forall i :: 0 <= i < |m| ==> m[i] in m;
  }

  // ----- queries -----

  /** The library's binary search for the first window ending at or after `t`. */
  function Search(m: seq<Window>, t: int, i: nat, j: nat): (r: nat)
    requires i <= j <= |m|
    requires i > 0 ==> m[i - 1].end < t
    requires j < |m| ==> m[j].end >= t
    ensures i <= r <= j
    ensures r > 0 ==> m[r - 1].end < t
    ensures r < |m| ==> m[r].end >= t
    decreases j - i
  {
    if i == j then i else
    var h := (i + j) / 2;
    if m[h].end >= t then Search(m, t, i, h) else Search(m, t, h + 1, j)
  }

  predicate InAnyWindow(t: int, m: seq<Window>) {
    var i := Search(m, t, 0, |m|);
    i < |m| && t >= m[i].start
  }

  lemma FoundAt(m: seq<Window>, t: int, k: nat, i: nat)
    requires Tidy(m, 1) && k < |m| && m[k].start <= t <= m[k].end && i <= |m|
    requires (i > 0 ==> m[i - 1].end < t) && (i < |m| ==> m[i].end >= t)
    ensures i == k
  {
    assert forall p, q :: 0 <= p < q < |m| ==> m[p].end < m[q].start && m[p].end <= m[q].end;
  }

  /** On ordered, separated windows the search is exact; a positive answer is right on any list. */
  lemma SearchExact(t: int, m: seq<Window>)
    ensures InAnyWindow(t, m) ==> Covers(m, t as real)
    ensures Tidy(m, 1) ==> (InAnyWindow(t, m) <==> Covers(m, t as real))
  {
    var i := Search(m, t, 0, |m|);
    hide Search, Tidy;
    if i < |m| && t >= m[i].start {
      CoversAt(m, i, t as real);
    }
    if Covers(m, t as real) && Tidy(m, 1) {
      var k := CoveringAt(m, t);
      FoundAt(m, t, k, i);
    }
  }

  lemma CoveringAt(m: seq<Window>, t: int) returns (k: nat)
    requires Covers(m, t as real)
    ensures k < |m| && m[k].start <= t <= m[k].end
  {
    var w :| w in m && Holds(w, t as real);
    k :| 0 <= k < |m| && m[k] == w;
  }

  /** The index answers a query right: yes exactly when some recorded window holds the instant.
      Every window must satisfy start <= end + 1. */
  lemma QueryExact(wins: seq<Window>, s: seq<Window>, t: int)
    requires AtLeast(wins, 1) && SortOf(wins, s)
    ensures InAnyWindow(t, Merge(s)) <==> Covers(wins, t as real)
  {
    Sorting.SameElements(wins, s);
    MergeShape(s, 1);
    MergeCovers(s, t as real);
    SearchExact(t, Merge(s));
  }

  /** Without that condition a positive answer is still right. */
  lemma QuerySound(wins: seq<Window>, s: seq<Window>, t: int)
    requires SortOf(wins, s)
    ensures InAnyWindow(t, Merge(s)) ==> Covers(wins, t as real)
  {
    Sorting.SameElements(wins, s);
    MergeCovers(s, t as real);
    SearchExact(t, Merge(s));
  }

  /** The condition cannot be weakened for any window: each window that violates it hides a
      neighbour that holds the instant just after its end. */
  lemma QueryConditionIsTight(w: Window)
    requires w.start > w.end + 1
    ensures
      var v := Window(w.end + 1, w.end + 1);
      && SortOf([v, w], [v, w]) && AtLeast([v], 0)
      && Covers([v, w], v.start as real) && !InAnyWindow(v.start, Merge([v, w]))
  {
    var v := Window(w.end + 1, w.end + 1);
    assert [v, w][..1] == [v] && [v][..0] == [];
    assert Merge([v]) == [v];
    assert Merge([v, w]) == [v, w];
    hide Merge;
    assert v in [v, w] && Holds(v, v.start as real);
    SearchPasses(v, w);
    hide Search;
  }

  /** Queries on the merge are right, for every instant. */
  ghost predicate AnswersRight(wins: seq<Window>, s: seq<Window>) {
    forall t: int :: InAnyWindow(t, Merge(s)) <==> Covers(wins, t as real)
  }

  /** `s` is a sort of good windows and `w`. */
  ghost predicate SortBeside(vs: seq<Window>, w: Window, gap: int, s: seq<Window>) {
    AtLeast(vs, gap) && SortOf(vs + [w], s)
  }

  /** A window spoils no answer beside any good windows if and only if it ends at most one unit
      before it starts. */
  lemma HarmlessExactly(w: Window)
    ensures (forall vs, s :: SortBeside(vs, w, 1, s) ==> AnswersRight(vs + [w], s)) <==> w.start <= w.end + 1
  {
    if w.start <= w.end + 1 {
      forall vs, s | SortBeside(vs, w, 1, s) ensures AnswersRight(vs + [w], s) {
        forall t: int ensures InAnyWindow(t, Merge(s)) <==> Covers(vs + [w], t as real) {
          QueryExact(vs + [w], s, t);
        }
      }
    } else {
      QueryConditionIsTight(w);
      var v := Window(w.end + 1, w.end + 1);
      hide Sorting.SortOf, Merge, InAnyWindow, Covers;
      assert [v] + [w] == [v, w];
      assert SortBeside([v], w, 1, [v, w]);
      assert !AnswersRight([v] + [w], [v, w]);
    }
  }

  lemma SearchPasses(v: Window, w: Window)
    requires w.end < v.end
    ensures Search([v, w], v.end, 0, 2) == 2
  {
    assert Search([v, w], v.end, 2, 2) == 2;
  }

  // ----- independence of the sort -----

  /** Strictly separated, non-empty windows are determined by the instants they cover. */
  lemma {:induction false} CoverDetermines(m: seq<Window>, k: seq<Window>)
    requires Tidy(m, 0) && Tidy(k, 0)
    requires forall t :: Covers(m, t) <==> Covers(k, t)
    ensures m == k
  {
    hide Tidy, Covers;
    if m == [] || k == [] {
      if m != [] { FirstCovers(m); } else if k != [] { FirstCovers(k); }
      NothingCovered();
    } else {
      TidyTail(m);
      TidyTail(k);
      FirstNoLater(m, k);
      FirstNoLater(k, m);
      FirstEndsNoLater(m, k);
      FirstEndsNoLater(k, m);
      forall t ensures Covers(m[1..], t) <==> Covers(k[1..], t) {
        CoversTail(m, t);
        CoversTail(k, t);
      }
      CoverDetermines(m[1..], k[1..]);
      assert m == [m[0]] + m[1..] && k == [k[0]] + k[1..];
    }
  }

  lemma FirstCovers(m: seq<Window>)
    requires Tidy(m, 0) && m != []
    ensures Covers(m, m[0].start as real)
  {
    assert m[0] in m;
  }

  lemma NothingCovered()
    ensures forall t: real :: !Covers([], t)
  {
  }

  lemma TidyTail(m: seq<Window>)
    requires Tidy(m, 0) && m != []
    ensures Tidy(m[1..], 0) && AtLeast(m, 0)
  {
    var r := m[1..];
    assert forall i :: 0 <= i < |r| ==> r[i] == m[i + 1];
  }

  lemma CoversAt(m: seq<Window>, i: nat, t: real)
    requires i < |m| && Holds(m[i], t)
    ensures Covers(m, t)
  {
    assert m[i] in m && Holds(m[i], t);
  }

  lemma CoversTail(m: seq<Window>, t: real)
    requires Tidy(m, 0) && m != []
    ensures Covers(m[1..], t) <==> Covers(m, t) && t > m[0].end as real
  {
    assert m[0] in m;
    if Covers(m[1..], t) {
      var w :| w in m[1..] && Holds(w, t);
      assert w in m;
    }
    if Covers(m, t) && t > m[0].end as real {
      var w :| w in m && Holds(w, t);
      assert w in m[1..];
    }
  }

  lemma FirstNoLater(m: seq<Window>, k: seq<Window>)
    requires Tidy(m, 0) && AtLeast(k, 0) && m != [] && k != []
    requires forall t :: Covers(m, t) <==> Covers(k, t)
    ensures m[0].start <= k[0].start
  {
    assert k[0] in k;
    CoversAt(k, 0, k[0].start as real);
    var w :| w in m && Holds(w, k[0].start as real);
    var i :| 0 <= i < |m| && m[i] == w;
    assert m[0] in m;
  }

  /** If `m`'s first window ended later than `k`'s, an instant in between would tell them apart. */
  lemma FirstEndsNoLater(m: seq<Window>, k: seq<Window>)
    requires Tidy(m, 0) && Tidy(k, 0) && m != [] && k != []
    requires m[0].start == k[0].start
    requires forall t :: Covers(m, t) <==> Covers(k, t)
    ensures m[0].end <= k[0].end
  {
    GapBehindFirst(k);
    if m[0].end > k[0].end {
      CoversAt(m, 0, k[0].end as real + 0.5);
    }
  }

  lemma GapBehindFirst(k: seq<Window>)
    requires Tidy(k, 0) && k != []
    ensures !Covers(k, k[0].end as real + 0.5)
  {
    forall w | w in k ensures !Holds(w, k[0].end as real + 0.5) {
      var i :| 0 <= i < |k| && k[i] == w;
      assert i > 0 ==> k[0].end < k[i].start;
    }
  }

  /** The merged list depends only on which windows were recorded and how often, not on how the
      unstable sort orders equal starts. */
  lemma MergeIgnoresTies(s: seq<Window>, s': seq<Window>)
    requires AtLeast(s, 0) && Sorted(s) && Sorted(s') && multiset(s) == multiset(s')
    ensures Merge(s) == Merge(s')
  {
    Sorting.SameElements(s, s');
    MergeShape(s, 0);
    MergeShape(s', 0);
    forall t ensures Covers(Merge(s), t) <==> Covers(Merge(s'), t) {
      MergeCovers(s, t);
      MergeCovers(s', t);
    }
    CoverDetermines(Merge(s), Merge(s'));
  }

  /** Every window with start > end has a list on which the sort's choice shows. */
  lemma TiesConditionIsTight(w: Window)
    requires w.start > w.end
    ensures
      var v := Window(w.start, w.start);
      SortOf([v, w], [w, v]) && SortOf([v, w], [v, w]) && Merge([v, w]) != Merge([w, v])
  {
    var v := Window(w.start, w.start);
    assert [v, w][..1] == [v] && [w, v][..1] == [w] && [v][..0] == [] && [w][..0] == [];
    assert Merge([v]) == [v] && Merge([w]) == [w];
    assert |Merge([v, w])| == 1 && |Merge([w, v])| == 2;
  }

  /** The order of ties cannot show beside any good windows if and only if the window does not end
      before it starts. */
  lemma TiesHiddenExactly(w: Window)
    ensures (forall vs, s, s' :: SortBeside(vs, w, 0, s) && SortBeside(vs, w, 0, s') ==> Merge(s) == Merge(s')) <==> w.start <= w.end
  {
    if w.start <= w.end {
      forall vs, s, s' | SortBeside(vs, w, 0, s) && SortBeside(vs, w, 0, s') ensures Merge(s) == Merge(s') {
        Sorting.SameElements(vs + [w], s);
        MergeIgnoresTies(s, s');
      }
    } else {
      TiesConditionIsTight(w);
      var v := Window(w.start, w.start);
      hide Sorting.SortOf, Merge;
      assert [v] + [w] == [v, w];
      assert SortBeside([v], w, 0, [v, w]) && SortBeside([v], w, 0, [w, v]);
    }
  }

  /** Merging a strictly separated list, in particular a merged one, changes nothing. */
  lemma {:induction false} MergeIdempotent(m: seq<Window>)
    requires Separated(m)
    ensures Merge(m) == m
  {
    if m != [] {
      MergeIdempotent(m[..|m| - 1]);
      assert m == m[..|m| - 1] + [m[|m| - 1]];
    }
  }
}

/** The index over flow keys: windows are recorded for both directions of a flow. */
module FlowIndex {
  import opened Windows
  import Sorting

  datatype FlowKey = FlowKey(srcIP: nat, dstIP: nat, srcPort: nat, dstPort: nat, protocol: nat)

  function Reverse(k: FlowKey): FlowKey {
    FlowKey(k.dstIP, k.srcIP, k.dstPort, k.srcPort, k.protocol)
  }

  /** One call that recorded a window for a flow. */
  datatype Entry = Entry(key: FlowKey, win: Window)

  /** The windows a log of calls records under `k`, in order; a flow that is its own reverse
      records each window twice. */
  function Recorded(log: seq<Entry>, k: FlowKey): seq<Window> {
    if log == [] then [] else
    var last, front := log[|log| - 1], Recorded(log[..|log| - 1], k);
    front + (if last.key == k then [last.win] else []) + (if Reverse(last.key) == k then [last.win] else [])
  }

  /** What the log says about an instant, in either direction. */
  ghost predicate Marked(log: seq<Entry>, k: FlowKey, t: int) {
    exists x :: x in log && (x.key == k || Reverse(x.key) == k) && Holds(x.win, t as real)
  }

  lemma {:induction false} RecordedBothWays(log: seq<Entry>, k: FlowKey)
    ensures Recorded(log, k) == Recorded(log, Reverse(k))
  {
    if log != [] { RecordedBothWays(log[..|log| - 1], k); }
  }

  lemma {:induction false} RecordedWindows(log: seq<Entry>, k: FlowKey, w: Window)
    ensures w in Recorded(log, k) <==> exists x :: x in log && (x.key == k || Reverse(x.key) == k) && x.win == w
  {
    if log != [] {
      var front, last := log[..|log| - 1], log[|log| - 1];
      RecordedWindows(front, k, w);
      assert log == front + [last];
      assert last in log;
    }
  }

  ghost predicate ValidLog(log: seq<Entry>, gap: int) {
    forall x :: x in log ==> x.win.start <= x.win.end + gap
  }

  /** Whatever sort each key's list got, the merged answer is what the log says, and so the same
      for a key and its reverse. */
  lemma AnswerIsMarked(log: seq<Entry>, k: FlowKey, sorted: seq<Window>, t: int)
    requires SortOf(Recorded(log, k), sorted)
    ensures InAnyWindow(t, Merge(sorted)) ==> Marked(log, k, t)
    ensures ValidLog(log, 1) ==> (InAnyWindow(t, Merge(sorted)) <==> Marked(log, k, t))
    ensures Marked(log, k, t) <==> Marked(log, Reverse(k), t)
  {
    var wins := Recorded(log, k);
    QuerySound(wins, sorted, t);
    if ValidLog(log, 1) {
      forall w | w in wins ensures w.start <= w.end + 1 { RecordedWindows(log, k, w); }
      QueryExact(wins, sorted, t);
    }
    if Covers(wins, t as real) {
      var w :| w in wins && Holds(w, t as real);
      RecordedWindows(log, k, w);
    }
    if Marked(log, k, t) {
      var x :| x in log && (x.key == k || Reverse(x.key) == k) && Holds(x.win, t as real);
      RecordedWindows(log, k, x.win);
    }
  }

  ghost predicate MergedFrom(wins: seq<Window>, m: seq<Window>) {
    exists s :: SortOf(wins, s) && m == Merge(s)
  }

  method MergeList(wins: seq<Window>) returns (m: seq<Window>)
    ensures MergedFrom(wins, m)
  {
    var a := new Window[|wins|](i requires 0 <= i < |wins| => wins[i]);
    assert a[..] == wins;
    var n, sorted := MergeWindows(a);
    m := a[..n];
  }

  lemma RecordedSnoc(log: seq<Entry>, x: Entry, k: FlowKey)
    ensures Recorded(log + [x], k)
         == Recorded(log, k) + (if x.key == k then [x.win] else []) + (if Reverse(x.key) == k then [x.win] else [])
  {
    assert (log + [x])[..|log|] == log;
  }

  function Get(m: map<FlowKey, seq<Window>>, k: FlowKey): seq<Window> {
    if k in m then m[k] else []
  }

  lemma AppendBoth(m: map<FlowKey, seq<Window>>, k: FlowKey, w: Window, q: FlowKey)
    ensures
      var m1 := m[k := Get(m, k) + [w]];
      var m2 := m1[Reverse(k) := Get(m1, Reverse(k)) + [w]];
      Get(m2, q) == Get(m, q) + (if k == q then [w] else []) + (if Reverse(k) == q then [w] else [])
  {
  }

  class MaliciousIndex {
    var windows: map<FlowKey, seq<Window>>
    ghost var log: seq<Entry>
    ghost var merged: bool

    function Windows(k: FlowKey): seq<Window>
      reads this
    {
      Get(windows, k)
    }

    /** Before merging, each key holds its recorded windows; afterwards, some merge of them. */
    ghost predicate Valid()
      reads this
    {
      if merged then forall k :: MergedFrom(Recorded(log, k), Windows(k))
      else forall k :: Windows(k) == Recorded(log, k)
    }

    constructor ()
      ensures Valid() && !merged && log == []
    {
      windows, log, merged := map[], [], false;
    }

    method AddFlowWindow(k: FlowKey, win: Window)
      requires Valid() && !merged
      modifies this
      ensures Valid() && !merged && log == old(log) + [Entry(k, win)]
    {
      var rk := Reverse(k);
      windows := windows[k := Get(windows, k) + [win]];
      windows := windows[rk := Get(windows, rk) + [win]];
      forall q ensures Get(windows, q) == Recorded(log + [Entry(k, win)], q) {
        RecordedSnoc(log, Entry(k, win), q);
        AppendBoth(old(windows), k, win, q);
        assert old(Windows(q)) == Recorded(log, q);
      }
      log := log + [Entry(k, win)];
    }

    /** Every key's slice is sorted and merged in place. */
    method MergeIndexWindows()
      requires Valid() && !merged
      modifies this
      ensures Valid() && merged && log == old(log)
    {
      var todo := windows.Keys;
      while todo != {}
        invariant todo <= windows.Keys == old(windows.Keys)
        invariant log == old(log) && !merged
        invariant forall k :: k in todo || k !in windows ==> Windows(k) == Recorded(log, k)
        invariant forall k :: k in windows && k !in todo ==> MergedFrom(Recorded(log, k), windows[k])
        decreases todo
      {
        var k :| k in todo;
        var m := MergeList(windows[k]);
        windows := windows[k := m];
        todo := todo - {k};
      }
      assert MergedFrom([], []) by { assert SortOf([], []) && Merge([]) == []; }
      merged := true;
    }

    /** The lookup: a hit is always right; a miss is when no window ends more than one unit before
        it starts. */
    method Lookup(k: FlowKey, t: int) returns (hit: bool)
      requires Valid() && merged
      ensures hit ==> Marked(log, k, t)
      ensures ValidLog(log, 1) ==> (hit <==> Marked(log, k, t))
    {
      hit := InAnyWindow(t, Windows(k));
      ghost var sorted :| SortOf(Recorded(log, k), sorted) && Windows(k) == Merge(sorted);
      AnswerIsMarked(log, k, sorted, t);
    }
  }
}
