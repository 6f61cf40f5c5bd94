/** The states that flows can come to, and with them exactly when removing rules goes unnoticed. */
module FlowbitsReach {
  import opened Flowbits

  /** The rules neither test for a missing bit nor clear one. */
  predicate OnlyGrow(rules: seq<seq<Check>>) {
    forall i :: 0 <= i < |rules| ==> Grows(rules[i])
  }

  predicate Grows(checks: seq<Check>) {
    forall i :: 0 <= i < |checks| ==> checks[i].op != UNSET && checks[i].op != IS_NOT_SET
  }

  /** Every bit some rule can set. */
  function SetBits(rules: seq<seq<Check>>): set<string> {
    set r, i, k | 0 <= r < |rules| && 0 <= i < |rules[r]| && 0 <= k < |rules[r][i].bits| && rules[r][i].op == SET
      :: rules[r][i].bits[k]
  }

  // ----- growing -----

  lemma PassesMonotone(checks: seq<Check>, on: set<string>, more: set<string>)
    requires Grows(checks) && on <= more && Passes(checks, on)
    ensures Passes(checks, more)
  {
    forall i | 0 <= i < |checks| && checks[i].op == IS_SET ensures IsSet(checks[i], more) {
      assert IsSet(checks[i], on);
    }
  }

  lemma {:induction false} UpdateAllGrows(checks: seq<Check>, on: set<string>, more: set<string>)
    requires Grows(checks) && on <= more
    ensures on <= UpdateAll(checks, on) <= UpdateAll(checks, more)
  {
    if checks != [] {
      UpdateAllGrows(checks[1..], Update(checks[0], on), Update(checks[0], more));
    }
  }

  lemma StepGrows(checks: seq<Check>, on: set<string>, more: set<string>)
    requires Grows(checks) && on <= more
    ensures on <= Step(checks, on) <= Step(checks, more)
  {
    UpdateAllGrows(checks, on, more);
    UpdateAllGrows(checks, more, more);
    hide Grows, Passes, UpdateAll;
    if Passes(checks, on) {
      PassesMonotone(checks, on, more);
    }
  }

  predicate SetsAmong(checks: seq<Check>, bits: set<string>) {
    forall i, k :: 0 <= i < |checks| && checks[i].op == SET && 0 <= k < |checks[i].bits| ==> checks[i].bits[k] in bits
  }

  lemma {:induction false} UpdateAllAmong(checks: seq<Check>, on: set<string>, bits: set<string>)
    requires SetsAmong(checks, bits)
    ensures UpdateAll(checks, on) <= on + bits
  {
    if checks != [] {
      UpdateAllAmong(checks[1..], Update(checks[0], on), bits);
    }
  }

  // ----- saturating -----

  /** The bits after every rule has matched once, in order. */
  function Sweep(rules: seq<seq<Check>>, on: set<string>): set<string> {
    if rules == [] then on else Sweep(rules[1..], Step(rules[0], on))
  }

  lemma {:induction false} SweepGrows(rules: seq<seq<Check>>, on: set<string>, bits: set<string>)
    requires OnlyGrow(rules) && forall i :: 0 <= i < |rules| ==> SetsAmong(rules[i], bits)
    ensures on <= Sweep(rules, on) <= on + bits
  {
    hide Step, Grows, SetsAmong;
    if rules != [] {
      StepGrows(rules[0], on, on);
      StepAmong(rules[0], on, bits);
      SweepGrows(rules[1..], Step(rules[0], on), bits);
    }
  }

  lemma StepAmong(checks: seq<Check>, on: set<string>, bits: set<string>)
    requires SetsAmong(checks, bits)
    ensures Step(checks, on) <= on + bits
  {
    UpdateAllAmong(checks, on, bits);
  }

  lemma SweepAmong(rules: seq<seq<Check>>, on: set<string>)
    requires OnlyGrow(rules)
    ensures on <= Sweep(rules, on) <= on + SetBits(rules)
  {
    forall i | 0 <= i < |rules| ensures SetsAmong(rules[i], SetBits(rules)) {
    }
    hide SetBits, SetsAmong;
    SweepGrows(rules, on, SetBits(rules));
  }

  /** Sweeping until nothing changes. */
  function Saturate(rules: seq<seq<Check>>, on: set<string>): (top: set<string>)
    requires OnlyGrow(rules)
    ensures on <= top && Sweep(rules, top) == top
    decreases SetBits(rules) - on
  {
    SweepAmong(rules, on);
    var next := Sweep(rules, on);
    if next == on then on
    else
      assert SetBits(rules) - next < SetBits(rules) - on by { Nearer(SetBits(rules), on, next); }
      Saturate(rules, next)
  }

  lemma Nearer(bits: set<string>, on: set<string>, next: set<string>)
    requires on < next <= on + bits
    ensures bits - next < bits - on
  {
    var b :| b in next && b !in on;
    assert b in bits - on;
  }

  /** No rule changes the saturated bits. */
  lemma {:induction false} Closed(rules: seq<seq<Check>>, top: set<string>, j: nat)
    requires OnlyGrow(rules) && Sweep(rules, top) == top && j < |rules|
    ensures Step(rules[j], top) == top
  {
    hide Step, Grows;
    StepGrows(rules[0], top, top);
    SweepAmong(rules[1..], Step(rules[0], top));
    assert Step(rules[0], top) <= Sweep(rules[1..], Step(rules[0], top)) == Sweep(rules, top);
    assert Step(rules[0], top) == top;
    if j > 0 {
      Closed(rules[1..], top, j - 1);
    }
  }

  /** No trace leads beyond the saturated bits. */
  lemma {:induction false} StaysBelow(rules: seq<seq<Check>>, trace: seq<nat>, on: set<string>, top: set<string>)
    requires OnlyGrow(rules) && Sweep(rules, top) == top && on <= top && InRange(trace, |rules|)
    ensures Final(rules, trace, on) <= top
  {
    hide Step, Grows, Sweep;
    if trace != [] {
      Closed(rules, top, trace[0]);
      StepGrows(rules[trace[0]], on, top);
      StaysBelow(rules, trace[1..], Step(rules[trace[0]], on), top);
    }
  }

  // ----- a trace that saturates -----

  lemma {:induction false} FinalAppended(rules: seq<seq<Check>>, a: seq<nat>, b: seq<nat>, on: set<string>)
    requires InRange(a, |rules|) && InRange(b, |rules|)
    ensures InRange(a + b, |rules|) && Final(rules, a + b, on) == Final(rules, b, Final(rules, a, on))
  {
    hide Step;
    if a == [] {
      assert a + b == b;
    } else {
      assert (a + b)[1..] == a[1..] + b;
      FinalAppended(rules, a[1..], b, Step(rules[a[0]], on));
    }
  }

  lemma {:induction false} FiredAppended(rules: seq<seq<Check>>, a: seq<nat>, b: seq<nat>, on: set<string>)
    requires InRange(a, |rules|) && InRange(b, |rules|)
    ensures InRange(a + b, |rules|) && Fired(rules, a + b, on) == Fired(rules, a, on) + Fired(rules, b, Final(rules, a, on))
  {
    hide Step, Passes;
    if a == [] {
      assert a + b == b;
    } else {
      var next := Step(rules[a[0]], on);
      assert (a + b)[1..] == a[1..] + b;
      FiredAppended(rules, a[1..], b, next);
      Behind(if Passes(rules[a[0]], on) then [a[0]] else [], Fired(rules, a[1..], next), Fired(rules, b, Final(rules, a, on)));
    }
  }

  lemma Behind(a: seq<nat>, b: seq<nat>, c: seq<nat>)
    ensures a + b + c == a + (b + c)
  {
  }

  lemma {:induction false} SweepTrace(rules: seq<seq<Check>>, from: nat, on: set<string>) returns (trace: seq<nat>)
    requires from <= |rules|
    ensures InRange(trace, |rules|) && Final(rules, trace, on) == Sweep(rules[from..], on)
    decreases |rules| - from
  {
    hide Step;
    if from == |rules| {
      trace := [];
    } else {
      var rest := SweepTrace(rules, from + 1, Step(rules[from], on));
      trace := [from] + rest;
      assert trace[1..] == rest && rules[from..][1..] == rules[from + 1..];
    }
  }

  lemma {:induction false} SaturatingTrace(rules: seq<seq<Check>>, on: set<string>) returns (trace: seq<nat>)
    requires OnlyGrow(rules)
    ensures InRange(trace, |rules|) && Final(rules, trace, on) == Saturate(rules, on)
    decreases SetBits(rules) - on
  {
    SweepAmong(rules, on);
    hide Grows, SetBits, Sweep, OnlyGrow;
    var next := Sweep(rules, on);
    if next == on {
      trace := [];
    } else {
      Nearer(SetBits(rules), on, next);
      var first := SweepTrace(rules, 0, on);
      assert rules[0..] == rules;
      var rest := SaturatingTrace(rules, next);
      FinalAppended(rules, first, rest, on);
      trace := first + rest;
    }
  }

  /** The saturated bits are exactly the bits that some flow, starting without any, comes to have. */
  lemma ReachedExactly(rules: seq<seq<Check>>, bit: string)
    requires OnlyGrow(rules)
    ensures bit in Saturate(rules, {})
       <==> exists trace :: InRange(trace, |rules|) && bit in Final(rules, trace, {})
  {
    var top := Saturate(rules, {});
    var t := SaturatingTrace(rules, {});
    forall trace | InRange(trace, |rules|) ensures Final(rules, trace, {}) <= top {
      StaysBelow(rules, trace, {}, top);
    }
    hide Saturate, Final, OnlyGrow;
  }

  // ----- all states a flow can come to -----

  function Subsets(bits: set<string>): set<set<string>> {
    set x | x <= bits
  }

  /** The states, and those one more match leads to. */
  function Expand(rules: seq<seq<Check>>, states: set<set<string>>): set<set<string>> {
    states + set s, i | s in states && 0 <= i < |rules| :: Step(rules[i], s)
  }

  lemma ExpandAmong(rules: seq<seq<Check>>, states: set<set<string>>)
    requires states <= Subsets(SetBits(rules))
    ensures states <= Expand(rules, states) <= Subsets(SetBits(rules))
  {
    hide Step, SetsAmong;
    var bits := SetBits(rules);
    forall s, i | s in states && 0 <= i < |rules| ensures Step(rules[i], s) <= bits {
      assert SetsAmong(rules[i], bits) by { SetBitsAmong(rules, i); }
      StepAmong(rules[i], s, bits);
    }
  }

  lemma SetBitsAmong(rules: seq<seq<Check>>, i: nat)
    requires i < |rules|
    ensures SetsAmong(rules[i], SetBits(rules))
  {
  }

  /** Expanding until nothing changes. */
  function Closure(rules: seq<seq<Check>>, states: set<set<string>>): (r: set<set<string>>)
    requires states <= Subsets(SetBits(rules))
    ensures states <= r && Expand(rules, r) == r
    decreases Subsets(SetBits(rules)) - states
  {
    ExpandAmong(rules, states);
    var next := Expand(rules, states);
    if next == states then states
    else
      assert Subsets(SetBits(rules)) - next < Subsets(SetBits(rules)) - states by { Fewer(Subsets(SetBits(rules)), states, next); }
      Closure(rules, next)
  }

  lemma Fewer(all: set<set<string>>, states: set<set<string>>, next: set<set<string>>)
    requires states < next <= all
    ensures all - next < all - states
  {
    var s :| s in next && s !in states;
    assert s in all - states;
  }

  /** The states of flows that start without bits. */
  function Reachable(rules: seq<seq<Check>>): set<set<string>> {
    Closure(rules, {{}})
  }

  lemma StaysInside(rules: seq<seq<Check>>, states: set<set<string>>, on: set<string>, j: nat)
    requires Expand(rules, states) == states && on in states && j < |rules|
    ensures Step(rules[j], on) in states
  {
    hide Step;
    assert Step(rules[j], on) in Expand(rules, states);
  }

  lemma {:induction false} FinalInside(rules: seq<seq<Check>>, trace: seq<nat>, on: set<string>, states: set<set<string>>)
    requires Expand(rules, states) == states && on in states && InRange(trace, |rules|)
    ensures Final(rules, trace, on) in states
  {
    hide Step, Expand;
    if trace != [] {
      StaysInside(rules, states, on, trace[0]);
      FinalInside(rules, trace[1..], Step(rules[trace[0]], on), states);
    }
  }

  ghost predicate ReachedFrom(rules: seq<seq<Check>>, states: set<set<string>>, s: set<string>) {
    exists on, trace :: on in states && InRange(trace, |rules|) && Final(rules, trace, on) == s
  }

  lemma OneMore(rules: seq<seq<Check>>, states: set<set<string>>, on: set<string>)
    requires on in Expand(rules, states)
    ensures ReachedFrom(rules, states, on)
  {
    hide Step;
    if on in states {
      assert Final(rules, [], on) == on && InRange([], |rules|);
    } else {
      var s, i :| s in states && 0 <= i < |rules| && Step(rules[i], s) == on;
      assert [i][1..] == [];
      assert InRange([i], |rules|) && Final(rules, [i], s) == on;
    }
  }

  lemma Through(rules: seq<seq<Check>>, states: set<set<string>>, on: set<string>, trace: seq<nat>)
    requires ReachedFrom(rules, states, on) && InRange(trace, |rules|)
    ensures ReachedFrom(rules, states, Final(rules, trace, on))
  {
    var s, front :| s in states && InRange(front, |rules|) && Final(rules, front, s) == on;
    FinalAppended(rules, front, trace, s);
    hide Final;
    assert Final(rules, front + trace, s) == Final(rules, trace, on);
  }

  lemma {:induction false} ClosureReached(rules: seq<seq<Check>>, states: set<set<string>>, s: set<string>)
    requires states <= Subsets(SetBits(rules)) && s in Closure(rules, states)
    ensures ReachedFrom(rules, states, s)
    decreases Subsets(SetBits(rules)) - states
  {
    ExpandAmong(rules, states);
    var next := Expand(rules, states);
    if next == states {
      OneMore(rules, states, s);
    } else {
      Fewer(Subsets(SetBits(rules)), states, next);
      ClosureReached(rules, next, s);
      hide Expand, Final, Subsets, SetBits;
      var on, trace :| on in next && InRange(trace, |rules|) && Final(rules, trace, on) == s;
      OneMore(rules, states, on);
      Through(rules, states, on, trace);
    }
  }

  /** The reachable states are exactly those at the end of a trace. */
  lemma ReachableExactly(rules: seq<seq<Check>>, s: set<string>)
    ensures s in Reachable(rules) <==> exists trace :: InRange(trace, |rules|) && Final(rules, trace, {}) == s
  {
    hide Final, Expand;
    if s in Reachable(rules) {
      ClosureReached(rules, {{}}, s);
      hide Closure;
      var on, trace :| on in {{}} && InRange(trace, |rules|) && Final(rules, trace, on) == s;
      assert on == {};
    }
    forall trace | InRange(trace, |rules|) ensures Final(rules, trace, {}) in Reachable(rules) {
      FinalInside(rules, trace, {}, Reachable(rules));
    }
  }

  // ----- removing rules -----

  ghost predicate Unnoticed(rows: seq<Row>, rules: seq<seq<Check>>, trace: seq<nat>)
    requires |rows| == |rules| && InRange(trace, |rows|)
  {
    && Fired(rules, trace, {}) == Fired(rules, Kept(rows, trace), {})
    && Final(rules, trace, {}) == Final(rules, Kept(rows, trace), {})
  }

  /** No orphan passes its tests on the bits. */
  ghost predicate OrphansIdle(rows: seq<Row>, rules: seq<seq<Check>>, on: set<string>)
    requires |rows| == |rules|
  {
    forall j :: 0 <= j < |rows| && IsOrphan(rows[j], Provided(rows)) ==> !Passes(rules[j], on)
  }

  ghost predicate AlwaysIdle(rows: seq<Row>, rules: seq<seq<Check>>, states: set<set<string>>)
    requires |rows| == |rules|
  {
    forall s :: s in states ==> OrphansIdle(rows, rules, s)
  }

  lemma {:induction false} IdleUnnoticed(rows: seq<Row>, rules: seq<seq<Check>>, trace: seq<nat>, on: set<string>, states: set<set<string>>)
    requires |rows| == |rules| && Expand(rules, states) == states && on in states
    requires InRange(trace, |rows|) && AlwaysIdle(rows, rules, states)
    ensures Fired(rules, trace, on) == Fired(rules, Kept(rows, trace), on)
    ensures Final(rules, trace, on) == Final(rules, Kept(rows, trace), on)
  {
    hide Provided, IsOrphan, Expand, Passes;
    if trace != [] {
      var j := trace[0];
      StaysInside(rules, states, on, j);
      IdleUnnoticed(rows, rules, trace[1..], Step(rules[j], on), states);
      if IsOrphan(rows[j], Provided(rows)) {
        assert OrphansIdle(rows, rules, on);
        assert Kept(rows, trace) == Kept(rows, trace[1..]);
      } else {
        var kept := Kept(rows, trace);
        assert kept == [j] + Kept(rows, trace[1..]) && kept[1..] == Kept(rows, trace[1..]);
      }
    }
  }

  lemma {:induction false} KeptAreNoOrphans(rows: seq<Row>, rules: seq<seq<Check>>, trace: seq<nat>, on: set<string>, j: nat)
    requires |rows| == |rules| && InRange(trace, |rows|) && j < |rows| && IsOrphan(rows[j], Provided(rows))
    ensures j !in Fired(rules, Kept(rows, trace), on)
  {
    hide Provided, IsOrphan, Passes, Step;
    if trace != [] {
      var i := trace[0];
      if IsOrphan(rows[i], Provided(rows)) {
        assert Kept(rows, trace) == Kept(rows, trace[1..]);
        KeptAreNoOrphans(rows, rules, trace[1..], on, j);
      } else {
        var kept := Kept(rows, trace);
        assert kept == [i] + Kept(rows, trace[1..]) && kept[1..] == Kept(rows, trace[1..]);
        KeptAreNoOrphans(rows, rules, trace[1..], Step(rules[i], on), j);
      }
    }
  }

  /** An orphan that passes its tests in a state a flow can come to fires there, and its removal
      shows. */
  lemma LiveOrphanShows(rows: seq<Row>, rules: seq<seq<Check>>, j: nat, front: seq<nat>)
    requires |rows| == |rules| && j < |rows| && IsOrphan(rows[j], Provided(rows))
    requires InRange(front, |rules|) && Passes(rules[j], Final(rules, front, {}))
    ensures InRange(front + [j], |rows|) && !Unnoticed(rows, rules, front + [j])
  {
    hide Provided, IsOrphan, Passes, Kept;
    var top, trace := Final(rules, front, {}), front + [j];
    assert [j][1..] == [];
    FiredAppended(rules, front, [j], {});
    assert Fired(rules, [j], top) == [j];
    KeptAreNoOrphans(rows, rules, trace, {}, j);
    hide Fired, Final;
    var fired := Fired(rules, trace, {});
    assert fired[|fired| - 1] == j;
    assert j in fired;
  }

  /** Over all traces of flows that start without bits, removing the orphans goes unnoticed exactly
      when no orphan passes its tests in any state a flow can come to. */
  lemma UnnoticedExactly(rows: seq<Row>, rules: seq<seq<Check>>)
    requires |rows| == |rules|
    ensures (forall trace | InRange(trace, |rows|) :: Unnoticed(rows, rules, trace))
       <==> AlwaysIdle(rows, rules, Reachable(rules))
  {
    hide Provided, IsOrphan, Passes, Expand, Unnoticed;
    var states := Reachable(rules);
    if AlwaysIdle(rows, rules, states) {
      forall trace | InRange(trace, |rows|) ensures Unnoticed(rows, rules, trace) {
        IdleUnnoticed(rows, rules, trace, {}, states);
        IsUnnoticed(rows, rules, trace);
      }
    } else {
      hide Reachable;
      var s :| s in states && !OrphansIdle(rows, rules, s);
      var j :| 0 <= j < |rows| && IsOrphan(rows[j], Provided(rows)) && Passes(rules[j], s);
      ReachableExactly(rules, s);
      var front :| InRange(front, |rules|) && Final(rules, front, {}) == s;
      LiveOrphanShows(rows, rules, j, front);
    }
  }

  lemma IsUnnoticed(rows: seq<Row>, rules: seq<seq<Check>>, trace: seq<nat>)
    requires |rows| == |rules| && InRange(trace, |rows|)
    requires Fired(rules, trace, {}) == Fired(rules, Kept(rows, trace), {})
    requires Final(rules, trace, {}) == Final(rules, Kept(rows, trace), {})
    ensures Unnoticed(rows, rules, trace)
  {
  }

  lemma StaysIdle(checks: seq<Check>, on: set<string>, top: set<string>)
    requires Grows(checks) && on <= top && !Passes(checks, top)
    ensures !Passes(checks, on)
  {
    hide Grows, Passes;
    if Passes(checks, on) {
      PassesMonotone(checks, on, top);
    }
  }

  /** For rules that only grow it is enough to look at the saturated bits. */
  lemma TopDecides(rows: seq<Row>, rules: seq<seq<Check>>)
    requires |rows| == |rules| && OnlyGrow(rules)
    ensures AlwaysIdle(rows, rules, Reachable(rules)) <==> OrphansIdle(rows, rules, Saturate(rules, {}))
  {
    hide Provided, IsOrphan, Passes, Sweep, Grows, Final, Reachable;
    var top, states := Saturate(rules, {}), Reachable(rules);
    var t := SaturatingTrace(rules, {});
    ReachableExactly(rules, top);
    if OrphansIdle(rows, rules, top) {
      forall s, j | s in states && 0 <= j < |rows| && IsOrphan(rows[j], Provided(rows)) ensures !Passes(rules[j], s) {
        ReachableExactly(rules, s);
        var trace :| InRange(trace, |rules|) && Final(rules, trace, {}) == s;
        StaysBelow(rules, trace, {}, top);
        StaysIdle(rules[j], s, top);
      }
    }
  }
}
