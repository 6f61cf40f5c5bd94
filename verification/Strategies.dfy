/** The iterative strategies: ranked candidates, a limit scaled by the factor, a prefix as proposal. */
module Strategies {
  import opened Prelude
  import opened FlowMatch
  import opened Evaluation
  import opened RuleStore
  import opened Trim
  import Sorting

  // ----- limits -----

  function BoundedFactor(factor: real): real {
    if factor < 0.0 then 0.0 else if factor > 1.0 then 1.0 else factor
  }

  function Ceil(x: real): int {
    -((-x).Floor)
  }

  function ScaledLimit(size: int, fraction: real, factor: real): int {
    if size <= 0 || fraction <= 0.0 || factor <= 0.0 then 0 else
    var limit := Ceil(size as real * fraction * factor);
    if limit < 1 then 1 else if limit > size then size else limit
  }

  lemma LimitInRange(size: int, fraction: real, factor: real)
    ensures 0 <= ScaledLimit(size, fraction, factor)
    ensures size > 0 && fraction > 0.0 && factor > 0.0 ==> 1 <= ScaledLimit(size, fraction, factor) <= size
    ensures size > 0 ==> ScaledLimit(size, fraction, factor) <= size
  {
  }

  lemma LimitMonotone(size: int, fraction: real, factor: real, factor': real)
    requires factor <= factor'
    ensures ScaledLimit(size, fraction, factor) <= ScaledLimit(size, fraction, factor')
  {
    if size > 0 && fraction > 0.0 && factor > 0.0 {
      var c := size as real * fraction;
      MulMonotone(c, factor, factor');
      CeilMonotone(c * factor, c * factor');
    }
  }

  lemma MulMonotone(c: real, x: real, y: real)
    requires c >= 0.0 && x <= y
    ensures c * x <= c * y
  {
    assert c * (y - x) >= 0.0;
  }

  lemma CeilMonotone(x: real, y: real)
    requires x <= y
    ensures Ceil(x) <= Ceil(y)
  {
  }

  /** The limit is the scaled size, rounded up. */
  lemma LimitExact(size: int, fraction: real, factor: real)
    requires size > 0 && 0.0 < fraction <= 1.0 && 0.0 < factor <= 1.0
    ensures var n := ScaledLimit(size, fraction, factor); (n - 1) as real < size as real * fraction * factor <= n as real
  {
    CeilOfParts(size as real, fraction, factor, size);
  }

  lemma CeilOfParts(c: real, x: real, y: real, size: int)
    requires 0.0 < c == size as real && 0.0 < x <= 1.0 && 0.0 < y <= 1.0
    ensures var n := Ceil(c * x * y); (n - 1) as real < c * x * y <= n as real && 1 <= n <= size
  {
    var z := TwoParts(c, x, y);
    CeilExact(z, size);
  }

  lemma TwoParts(c: real, x: real, y: real) returns (z: real)
    requires c > 0.0 && 0.0 < x <= 1.0 && 0.0 < y <= 1.0
    ensures z == c * x * y && 0.0 < z <= c
  {
    var d := PartOf(c, x);
    z := PartOf(d, y);
  }

  lemma PartOf(c: real, x: real) returns (z: real)
    requires c > 0.0 && 0.0 < x <= 1.0
    ensures z == c * x && 0.0 < z <= c
  {
    MulMonotone(c, x, 1.0);
    z := c * x;
  }

  lemma CeilExact(x: real, size: int)
    requires 0.0 < x <= size as real
    ensures (Ceil(x) - 1) as real < x <= Ceil(x) as real && 1 <= Ceil(x) <= size
  {
  }

  // ----- proposals -----

  /** `n` of `size` rows: the smallest number that is at least the fraction of the size, scaled by
      the factor; none without a positive factor. */
  predicate Scaled(n: int, size: nat, fraction: real, factor: real) {
    if size == 0 || factor <= 0.0 then n == 0
    else (n - 1) as real < size as real * fraction * (if factor > 1.0 then 1.0 else factor) <= n as real
  }

  /** The first rows of a ranking, as many as the factor calls for. */
  ghost predicate ScaledPrefix(out: seq<TrimDecision>, rows: seq<TrimDecision>, fraction: real, factor: real) {
    out <= rows && Scaled(|out|, |rows|, fraction, factor)
  }

  lemma ProposalIsScaled(rows: seq<TrimDecision>, fraction: real, factor: real)
    requires 0.0 < fraction <= 1.0
    ensures ScaledPrefix(Proposal(rows, fraction, factor), rows, fraction, factor)
  {
    var f := BoundedFactor(factor);
    LimitInRange(|rows|, fraction, f);
    if rows != [] && factor > 0.0 {
      LimitExact(|rows|, fraction, f);
    }
  }

  /** The rows a strategy proposes: a prefix of its ranking. */
  function Proposal(rows: seq<TrimDecision>, fraction: real, factor: real): seq<TrimDecision> {
    LimitInRange(|rows|, fraction, BoundedFactor(factor));
    rows[..ScaledLimit(|rows|, fraction, BoundedFactor(factor))]
  }

  /** The strategy that ranks by profiler time, on real traffic if that has rows and on the
      experiment otherwise. */
  method HighCostRules(realRows: seq<TrimDecision>, expRows: seq<TrimDecision>, factor: real) returns (out: seq<TrimDecision>)
    ensures out == Proposal(if realRows == [] then expRows else realRows, 0.2, factor)
    ensures ScaledPrefix(out, if realRows == [] then expRows else realRows, 0.2, factor)
  {
    ProposalIsScaled(if realRows == [] then expRows else realRows, 0.2, factor);
    var f := factor;
    if f <= 0.0 { return []; }
    if f > 1.0 { f := 1.0; }
    var rows := realRows;
    if |rows| == 0 { rows := expRows; }
    if |rows| == 0 { return []; }
    var limit := Ceil(|rows| as real * 0.2 * f);
    if limit < 1 { limit := 1; }
    if limit > |rows| { limit := |rows|; }
    out := Prefix(rows, limit);
  }

  /** The strategies' common last loop. */
  method Prefix(rows: seq<TrimDecision>, limit: nat) returns (out: seq<TrimDecision>)
    requires limit <= |rows|
    ensures out == rows[..limit]
  {
    out := [];
    for i := 0 to limit
      invariant out == rows[..i]
    {
      out := out + [rows[i]];
    }
  }

  /** The row filter of the high-false-positive strategy. */
  predicate HighFpRow(s: RuleStat) {
    s.alertedFlows > 0 && s.benignFlows > 0 && FpRate(s) >= 0.8 && Utilization(s) <= 0.1 && s.maliciousFlows <= 1
  }

  method HighFPLowUtilization(rows: seq<TrimDecision>, factor: real) returns (out: seq<TrimDecision>)
    ensures out == Proposal(rows, 0.3, factor) && ScaledPrefix(out, rows, 0.3, factor)
  {
    ProposalIsScaled(rows, 0.3, factor);
    var f := BoundedFactor(factor);
    if f <= 0.0 { return []; }
    if |rows| == 0 { return []; }
    LimitInRange(|rows|, 0.3, f);
    out := Prefix(rows, ScaledLimit(|rows|, 0.3, f));
  }

  /** The row filter of the low-yield strategy. */
  predicate LowYieldRow(s: RuleStat) {
    s.maliciousFlows <= 1 && Utilization(s) <= 0.05
  }

  /** A row of the rule statistics together with the decision it would lead to. */
  datatype FpRow = FpRow(decision: TrimDecision, stat: RuleStat)

  /** Hot rules in rank order, kept when the statistics have an entry for them. */
  ghost function Joined(hot: seq<RuleId>, stats: map<RuleId, TrimDecision>): seq<TrimDecision> {
    if hot == [] then [] else
    Joined(hot[..|hot| - 1], stats) + if hot[|hot| - 1] in stats then [stats[hot[|hot| - 1]]] else []
  }

  ghost function StatMap(fp: seq<FpRow>): map<RuleId, TrimDecision> {
    if fp == [] then map[] else
    StatMap(fp[..|fp| - 1])[fp[|fp| - 1].decision.rule := fp[|fp| - 1].decision]
  }

  method Join(hot: seq<RuleId>, stats: map<RuleId, TrimDecision>) returns (out: seq<TrimDecision>)
    ensures out == Joined(hot, stats)
  {
    out := [];
    for i := 0 to |hot|
      invariant out == Joined(hot[..i], stats)
    {
      assert hot[..i + 1][..i] == hot[..i];
      if hot[i] !in stats { continue; }
      out := out + [stats[hot[i]]];
    }
    assert hot[..|hot|] == hot;
  }

  method LowYieldHotRules(fp: seq<FpRow>, hotReal: seq<RuleId>, hotExp: seq<RuleId>, factor: real)
      returns (out: seq<TrimDecision>)
    ensures
      var stats := StatMap(fp);
      var rows := if Joined(hotReal, stats) == [] then Joined(hotExp, stats) else Joined(hotReal, stats);
      && out == (if fp == [] then [] else Proposal(rows, 0.2, factor))
      && (fp != [] ==> ScaledPrefix(out, rows, 0.2, factor))
  {
    ghost var all := StatMap(fp);
    ProposalIsScaled(if Joined(hotReal, all) == [] then Joined(hotExp, all) else Joined(hotReal, all), 0.2, factor);
    hide Scaled;
    var f := BoundedFactor(factor);
    if f <= 0.0 { return []; }
    var stats: map<RuleId, TrimDecision> := map[];
    for i := 0 to |fp|
      invariant stats == StatMap(fp[..i])
    {
      assert fp[..i + 1][..i] == fp[..i];
      stats := stats[fp[i].decision.rule := fp[i].decision];
    }
    assert fp[..|fp|] == fp;
    if |fp| == 0 { return []; }
    var rows := Join(hotReal, stats);
    if |rows| == 0 { rows := Join(hotExp, stats); }
    if |rows| == 0 { return []; }
    LimitInRange(|rows|, 0.2, f);
    out := Prefix(rows, ScaledLimit(|rows|, 0.2, f));
  }

  /** Every joined row is one of the statistics rows. */
  lemma {:induction false} JoinedFrom(hot: seq<RuleId>, fp: seq<FpRow>, d: TrimDecision)
    requires d in Joined(hot, StatMap(fp))
    ensures exists x :: x in fp && x.decision == d
  {
    if d in Joined(hot[..|hot| - 1], StatMap(fp)) {
      JoinedFrom(hot[..|hot| - 1], fp, d);
    } else {
      StatMapFrom(fp, hot[|hot| - 1]);
    }
  }

  lemma {:induction false} StatMapFrom(fp: seq<FpRow>, r: RuleId)
    requires r in StatMap(fp)
    ensures StatMap(fp)[r].rule == r
    ensures exists x :: x in fp && x.decision == StatMap(fp)[r]
  {
    var front, last := fp[..|fp| - 1], fp[|fp| - 1];
    assert fp == front + [last];
    if last.decision.rule == r {
      assert last in fp;
    } else {
      StatMapFrom(front, r);
    }
  }

  /** The row at `i` is the last of the statistics about its rule. */
  ghost predicate LastAbout(fp: seq<FpRow>, i: nat) {
    i < |fp| && forall j :: i < j < |fp| ==> fp[j].decision.rule != fp[i].decision.rule
  }

  /** The statistics have an entry for a rule exactly when some row is about it, the last one. */
  lemma {:induction false} StatMapLast(fp: seq<FpRow>, r: RuleId)
    ensures r in StatMap(fp) <==> exists i: nat :: LastAbout(fp, i) && fp[i].decision.rule == r
    ensures forall i: nat :: LastAbout(fp, i) && fp[i].decision.rule == r ==> StatMap(fp)[r] == fp[i].decision
  {
    hide LastAbout;
    if fp == [] {
      assert forall i: nat :: !LastAbout(fp, i) by { NoneAbout(); }
    } else {
      var n := |fp| - 1;
      StatMapLast(fp[..n], r);
      LastAboutStep(fp, n);
      if fp[n].decision.rule == r {
        assert LastAbout(fp, n);
      } else if i: nat :| LastAbout(fp[..n], i) && fp[..n][i].decision.rule == r {
        assert LastAbout(fp, i);
      }
    }
  }

  lemma NoneAbout()
    ensures forall i: nat :: !LastAbout([], i)
  {
  }

  lemma LastAboutStep(fp: seq<FpRow>, n: nat)
    requires |fp| == n + 1
    ensures LastAbout(fp, n)
    ensures forall i: nat :: LastAbout(fp, i) ==> i <= n
    ensures forall i: nat :: LastAbout(fp[..n], i) ==> i < n
    ensures forall i: nat :: i < n && fp[i].decision.rule != fp[n].decision.rule ==> (LastAbout(fp, i) <==> LastAbout(fp[..n], i))
    ensures forall i: nat :: i < n && fp[i].decision.rule == fp[n].decision.rule ==> !LastAbout(fp, i)
  {
  }

  /** The places of the hot rules that the statistics know, in order. */
  ghost predicate KnownPlaces(hot: seq<RuleId>, stats: map<RuleId, TrimDecision>, places: seq<nat>) {
    Ascends(places, |hot|) && forall k :: 0 <= k < |hot| ==> (k in places <==> hot[k] in stats)
  }

  /** The joined rows are the statistics of the known hot rules, in the rank order of these. */
  lemma {:induction false} JoinedInOrder(hot: seq<RuleId>, stats: map<RuleId, TrimDecision>) returns (places: seq<nat>)
    ensures KnownPlaces(hot, stats, places) && |Joined(hot, stats)| == |places|
    ensures forall i :: 0 <= i < |places| ==> hot[places[i]] in stats && Joined(hot, stats)[i] == stats[hot[places[i]]]
  {
    if hot == [] {
      places := [];
    } else {
      var n := |hot| - 1;
      places := JoinedInOrder(hot[..n], stats);
      assert forall i :: 0 <= i < |places| ==> hot[..n][places[i]] == hot[places[i]];
      AscendsMore(places, n);
      if hot[n] in stats {
        places := places + [n];
      }
    }
  }

  // ----- what a proposal can cost -----

  function RulesOf(ds: seq<TrimDecision>): (r: seq<RuleId>)
    ensures |r| == |ds|
  {
    seq(|ds|, i requires 0 <= i < |ds| => ds[i].rule)
  }

  /** Rows taken from the statistics of a run: the stored counters are that run's counters. */
  ghost predicate StatsOfRun(flows: seq<Flow>, alerts: seq<Alert>, fp: seq<FpRow>) {
    forall x :: x in fp ==> StatScores(flows, alerts, x.decision.rule, x.stat)
  }

  lemma RowCost(flows: seq<Flow>, alerts: seq<Alert>, x: FpRow)
    requires StatScores(flows, alerts, x.decision.rule, x.stat) && (HighFpRow(x.stat) || LowYieldRow(x.stat))
    ensures |RuleFlows(flows, alerts, x.decision.rule) * MaliciousSet(flows)| <= 1
  {
    hide RuleFlows, MaliciousSet, BenignSet, UnmatchedOf, FpRate, Utilization;
  }

  /** A proposal of `n` rules drawn from rows that pass the high-FP or the low-yield filter costs
      at most `n` more missed flows, and no false positive. */
  lemma ProposalCost(flows: seq<Flow>, alerts: seq<Alert>, fp: seq<FpRow>, out: seq<TrimDecision>)
    requires StatsOfRun(flows, alerts, fp)
    requires forall x :: x in fp ==> HighFpRow(x.stat) || LowYieldRow(x.stat)
    requires forall d :: d in out ==> exists x :: x in fp && x.decision == d
    ensures
      var rest := Without(alerts, set r | r in RulesOf(out));
      && |MissedSet(flows, rest)| <= |MissedSet(flows, alerts)| + |out|
      && BenignSet(flows) * AlertedSet(flows, rest) <= BenignSet(flows) * AlertedSet(flows, alerts)
  {
    hide StatScores, HighFpRow, LowYieldRow, MissedSet, RuleFlows, AlertedSet, Without, BenignSet, MaliciousSet;
    var rules := RulesOf(out);
    forall r | r in rules ensures |RuleFlows(flows, alerts, r) * MaliciousSet(flows)| <= 1 {
      var i :| 0 <= i < |out| && out[i].rule == r;
      assert out[i] in out;
      var x :| x in fp && x.decision == out[i];
      RowCost(flows, alerts, x);
    }
    LowYieldCost(flows, alerts, rules);
    DeletionCost(flows, alerts, rules);
  }

  // ----- shrinking after a rollback -----

  /** Halving the factor shrinks a strategy's proposal to a prefix of the one rolled back. */
  lemma HalvedProposalIsPrefix(rows: seq<TrimDecision>, fraction: real, factor: real)
    ensures Proposal(rows, fraction, factor / 2.0) <= Proposal(rows, fraction, factor)
  {
    LimitMonotone(|rows|, fraction, BoundedFactor(factor / 2.0), BoundedFactor(factor));
    LimitInRange(|rows|, fraction, BoundedFactor(factor / 2.0));
    LimitInRange(|rows|, fraction, BoundedFactor(factor));
  }

  /** So the trim set of the round after a rollback is contained in the one rolled back: the
      rolled-back clone `next` left the source run alone. */
  lemma RollbackShrinksTrim(table: Table, run: int, next: int, rows: seq<TrimDecision>, fraction: real, factor: real,
                            out: seq<TrimmedRule>, out': seq<TrimmedRule>)
    requires next != run
    requires Aggregated(table, run, ITER, Proposal(rows, fraction, factor), out)
    requires Aggregated(Cloned(table, run, next, Ids(out)), run, ITER, Proposal(rows, fraction, factor / 2.0), out')
    ensures Ids(out') <= Ids(out)
  {
    HalvedProposalIsPrefix(rows, fraction, factor);
    CloneFrame(table, run, next, Ids(out), run);
    hide Aggregated, Proposal, Cloned, Enabled, Ids;
    var big, small := Proposal(rows, fraction, factor), Proposal(rows, fraction, factor / 2.0);
    assert forall d :: d in small ==> d in big;
    AggregationMonotone(Cloned(table, run, next, Ids(out)), table, run, ITER, small, big, out', out);
  }
}
