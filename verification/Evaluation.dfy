/** Scoring a run: flow-level counters over all alerts, and per-rule counters, both tied to sets
    of matched flows; and what deleting rules can cost. */
module Evaluation {
  import opened Prelude
  import opened FlowMatch

  datatype RuleId = RuleId(gid: int, sid: int)

  function RuleOf(a: Alert): RuleId {
    RuleId(a.gid, a.sid)
  }

  predicate IsBenign(f: Flow) {
    f.labelText == "BENIGN"
  }

  predicate IsMalicious(f: Flow) {
    f.labelText != "" && f.labelText != "BENIGN"
  }

  // ----- the sets behind the counters -----

  ghost function BenignSet(flows: seq<Flow>): set<nat> {
    set i: nat | i < |flows| && IsBenign(flows[i])
  }

  ghost function MaliciousSet(flows: seq<Flow>): set<nat> {
    set i: nat | i < |flows| && IsMalicious(flows[i])
  }

  /** The flows some alert is attributed to. */
  ghost function AlertedSet(flows: seq<Flow>, alerts: seq<Alert>): set<nat> {
    set a | a in alerts && MatchOf(flows, a).Some? :: MatchOf(flows, a).value
  }

  /** The flows some alert of one rule is attributed to. */
  ghost function RuleFlows(flows: seq<Flow>, alerts: seq<Alert>, r: RuleId): set<nat> {
    set a | a in alerts && RuleOf(a) == r && MatchOf(flows, a).Some? :: MatchOf(flows, a).value
  }

  ghost function MissedSet(flows: seq<Flow>, alerts: seq<Alert>): set<nat> {
    MaliciousSet(flows) - AlertedSet(flows, alerts)
  }

  lemma AlertedInRange(flows: seq<Flow>, alerts: seq<Alert>)
    ensures forall i :: i in AlertedSet(flows, alerts) ==> 0 <= i < |flows|
  {
  }

  // ----- the run's evaluation -----

  datatype Evaluation = Evaluation(
    totalFlows: nat, benignFlows: nat, maliciousFlows: nat, alertedFlows: nat,
    falsePositiveFlows: nat, detectedMaliciousFlows: nat, missedFlows: nat, unmatchedAlertFlows: nat,
    falsePositiveRate: real, missRate: real)

  function Ratio(n: nat, d: nat): real {
    if d > 0 then n as real / d as real else 0.0
  }

  /** Every counter is the size of the set its name says, and the rates are their quotients. */
  ghost predicate Scores(flows: seq<Flow>, alerts: seq<Alert>, ev: Evaluation) {
    && ev.totalFlows == |flows|
    && ev.benignFlows == |BenignSet(flows)|
    && ev.maliciousFlows == |MaliciousSet(flows)|
    && ev.alertedFlows == |AlertedSet(flows, alerts)|
    && ev.falsePositiveFlows == |BenignSet(flows) * AlertedSet(flows, alerts)|
    && ev.detectedMaliciousFlows == |MaliciousSet(flows) * AlertedSet(flows, alerts)|
    && ev.missedFlows == |MissedSet(flows, alerts)|
    && ev.unmatchedAlertFlows == |Unmatched(flows, alerts)|
    && ev.falsePositiveRate == Ratio(ev.falsePositiveFlows, ev.totalFlows)
    && ev.missRate == Ratio(ev.missedFlows, ev.maliciousFlows)
  }

  ghost function Below(s: set<nat>, n: nat): set<nat> {
    set i | i in s && i < n
  }

  lemma BelowStep(s: set<nat>, n: nat)
    ensures |Below(s, n + 1)| == |Below(s, n)| + if n in s then 1 else 0
  {
    assert Below(s, n + 1) == Below(s, n) + if n in s then {n} else {};
  }

  lemma BelowAll(s: set<nat>, n: nat)
    requires forall i :: i in s ==> i < n
    ensures Below(s, n) == s && Below(s, 0) == {}
  {
  }

  method EvaluateAlerts(fs: FlowSet, alerts: seq<Alert>) returns (ev: Evaluation)
    requires Indexed(fs)
    ensures Scores(fs.flows, alerts, ev)
  {
    hide Indexed, MatchOf;
    var matches, unmatched := MatchAlertsToFlows(fs, alerts);
    var alerted := CollectFlows(fs.flows, alerts, matches);
    var benign, malicious, fp, detected, missed := CountFlows(fs.flows, alerted);
    ev := Evaluation(|fs.flows|, benign, malicious, |alerted|, fp, detected, missed, unmatched,
                     Ratio(fp, |fs.flows|), Ratio(missed, malicious));
  }

  /** The loop that marks the matched flows. */
  method CollectFlows(flows: seq<Flow>, ghost alerts: seq<Alert>, matches: seq<MatchedAlert>) returns (alerted: set<nat>)
    requires matches == Matched(flows, alerts)
    ensures alerted == AlertedSet(flows, alerts)
  {
    alerted := {};
    for k := 0 to |matches|
      invariant alerted == set i | 0 <= i < k :: matches[i].flow
    {
      alerted := alerted + {matches[k].flow};
    }
    MatchedFlows(flows, alerts);
  }

  lemma {:induction false} MatchedFlows(flows: seq<Flow>, alerts: seq<Alert>)
    ensures var ms := Matched(flows, alerts); (set i | 0 <= i < |ms| :: ms[i].flow) == AlertedSet(flows, alerts)
  {
    hide MatchOf;
    if alerts != [] {
      var front, last := alerts[..|alerts| - 1], alerts[|alerts| - 1];
      MatchedFlows(flows, front);
      assert alerts == front + [last];
      var ms, old_ms := Matched(flows, alerts), Matched(flows, front);
      var s := set i | 0 <= i < |ms| :: ms[i].flow;
      var t := set i | 0 <= i < |old_ms| :: old_ms[i].flow;
      var m := MatchOf(flows, last);
      assert AlertedSet(flows, alerts) == AlertedSet(flows, front) + if m.Some? then {m.value} else {};
      if m.Some? {
        assert ms[|ms| - 1].flow == m.value;
        assert forall i :: 0 <= i < |old_ms| ==> ms[i] == old_ms[i];
        assert s == t + {m.value};
      }
    }
  }

  /** The loop over the flows. */
  method CountFlows(flows: seq<Flow>, alerted: set<nat>) returns (benign: nat, malicious: nat, fp: nat, detected: nat, missed: nat)
    ensures benign == |BenignSet(flows)| && malicious == |MaliciousSet(flows)|
    ensures fp == |BenignSet(flows) * alerted|
    ensures detected == |MaliciousSet(flows) * alerted|
    ensures missed == |MaliciousSet(flows) - alerted|
  {
    benign, malicious, fp, detected, missed := 0, 0, 0, 0, 0;
    ghost var b, m := BenignSet(flows), MaliciousSet(flows);
    assert Below(b, 0) == Below(m, 0) == Below(b * alerted, 0) == Below(m * alerted, 0) == Below(m - alerted, 0) == {};
    for i := 0 to |flows|
      invariant benign == |Below(b, i)| && malicious == |Below(m, i)|
      invariant fp == |Below(b * alerted, i)| && detected == |Below(m * alerted, i)| && missed == |Below(m - alerted, i)|
    {
      BelowStep(b, i);
      BelowStep(m, i);
      BelowStep(b * alerted, i);
      BelowStep(m * alerted, i);
      BelowStep(m - alerted, i);
      hide Below;
      if IsBenign(flows[i]) {
        benign := benign + 1;
        if i in alerted { fp := fp + 1; }
        continue;
      }
      if IsMalicious(flows[i]) {
        malicious := malicious + 1;
        if i in alerted { detected := detected + 1; } else { missed := missed + 1; }
      }
    }
    BelowAll(b, |flows|);
    BelowAll(m, |flows|);
    BelowAll(b * alerted, |flows|);
    BelowAll(m * alerted, |flows|);
    BelowAll(m - alerted, |flows|);
  }

  /** Conservation: every malicious flow is detected or missed; rates lie between 0 and 1. */
  lemma DetectedPlusMissed(flows: seq<Flow>, alerts: seq<Alert>, ev: Evaluation)
    requires Scores(flows, alerts, ev)
    ensures ev.detectedMaliciousFlows + ev.missedFlows == ev.maliciousFlows
    ensures ev.falsePositiveFlows + ev.detectedMaliciousFlows <= ev.alertedFlows <= ev.totalFlows
    ensures 0.0 <= ev.missRate <= 1.0 && 0.0 <= ev.falsePositiveRate <= 1.0
    ensures ev.maliciousFlows == 0 ==> ev.missRate == 0.0
    ensures ev.totalFlows == 0 ==> ev.falsePositiveRate == 0.0
  {
    hide MatchOf;
    var b, m, al := BenignSet(flows), MaliciousSet(flows), AlertedSet(flows, alerts);
    assert m == m * al + (m - al);
    assert (b * al) !! (m * al);
    assert |b * al + m * al| == |b * al| + |m * al|;
    SubsetSize(b * al + m * al, al);
    AlertedInRange(flows, alerts);
    RangeSize(al, |flows|);
    RatioBounds(ev.missedFlows, ev.maliciousFlows);
    RatioBounds(ev.falsePositiveFlows, ev.totalFlows);
  }

  lemma SubsetSize<T>(s: set<T>, t: set<T>)
    requires s <= t
    ensures |s| <= |t|
  {
    assert t == s + (t - s);
  }

  lemma {:induction false} RangeSize(s: set<nat>, n: nat)
    requires forall i :: i in s ==> i < n
    ensures |s| <= n
    decreases n
  {
    if n > 0 {
      RangeSize(s - {n - 1}, n - 1);
      assert s <= (s - {n - 1}) + {n - 1};
      SubsetSize(s, (s - {n - 1}) + {n - 1});
    }
  }

  lemma RatioBounds(n: nat, d: nat)
    requires n <= d
    ensures 0.0 <= Ratio(n, d) <= 1.0
  {
  }

  // ----- per-rule counters -----

  datatype RuleStat = RuleStat(alertedFlows: nat, benignFlows: nat, maliciousFlows: nat, unmatchedAlerts: nat, seen: set<nat>)

  const NoStat := RuleStat(0, 0, 0, 0, {})

  function StatOf(stats: map<RuleId, RuleStat>, r: RuleId): RuleStat {
    if r in stats then stats[r] else NoStat
  }

  ghost function UnmatchedOf(flows: seq<Flow>, alerts: seq<Alert>, r: RuleId): nat {
    if alerts == [] then 0 else
    var last := alerts[|alerts| - 1];
    UnmatchedOf(flows, alerts[..|alerts| - 1], r)
    + if RuleOf(last) == r && MatchOf(flows, last).None? then 1 else 0
  }

  /** A rule's counters are the sizes of its set of distinct matched flows and of its parts. */
  ghost predicate StatScores(flows: seq<Flow>, alerts: seq<Alert>, r: RuleId, s: RuleStat) {
    && s.seen == RuleFlows(flows, alerts, r)
    && s.alertedFlows == |s.seen|
    && s.benignFlows == |s.seen * BenignSet(flows)|
    && s.maliciousFlows == |s.seen * MaliciousSet(flows)|
    && s.unmatchedAlerts == UnmatchedOf(flows, alerts, r)
  }

  /** The alerts of the rule that match no flow. */
  ghost function UnmatchedAlerts(flows: seq<Flow>, alerts: seq<Alert>, r: RuleId): set<nat> {
    set i: nat | i < |alerts| && RuleOf(alerts[i]) == r && MatchOf(flows, alerts[i]).None?
  }

  lemma {:induction false} UnmatchedCount(flows: seq<Flow>, alerts: seq<Alert>, r: RuleId)
    ensures UnmatchedOf(flows, alerts, r) == |UnmatchedAlerts(flows, alerts, r)|
  {
    hide MatchOf;
    if alerts == [] {
      assert UnmatchedAlerts(flows, alerts, r) == {};
    } else {
      var n := |alerts| - 1;
      UnmatchedCount(flows, alerts[..n], r);
      UnmatchedStep(flows, alerts, r, n);
    }
  }

  lemma UnmatchedStep(flows: seq<Flow>, alerts: seq<Alert>, r: RuleId, n: nat)
    requires |alerts| == n + 1
    ensures
      var here := RuleOf(alerts[n]) == r && MatchOf(flows, alerts[n]).None?;
      |UnmatchedAlerts(flows, alerts, r)| == |UnmatchedAlerts(flows, alerts[..n], r)| + if here then 1 else 0
  {
    hide MatchOf, RuleOf;
    var front := UnmatchedAlerts(flows, alerts[..n], r);
    var here := RuleOf(alerts[n]) == r && MatchOf(flows, alerts[n]).None?;
    assert UnmatchedAlerts(flows, alerts, r) == if here then front + {n} else front;
  }

  /** One alert's effect on its rule's counters. */
  function Observe(flows: seq<Flow>, s: RuleStat, m: Option<nat>): RuleStat
    requires m.Some? ==> m.value < |flows|
  {
    if m.None? then s.(unmatchedAlerts := s.unmatchedAlerts + 1)
    else if m.value in s.seen then s
    else
      var f := flows[m.value];
      RuleStat(s.alertedFlows + 1, s.benignFlows + (if IsBenign(f) then 1 else 0),
               s.maliciousFlows + (if !IsBenign(f) && IsMalicious(f) then 1 else 0), s.unmatchedAlerts, s.seen + {m.value})
  }

  method BuildRuleFPStats(fs: FlowSet, alerts: seq<Alert>) returns (stats: map<RuleId, RuleStat>)
    requires Indexed(fs)
    ensures forall r :: StatScores(fs.flows, alerts, r, StatOf(stats, r))
    ensures forall r :: r in stats <==> exists a :: a in alerts && RuleOf(a) == r
  {
    hide Indexed, MatchOf, StatScores;
    stats := map[];
    forall r ensures StatScores(fs.flows, [], r, NoStat) { NoAlerts(fs.flows, r); }
    for k := 0 to |alerts|
      invariant forall r :: StatScores(fs.flows, alerts[..k], r, StatOf(stats, r))
      invariant forall r :: r in stats <==> exists a :: a in alerts[..k] && RuleOf(a) == r
    {
      var r := RuleOf(alerts[k]);
      var stat := StatOf(stats, r);
      var m := MatchAlertToFlow(fs, alerts[k]);
      ghost var before := stats;
      assert alerts[..k + 1] == alerts[..k] + [alerts[k]];
      if m.None? {
        stat := stat.(unmatchedAlerts := stat.unmatchedAlerts + 1);
      } else if m.value !in stat.seen {
        var flow := fs.flows[m.value];
        var b, mal := stat.benignFlows, stat.maliciousFlows;
        if IsBenign(flow) {
          b := b + 1;
        } else if IsMalicious(flow) {
          mal := mal + 1;
        }
        stat := RuleStat(stat.alertedFlows + 1, b, mal, stat.unmatchedAlerts, stat.seen + {m.value});
      }
      assert stat == Observe(fs.flows, StatOf(before, r), m);
      stats := stats[r := stat];
      forall q ensures StatScores(fs.flows, alerts[..k + 1], q, StatOf(stats, q)) {
        assert StatScores(fs.flows, alerts[..k], q, StatOf(before, q));
        OneAlert(fs.flows, alerts[..k], alerts[k], q, StatOf(before, q));
      }
    }
    assert alerts[..|alerts|] == alerts;
  }

  lemma NoAlerts(flows: seq<Flow>, r: RuleId)
    ensures StatScores(flows, [], r, NoStat)
  {
    assert RuleFlows(flows, [], r) == {};
  }

  lemma SnocSets(flows: seq<Flow>, alerts: seq<Alert>, a: Alert, r: RuleId)
    ensures
      var m := MatchOf(flows, a);
      && RuleFlows(flows, alerts + [a], r) == RuleFlows(flows, alerts, r) + (if RuleOf(a) == r && m.Some? then {m.value} else {})
      && UnmatchedOf(flows, alerts + [a], r) == UnmatchedOf(flows, alerts, r) + if RuleOf(a) == r && m.None? then 1 else 0
  {
    hide MatchOf;
    assert (alerts + [a])[..|alerts|] == alerts;
  }

  lemma AddFlow(seen: set<nat>, i: nat, t: set<nat>)
    requires i !in seen
    ensures |(seen + {i}) * t| == |seen * t| + (if i in t then 1 else 0) && |seen + {i}| == |seen| + 1
  {
    assert (seen + {i}) * t == seen * t + if i in t then {i} else {};
  }

  lemma LabelSets(flows: seq<Flow>, i: nat)
    requires i < |flows|
    ensures i in BenignSet(flows) <==> IsBenign(flows[i])
    ensures i in MaliciousSet(flows) <==> IsMalicious(flows[i])
  {
  }

  lemma OneAlert(flows: seq<Flow>, alerts: seq<Alert>, a: Alert, r: RuleId, s: RuleStat)
    requires StatScores(flows, alerts, r, s)
    ensures StatScores(flows, alerts + [a], r, if RuleOf(a) == r then Observe(flows, s, MatchOf(flows, a)) else s)
  {
    hide MatchOf, RuleFlows, UnmatchedOf, BenignSet, MaliciousSet;
    var m := MatchOf(flows, a);
    SnocSets(flows, alerts, a, r);
    if RuleOf(a) == r && m.Some? {
      LabelSets(flows, m.value);
      if m.value in s.seen {
        assert s.seen + {m.value} == s.seen;
      } else {
        AddFlow(s.seen, m.value, BenignSet(flows));
        AddFlow(s.seen, m.value, MaliciousSet(flows));
      }
    }
  }

  /** The rules' flow sets make up the run's alerted set. */
  lemma RulesMakeUpAlerted(flows: seq<Flow>, alerts: seq<Alert>, i: nat)
    ensures i in AlertedSet(flows, alerts) <==> exists r :: i in RuleFlows(flows, alerts, r)
  {
    hide MatchOf;
    if i in AlertedSet(flows, alerts) {
      var a :| a in alerts && MatchOf(flows, a).Some? && MatchOf(flows, a).value == i;
      assert i in RuleFlows(flows, alerts, RuleOf(a));
    }
  }

  /** The stored rates of a rule; a rule without alerts has both at zero. */
  function FpRate(s: RuleStat): real {
    Ratio(s.benignFlows, s.alertedFlows)
  }

  function Utilization(s: RuleStat): real {
    Ratio(s.maliciousFlows, s.alertedFlows)
  }

  /** A rule's rates add up to at most one, and to one exactly when each of its flows is labelled. */
  lemma RatesAddUp(flows: seq<Flow>, alerts: seq<Alert>, r: RuleId, s: RuleStat)
    requires StatScores(flows, alerts, r, s) && s.alertedFlows > 0
    ensures FpRate(s) + Utilization(s) <= 1.0
    ensures FpRate(s) + Utilization(s) == 1.0 <==> forall i :: i in s.seen ==> flows[i].labelText != ""
  {
    hide MatchOf, Ratio;
    var b, m := s.seen * BenignSet(flows), s.seen * MaliciousSet(flows);
    assert b !! m;
    ThreeWay(s.seen, b, m);
    var rest := s.seen - (b + m);
    forall i | i in s.seen ensures i in rest <==> flows[i].labelText == "" {
      LabelSets(flows, i);
    }
    RatioSum(s.benignFlows, s.maliciousFlows, s.alertedFlows);
  }

  lemma ThreeWay(s: set<nat>, b: set<nat>, m: set<nat>)
    requires b <= s && m <= s && b !! m
    ensures |s| == |b| + |m| + |s - (b + m)|
  {
    assert s == (b + m) + (s - (b + m));
  }

  lemma RatioSum(a: nat, b: nat, d: nat)
    requires d > 0 && a + b <= d
    ensures Ratio(a, d) + Ratio(b, d) <= 1.0
    ensures Ratio(a, d) + Ratio(b, d) == 1.0 <==> a + b == d
  {
    var r := d as real;
    assert Ratio(a, d) + Ratio(b, d) == (a + b) as real / r;
    if a + b < d {
      assert (a + b) as real < r;
    }
  }

  // ----- deleting rules -----

  /** The alerts left when the rules in `gone` no longer alert. */
  ghost function Without(alerts: seq<Alert>, gone: set<RuleId>): seq<Alert> {
    if alerts == [] then [] else
    var last, front := alerts[|alerts| - 1], Without(alerts[..|alerts| - 1], gone);
    if RuleOf(last) in gone then front else front + [last]
  }

  lemma {:induction false} WithoutMembers(alerts: seq<Alert>, gone: set<RuleId>)
    ensures forall a :: a in Without(alerts, gone) <==> a in alerts && RuleOf(a) !in gone
  {
    if alerts != [] {
      var front, last := alerts[..|alerts| - 1], alerts[|alerts| - 1];
      WithoutMembers(front, gone);
      assert alerts == front + [last];
    }
  }

  /** The malicious flows the listed rules are attributed to, counted rule by rule. */
  ghost function MaliciousCost(flows: seq<Flow>, alerts: seq<Alert>, rules: seq<RuleId>): nat {
    if rules == [] then 0 else
    |RuleFlows(flows, alerts, rules[0]) * MaliciousSet(flows)| + MaliciousCost(flows, alerts, rules[1..])
  }

  ghost function FlowsOfRules(flows: seq<Flow>, alerts: seq<Alert>, rules: seq<RuleId>): set<nat> {
    if rules == [] then {} else
    RuleFlows(flows, alerts, rules[0]) + FlowsOfRules(flows, alerts, rules[1..])
  }

  lemma {:induction false} CostBoundsUnion(flows: seq<Flow>, alerts: seq<Alert>, rules: seq<RuleId>)
    ensures |FlowsOfRules(flows, alerts, rules) * MaliciousSet(flows)| <= MaliciousCost(flows, alerts, rules)
  {
    hide RuleFlows, MaliciousSet;
    if rules != [] {
      CostBoundsUnion(flows, alerts, rules[1..]);
      var a, b, m := RuleFlows(flows, alerts, rules[0]), FlowsOfRules(flows, alerts, rules[1..]), MaliciousSet(flows);
      assert (a + b) * m == a * m + (b * m - a * m);
      SubsetSize(b * m - a * m, b * m);
    }
  }

  lemma {:induction false} InFlowsOfRules(flows: seq<Flow>, alerts: seq<Alert>, rules: seq<RuleId>, r: RuleId, i: nat)
    requires r in rules && i in RuleFlows(flows, alerts, r)
    ensures i in FlowsOfRules(flows, alerts, rules)
  {
    hide RuleFlows;
    if rules[0] != r { InFlowsOfRules(flows, alerts, rules[1..], r, i); }
  }

  /** Deleting rules misses at most the malicious flows those rules were attributed to, and never
      adds a false positive. */
  lemma DeletionCost(flows: seq<Flow>, alerts: seq<Alert>, rules: seq<RuleId>)
    ensures
      var rest := Without(alerts, set r | r in rules);
      && |MissedSet(flows, rest)| <= |MissedSet(flows, alerts)| + MaliciousCost(flows, alerts, rules)
      && BenignSet(flows) * AlertedSet(flows, rest) <= BenignSet(flows) * AlertedSet(flows, alerts)
  {
    hide MatchOf;
    var gone := set r | r in rules;
    var rest := Without(alerts, gone);
    WithoutMembers(alerts, gone);
    var lost := FlowsOfRules(flows, alerts, rules) * MaliciousSet(flows);
    forall i | i in MissedSet(flows, rest) && i !in MissedSet(flows, alerts) ensures i in lost {
      assert i in AlertedSet(flows, alerts);
      var a :| a in alerts && MatchOf(flows, a).Some? && MatchOf(flows, a).value == i;
      assert RuleOf(a) in gone;
      InFlowsOfRules(flows, alerts, rules, RuleOf(a), i);
    }
    SubsetSize(MissedSet(flows, rest), MissedSet(flows, alerts) + lost);
    CostBoundsUnion(flows, alerts, rules);
    UnionSize(MissedSet(flows, alerts), lost);
  }

  lemma UnionSize(s: set<nat>, t: set<nat>)
    ensures |s + t| <= |s| + |t|
  {
    assert s + t == s + (t - s);
    SubsetSize(t - s, t);
  }

  /** Rules attributed to at most one malicious flow each cost at most one missed flow each. */
  lemma {:induction false} LowYieldCost(flows: seq<Flow>, alerts: seq<Alert>, rules: seq<RuleId>)
    requires forall r :: r in rules ==> |RuleFlows(flows, alerts, r) * MaliciousSet(flows)| <= 1
    ensures MaliciousCost(flows, alerts, rules) <= |rules|
  {
    hide RuleFlows, MaliciousSet;
    if rules != [] {
      assert rules[0] in rules;
      LowYieldCost(flows, alerts, rules[1..]);
    }
  }
}
