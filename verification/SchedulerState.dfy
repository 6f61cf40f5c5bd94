/** The scheduler's state and what each of its steps keeps. */
module SchedulerState {
  import opened Prelude
  import opened FlowMatch
  import opened Evaluation
  import opened RuleStore
  import opened Trim
  import Sorting

  datatype Config = Config(maxRound: int, initialFactor: real, maxMissRateIncrease: real, maxFPRateIncrease: real)

  datatype RunResult = RunResult(runID: int, committed: bool, rolledBack: bool, factor: real, evaluation: Evaluation)

  /** The variables of a run: the accepted version, the next id, and the results so far. */
  datatype Progress = Progress(
    accepted: int, acceptedEval: Evaluation, next: int, trimmed: seq<TrimmedRule>, runs: seq<RunResult>)

  const FACTOR_FLOOR: real := 0.001

  // ----- run ids -----

  /** The run made its strategy stop: its halved factor is at the floor. */
  predicate FloorStop(r: RunResult) {
    r.rolledBack && r.factor / 2.0 <= FACTOR_FLOOR
  }

  /** The id of the run recorded after `r`: the same one after a floor stop, otherwise the next. */
  function IdAfter(r: RunResult): int {
    if FloorStop(r) then r.runID else r.runID + 1
  }

  ghost predicate IdsStep(runs: seq<RunResult>, next: int) {
    && |runs| > 0 && runs[0].runID == 0
    && (forall i :: 0 < i < |runs| ==> runs[i].runID == IdAfter(runs[i - 1]))
    && next == IdAfter(runs[|runs| - 1])
  }

  ghost predicate CommittedBelow(runs: seq<RunResult>, accepted: int) {
    && (forall i :: 0 <= i < |runs| && runs[i].committed ==> runs[i].runID <= accepted)
    && (forall i, j :: 0 <= i < j < |runs| && runs[i].committed && runs[j].committed ==> runs[i].runID < runs[j].runID)
  }

  /** The accepted version is the last committed run. */
  ghost predicate AcceptedIsLast(p: Progress) {
    exists i :: 0 <= i < |p.runs| && p.runs[i].committed
      && p.runs[i].runID == p.accepted && p.runs[i].evaluation == p.acceptedEval
      && forall j :: i < j < |p.runs| ==> !p.runs[j].committed
  }

  ghost predicate Decided(runs: seq<RunResult>) {
    forall i :: 0 <= i < |runs| ==> runs[i].committed != runs[i].rolledBack
  }

  /** Every recorded evaluation scores some alerts over the same flows. */
  ghost predicate Scored(flows: seq<Flow>, runs: seq<RunResult>) {
    forall i :: 0 <= i < |runs| ==> ScoresSome(flows, runs[i].evaluation)
  }

  ghost predicate ScoresSome(flows: seq<Flow>, ev: Evaluation) {
    exists alerts :: Scores(flows, alerts, ev)
  }

  ghost predicate RunsInv(flows: seq<Flow>, p: Progress) {
    && 0 <= p.accepted < p.next
    && IdsStep(p.runs, p.next) && CommittedBelow(p.runs, p.accepted) && AcceptedIsLast(p)
    && Decided(p.runs) && Scored(flows, p.runs)
  }

  // ----- committed trims -----

  predicate RunThenRule(a: TrimmedRule, b: TrimmedRule) {
    a.runID < b.runID || (a.runID == b.runID && RuleLess(a.rule, b.rule))
  }

  /** The committed trims: in final order already, all of committed runs, no rule twice, and only
      rules the baseline had enabled. */
  ghost predicate TrimsInv(enabled0: set<RuleId>, p: Progress) {
    && Ordered(p.trimmed)
    && (forall i :: 0 <= i < |p.trimmed| ==> p.trimmed[i].runID <= p.accepted)
    && Ids(p.trimmed) <= enabled0
    && |Ids(p.trimmed)| == |p.trimmed|
  }

  // ----- one database -----

  /** In this database the baseline is as it was, and the accepted version is the baseline with
      exactly the committed trims disabled. */
  ghost predicate DbInv(t0: Table, t: Table, p: Progress) {
    && RunRows(t, 0) == RunRows(t0, 0)
    && Enabled(t, p.accepted) == Enabled(t0, 0) - Ids(p.trimmed)
    && SameButEnabled(RunRows(t0, 0), RunRows(t, p.accepted))
  }

  // ----- rates -----

  ghost function CommitCount(runs: seq<RunResult>): nat {
    if runs == [] then 0 else CommitCount(runs[..|runs| - 1]) + if runs[|runs| - 1].committed then 1 else 0
  }

  ghost predicate Within(rate: real, start: real, steps: nat, increase: real) {
    rate <= start + steps as real * increase
  }

  /** Since run `anchor` each commit raised the accepted rates by at most the allowed increase. */
  ghost predicate RatesInv(cfg: Config, flows: seq<Flow>, p: Progress, anchor: nat) {
    && anchor < |p.runs|
    && var k := CommitCount(p.runs[anchor + 1..]);
    && var start := p.runs[anchor].evaluation;
    && (MaliciousSet(flows) != {} ==> Within(p.acceptedEval.missRate, start.missRate, k, cfg.maxMissRateIncrease))
    && (|flows| > 0 ==> Within(p.acceptedEval.falsePositiveRate, start.falsePositiveRate, k, cfg.maxFPRateIncrease))
  }

  // ----- the steps -----

  function Started(cfg: Config, ev: Evaluation): Progress {
    Progress(0, ev, 1, [], [RunResult(0, true, false, cfg.initialFactor, ev)])
  }

  function WithRunID(out: seq<TrimmedRule>, id: int): (r: seq<TrimmedRule>)
    ensures |r| == |out| && forall i :: 0 <= i < |out| ==> r[i] == out[i].(runID := id)
  {
    seq(|out|, i requires 0 <= i < |out| => out[i].(runID := id))
  }

  /** The candidate becomes the accepted version. */
  function Commit(p: Progress, out: seq<TrimmedRule>, factor: real, ev: Evaluation): Progress {
    Progress(p.next, ev, p.next + 1, p.trimmed + WithRunID(out, p.next),
             p.runs + [RunResult(p.next, true, false, factor, ev)])
  }

  /** The candidate is recorded and dropped; the id is used up unless the strategy stops here. */
  function Rollback(p: Progress, factor: real, ev: Evaluation): Progress {
    var r := RunResult(p.next, false, true, factor, ev);
    p.(next := IdAfter(r), runs := p.runs + [r])
  }

  predicate EvaluateCandidate(cfg: Config, accepted: Evaluation, candidate: Evaluation) {
    && !(candidate.maliciousFlows > 0 && candidate.missRate - accepted.missRate > cfg.maxMissRateIncrease)
    && !(candidate.totalFlows > 0 && candidate.falsePositiveRate - accepted.falsePositiveRate > cfg.maxFPRateIncrease)
  }

  // ----- the steps keep the invariants -----

  lemma StartedRuns(cfg: Config, flows: seq<Flow>, ev: Evaluation)
    requires ScoresSome(flows, ev)
    ensures RunsInv(flows, Started(cfg, ev))
  {
    hide ScoresSome;
    var p := Started(cfg, ev);
    assert p.runs[0].committed && p.runs[0].runID == p.accepted;
  }

  lemma CommitRuns(flows: seq<Flow>, p: Progress, out: seq<TrimmedRule>, factor: real, ev: Evaluation)
    requires RunsInv(flows, p) && ScoresSome(flows, ev)
    ensures RunsInv(flows, Commit(p, out, factor, ev))
  {
    hide ScoresSome;
    var q := Commit(p, out, factor, ev);
    assert forall i :: 0 <= i < |p.runs| ==> q.runs[i] == p.runs[i];
    assert q.runs[|p.runs|].committed;
  }

  lemma RollbackRuns(flows: seq<Flow>, p: Progress, factor: real, ev: Evaluation)
    requires RunsInv(flows, p) && ScoresSome(flows, ev)
    ensures RunsInv(flows, Rollback(p, factor, ev))
  {
    hide ScoresSome;
    var q := Rollback(p, factor, ev);
    assert forall i :: 0 <= i < |p.runs| ==> q.runs[i] == p.runs[i];
  }

  lemma IdsOfStamped(out: seq<TrimmedRule>, id: int)
    ensures Ids(WithRunID(out, id)) == Ids(out)
  {
    var s := WithRunID(out, id);
    forall r | r in Ids(out) ensures r in Ids(s) {
      var i :| 0 <= i < |out| && out[i].rule == r;
      assert s[i] in s;
    }
    forall r | r in Ids(s) ensures r in Ids(out) {
      var i :| 0 <= i < |s| && s[i].rule == r;
      assert out[i] in out;
    }
  }

  lemma IdsOfConcat(a: seq<TrimmedRule>, b: seq<TrimmedRule>)
    ensures Ids(a + b) == Ids(a) + Ids(b)
  {
  }

  lemma CommitIds(p: Progress, out: seq<TrimmedRule>, factor: real, ev: Evaluation)
    ensures Ids(Commit(p, out, factor, ev).trimmed) == Ids(p.trimmed) + Ids(out)
  {
    hide Ids;
    IdsOfStamped(out, p.next);
    IdsOfConcat(p.trimmed, WithRunID(out, p.next));
  }

  ghost predicate Ordered(s: seq<TrimmedRule>) {
    forall i, j :: 0 <= i < j < |s| ==> RunThenRule(s[i], s[j])
  }

  lemma OrderedAppend(a: seq<TrimmedRule>, out: seq<TrimmedRule>, accepted: int, next: int)
    requires Ordered(a) && Ascending(out) && accepted < next
    requires forall i :: 0 <= i < |a| ==> a[i].runID <= accepted
    ensures Ordered(a + WithRunID(out, next))
  {
    var b := WithRunID(out, next);
    forall i, j | 0 <= i < j < |a + b| ensures RunThenRule((a + b)[i], (a + b)[j]) {
      if i >= |a| {
        assert RuleLess(out[i - |a|].rule, out[j - |a|].rule);
      }
    }
  }

  lemma CommitTrims(enabled0: set<RuleId>, p: Progress, out: seq<TrimmedRule>, factor: real, ev: Evaluation)
    requires TrimsInv(enabled0, p) && p.accepted < p.next
    requires Ascending(out) && Ids(out) <= enabled0 - Ids(p.trimmed)
    ensures TrimsInv(enabled0, Commit(p, out, factor, ev))
  {
    hide Ids, Ordered;
    CommitIds(p, out, factor, ev);
    AscendingSize(out);
    OrderedAppend(p.trimmed, out, p.accepted, p.next);
    assert Ids(p.trimmed) !! Ids(out);
  }

  /** Cloning into the next id, whether it is kept or not, leaves a database's invariant alone. */
  lemma CloneKeepsDb(t0: Table, t: Table, p: Progress, off: set<RuleId>)
    requires DbInv(t0, t, p) && 0 <= p.accepted < p.next
    ensures DbInv(t0, Cloned(t, p.accepted, p.next, off), p)
  {
    hide RunRows, Enabled, Cloned, SameButEnabled;
    CloneFrame(t, p.accepted, p.next, off, 0);
    CloneFrame(t, p.accepted, p.next, off, p.accepted);
  }

  lemma CommitDb(t0: Table, t: Table, p: Progress, out: seq<TrimmedRule>, factor: real, ev: Evaluation)
    requires DbInv(t0, t, p) && 0 <= p.accepted < p.next
    ensures DbInv(t0, Cloned(t, p.accepted, p.next, Ids(out)), Commit(p, out, factor, ev))
  {
    hide RunRows, Enabled, Cloned;
    CloneFrame(t, p.accepted, p.next, Ids(out), 0);
    CloneEnabled(t, p.accepted, p.next, Ids(out));
    CommitIds(p, out, factor, ev);
    hide Ids;
    var e0, gone, new_ := Enabled(t0, 0), Ids(p.trimmed), Ids(out);
    assert e0 - gone - new_ == e0 - (gone + new_);
  }

  lemma StartedDb(cfg: Config, t0: Table, ev: Evaluation)
    ensures DbInv(t0, t0, Started(cfg, ev))
  {
    assert Ids([]) == {};
    assert Enabled(t0, 0) - {} == Enabled(t0, 0);
  }

  lemma CommitCountSnoc(runs: seq<RunResult>, anchor: nat, r: RunResult)
    requires anchor < |runs|
    ensures CommitCount((runs + [r])[anchor + 1..]) == CommitCount(runs[anchor + 1..]) + if r.committed then 1 else 0
  {
    assert (runs + [r])[anchor + 1..] == runs[anchor + 1..] + [r];
    var s := runs[anchor + 1..];
    assert (s + [r])[..|s|] == s;
  }

  lemma WithinStep(rate: real, rate': real, start: real, k: nat, inc: real)
    requires Within(rate, start, k, inc) && rate' - rate <= inc
    ensures Within(rate', start, k + 1, inc)
  {
    assert (k + 1) as real * inc == k as real * inc + inc;
  }

  /** The guards of the decision are facts about the flows, the same for every run. */
  lemma SameFlowCounts(flows: seq<Flow>, ev: Evaluation)
    requires ScoresSome(flows, ev)
    ensures ev.maliciousFlows > 0 <==> MaliciousSet(flows) != {}
    ensures ev.totalFlows == |flows|
  {
    var alerts :| Scores(flows, alerts, ev);
    hide MaliciousSet, BenignSet, AlertedSet, MissedSet, Unmatched;
  }

  lemma CommitRates(cfg: Config, flows: seq<Flow>, p: Progress, anchor: nat, out: seq<TrimmedRule>, factor: real, ev: Evaluation)
    requires RatesInv(cfg, flows, p, anchor) && ScoresSome(flows, ev)
    requires EvaluateCandidate(cfg, p.acceptedEval, ev)
    ensures RatesInv(cfg, flows, Commit(p, out, factor, ev), anchor)
  {
    hide ScoresSome, MaliciousSet, Within, WithRunID, CommitCount;
    SameFlowCounts(flows, ev);
    var r := RunResult(p.next, true, false, factor, ev);
    CommitCountSnoc(p.runs, anchor, r);
    var k := CommitCount(p.runs[anchor + 1..]);
    var start := p.runs[anchor].evaluation;
    assert Commit(p, out, factor, ev).runs[anchor] == p.runs[anchor];
    if MaliciousSet(flows) != {} {
      WithinStep(p.acceptedEval.missRate, ev.missRate, start.missRate, k, cfg.maxMissRateIncrease);
    }
    if |flows| > 0 {
      WithinStep(p.acceptedEval.falsePositiveRate, ev.falsePositiveRate, start.falsePositiveRate, k, cfg.maxFPRateIncrease);
    }
  }

  lemma RollbackRates(cfg: Config, flows: seq<Flow>, p: Progress, anchor: nat, factor: real, ev: Evaluation)
    requires RatesInv(cfg, flows, p, anchor)
    ensures RatesInv(cfg, flows, Rollback(p, factor, ev), anchor)
  {
    hide MaliciousSet, Within;
    var q := Rollback(p, factor, ev);
    CommitCountSnoc(p.runs, anchor, q.runs[|p.runs|]);
  }

  /** A run can be taken as the anchor when it is the last one and was committed. */
  lemma AnchorAt(cfg: Config, flows: seq<Flow>, p: Progress)
    requires |p.runs| > 0 && p.runs[|p.runs| - 1].evaluation == p.acceptedEval
    ensures RatesInv(cfg, flows, p, |p.runs| - 1)
  {
    assert p.runs[|p.runs|..] == [];
  }
}
