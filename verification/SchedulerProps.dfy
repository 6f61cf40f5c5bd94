/** What the invariant of a scheduler run says: versions, ids, trims, rates, and the views the
    server recomputes from the store. */
module SchedulerProps {
  import opened Prelude
  import opened FlowMatch
  import opened Evaluation
  import opened RuleStore
  import opened Trim
  import opened SchedulerState
  import opened Scheduler
  import Strategies

  /** Committed trims partition what the baseline lost: rules enabled now plus rules trimmed are
      the rules enabled at the start, in the experiment and in every database that started with
      the same enabled rules. */
  lemma EnabledConserved(cfg: Config, flows: seq<Flow>, t0: Tables, t: Tables, p: Progress, anchor: nat)
    requires Inv(cfg, flows, t0, t, p, anchor)
    ensures |Enabled(t.exp, p.accepted)| + |p.trimmed| == |Enabled(t0.exp, 0)|
    ensures Enabled(t0.real_, 0) == Enabled(t0.exp, 0) ==> Enabled(t.real_, p.accepted) == Enabled(t.exp, p.accepted)
    ensures Enabled(t0.base, 0) == Enabled(t0.exp, 0) ==> Enabled(t.base, p.accepted) == Enabled(t.exp, p.accepted)
  {
    hide RunsInv, RatesInv, Enabled, Ids, RunRows, SameButEnabled, Ordered;
    var e0, gone := Enabled(t0.exp, 0), Ids(p.trimmed);
    assert e0 == (e0 - gone) + gone;
  }

  /** No rule is trimmed twice: the trim sets of different commits are disjoint. */
  lemma TrimSetsDisjoint(cfg: Config, flows: seq<Flow>, t0: Tables, t: Tables, p: Progress, anchor: nat, i: nat, j: nat)
    requires Inv(cfg, flows, t0, t, p, anchor) && i < j < |p.trimmed|
    ensures p.trimmed[i].rule != p.trimmed[j].rule
  {
    hide RunsInv, RatesInv, DbInv, Enabled, Ordered;
    if p.trimmed[i].rule == p.trimmed[j].rule {
      RepeatShrinks(p.trimmed, i, j);
    }
  }

  /** The committed trims are in the order of their runs, then of their generator and signature ids. */
  lemma ReportOrder(cfg: Config, flows: seq<Flow>, t0: Tables, t: Tables, p: Progress, anchor: nat, i: nat, j: nat)
    requires Inv(cfg, flows, t0, t, p, anchor) && i < j < |p.trimmed|
    ensures
      var a, b := p.trimmed[i], p.trimmed[j];
      || a.runID < b.runID
      || (a.runID == b.runID && a.rule.gid < b.rule.gid)
      || (a.runID == b.runID && a.rule.gid == b.rule.gid && a.rule.sid < b.rule.sid)
  {
    hide RunsInv, RatesInv, DbInv, Enabled, Ids;
    assert RunThenRule(p.trimmed[i], p.trimmed[j]);
  }

  lemma RepeatShrinks(s: seq<TrimmedRule>, i: nat, j: nat)
    requires i < j < |s| && s[i].rule == s[j].rule
    ensures |Ids(s)| < |s|
  {
    var rest := s[..j] + s[j + 1..];
    forall r | r in Ids(s) ensures r in Ids(rest) {
      var k :| 0 <= k < |s| && s[k].rule == r;
      var l := if k < j then k else if k == j then i else k - 1;
      assert rest[l].rule == r && rest[l] in rest;
    }
    IdsAtMost(rest);
    SubsetSize(Ids(s), Ids(rest));
  }

  lemma {:induction false} IdsAtMost(s: seq<TrimmedRule>)
    ensures |Ids(s)| <= |s|
  {
    if s == [] {
      assert Ids(s) == {};
    } else {
      var front, last := s[..|s| - 1], s[|s| - 1];
      IdsAtMost(front);
      assert s == front + [last];
      assert Ids(s) == Ids(front) + {last.rule};
    }
  }

  // ----- ids -----

  /** Ids never decrease, and two runs share an id only if every run from the first to the one
      before the second stopped at the factor floor; so at most one of them is committed. */
  lemma {:induction false} IdsNondecreasing(runs: seq<RunResult>, next: int, i: nat, j: nat)
    requires IdsStep(runs, next) && i < j < |runs|
    ensures runs[i].runID <= runs[j].runID
    ensures runs[i].runID == runs[j].runID <==> forall k :: i <= k < j ==> FloorStop(runs[k])
    decreases j
  {
    assert runs[j].runID == IdAfter(runs[j - 1]);
    if i < j - 1 {
      IdsNondecreasing(runs, next, i, j - 1);
      assert (forall k :: i <= k < j ==> FloorStop(runs[k]))
        <==> (forall k :: i <= k < j - 1 ==> FloorStop(runs[k])) && FloorStop(runs[j - 1]);
    }
  }

  /** Every id the next clone writes is above the accepted one, and a repeated id is never one
      that was committed. */
  lemma AcceptedNeverOverwritten(flows: seq<Flow>, p: Progress, i: nat)
    requires RunsInv(flows, p) && i < |p.runs| && p.runs[i].committed
    ensures p.runs[i].runID <= p.accepted < p.next
  {
    hide Scored, IdsStep, AcceptedIsLast, Decided;
  }

  // ----- verdicts -----

  /** A rate has not risen by more than the allowed increase. */
  predicate Allowed(rate: real, accepted: real, increase: real) {
    rate <= accepted + increase
  }

  /** What a run that was recorded last says: it is new, has the id that was next, and either became
      the accepted version together with its fresh trims, or left everything accepted as it was. */
  ghost predicate LastRecorded(p: Progress, q: Progress, rules: set<RuleId>, factor: real) {
    && |q.runs| == |p.runs| + 1 && p.runs <= q.runs
    && var r := LastRun(q);
    && r.runID == p.next && r.factor == factor && r.rolledBack == !r.committed
    && p.trimmed <= q.trimmed
    && var more := q.trimmed[|p.trimmed|..];
    && if r.committed
       then q.accepted == p.next && q.acceptedEval == r.evaluation && Ids(more) == rules && q.next == p.next + 1
            && forall i :: 0 <= i < |more| ==> more[i].runID == p.next
       else q.accepted == p.accepted && q.acceptedEval == p.acceptedEval && more == []
            && q.next == if factor / 2.0 <= 0.001 then p.next else p.next + 1
  }

  lemma CommitRecorded(p: Progress, out: seq<TrimmedRule>, factor: real, ev: Evaluation)
    ensures LastRecorded(p, Commit(p, out, factor, ev), Ids(out), factor)
    ensures var r := LastRun(Commit(p, out, factor, ev)); r.committed && r.evaluation == ev
  {
    var added := WithRunID(out, p.next);
    assert (p.trimmed + added)[|p.trimmed|..] == added;
    forall x ensures x in Ids(added) <==> x in Ids(out) {
      if x in Ids(out) {
        var i :| 0 <= i < |out| && out[i].rule == x;
        assert added[i] in added;
      }
      if x in Ids(added) {
        var i :| 0 <= i < |added| && added[i].rule == x;
        assert out[i] in out;
      }
    }
  }

  lemma RollbackRecorded(p: Progress, rules: set<RuleId>, factor: real, ev: Evaluation)
    ensures LastRecorded(p, Rollback(p, factor, ev), rules, factor)
    ensures var r := LastRun(Rollback(p, factor, ev)); !r.committed && r.evaluation == ev
  {
  }

  /** When a candidate is committed: each rate that the flows give a meaning is allowed. */
  lemma VerdictExactly(cfg: Config, flows: seq<Flow>, alerts: seq<Alert>, accepted: Evaluation, ev: Evaluation)
    requires Scores(flows, alerts, ev)
    ensures EvaluateCandidate(cfg, accepted, ev) <==>
      && (MaliciousSet(flows) == {} || Allowed(ev.missRate, accepted.missRate, cfg.maxMissRateIncrease))
      && (flows == [] || Allowed(ev.falsePositiveRate, accepted.falsePositiveRate, cfg.maxFPRateIncrease))
  {
    hide MaliciousSet, BenignSet, AlertedSet, MissedSet, Unmatched;
  }

  /** Every recorded round of a strategy: the run it records scores the alerts of its own evaluation,
      its fifth call, and it is committed if and only if each rate that the flows give a meaning has
      risen by at most the allowed increase. */
  lemma RoundDecided(cfg: Config, flows: seq<Flow>, w: World, enabled0: set<RuleId>, v: Visit)
    requires VisitOk(cfg, flows, w, enabled0, v)
    ensures LastRecorded(v.before, v.after, Fresh(w.decisions(v.time), enabled0, v.before), v.factor)
    ensures
      var ev, accepted := LastRun(v.after).evaluation, v.before.acceptedEval;
      && Scores(flows, w.alerts(v.time + 4), ev)
      && (LastRun(v.after).committed <==>
            && (MaliciousSet(flows) == {} || Allowed(ev.missRate, accepted.missRate, cfg.maxMissRateIncrease))
            && (flows == [] || Allowed(ev.falsePositiveRate, accepted.falsePositiveRate, cfg.maxFPRateIncrease)))
  {
    hide Fresh, Scores, EvaluateCandidate, Ids, Commit, Rollback, MaliciousSet, LastRecorded, Allowed;
    var t := v.time + 1 + EVALUATION_CALL;
    var out, ev :| TriedWith(cfg, flows, w, enabled0, v.before, v.after, v.factor, false, w.decisions(v.time), out, ev, t);
    VerdictExactly(cfg, flows, w.alerts(t), v.before.acceptedEval, ev);
    CommitRecorded(v.before, out, v.factor, ev);
    RollbackRecorded(v.before, Fresh(w.decisions(v.time), enabled0, v.before), v.factor, ev);
  }

  function Pow2(n: nat): (r: nat)
    ensures r > 0
  {
    if n == 0 then 1 else 2 * Pow2(n - 1)
  }

  /** The rounds among the first `i` that were rolled back. */
  function Rollbacks(path: seq<Visit>, i: nat): nat
    requires i <= |path|
  {
    if i == 0 then 0 else Rollbacks(path, i - 1) + if RolledBack(path[i - 1]) then 1 else 0
  }

  lemma Doubled(x: real, y: real, n: nat, all: real)
    requires x * Pow2(n) as real == all && y == x / 2.0
    ensures y * Pow2(n + 1) as real == all
  {
    assert Pow2(n + 1) as real == 2.0 * Pow2(n) as real;
  }

  /** A strategy starts with the configured factor, at its first call, and each rollback before a
      round has halved it once; every round before the last one took seven calls and was no
      rollback that brought the halved factor to the floor. */
  lemma {:induction false} FactorsHalve(cfg: Config, flows: seq<Flow>, w: World, enabled0: set<RuleId>, p: Progress, q: Progress,
                                        path: seq<Visit>, now: nat, i: nat)
    requires Rounds(cfg, flows, w, enabled0, p, q, path, now) && i < |path|
    ensures path[i].factor * Pow2(Rollbacks(path, i)) as real == cfg.initialFactor
    ensures path[i].time == now + 7 * i
    ensures i < |path| - 1 && RolledBack(path[i]) ==> path[i].factor / 2.0 > 0.001
    decreases i
  {
    hide VisitOk, Pow2;
    assert i < |path| - 1 ==> Continues(path, i + 1);
    assert VisitOk(cfg, flows, w, enabled0, path[i]);
    SameFactor(cfg, flows, w, enabled0, path[i]);
    if i > 0 {
      FactorsHalve(cfg, flows, w, enabled0, p, q, path, now, i - 1);
      assert Continues(path, i);
      if RolledBack(path[i - 1]) {
        Doubled(path[i - 1].factor, path[i].factor, Rollbacks(path, i - 1), cfg.initialFactor);
      }
    } else {
      assert Pow2(0) == 1 by { FirstPower(); }
    }
  }

  /** Why a strategy stops, and when: its rounds are used up; or the last one was a rollback that
      brought the halved factor to the floor; or, with one more call, it names no rule that is still
      enabled. */
  lemma StrategyStops(cfg: Config, flows: seq<Flow>, w: World, enabled0: set<RuleId>, from: Stage, to: Stage)
      returns (path: seq<Visit>)
    requires StrategyDone(cfg, flows, w, enabled0, from, to)
    ensures Rounds(cfg, flows, w, enabled0, from.progress, to.progress, path, from.time)
    ensures path == [] || |path| <= cfg.maxRound
    ensures
      var end := from.time + 7 * |path|;
      var used := cfg.maxRound <= |path|;
      var floor := path != [] && RolledBack(path[|path| - 1]) && path[|path| - 1].factor / 2.0 <= 0.001;
      if used || floor then to.time == end
      else to.time == end + 1 && !w.fails(end) && Fresh(w.decisions(end), enabled0, to.progress) == {}
  {
    hide Rounds, Fresh;
    path :| Rounds(cfg, flows, w, enabled0, from.progress, to.progress, path, from.time) && |path| <= RoundLimit(cfg)
         && Exhausted(cfg, w, enabled0, to.progress, path, from.time, to.time);
    if path != [] {
      var last := |path| - 1;
      FactorsHalve(cfg, flows, w, enabled0, from.progress, to.progress, path, from.time, last);
      LastVisit(cfg, flows, w, enabled0, from.progress, to.progress, path, from.time);
    }
  }

  lemma LastVisit(cfg: Config, flows: seq<Flow>, w: World, enabled0: set<RuleId>, p: Progress, q: Progress, path: seq<Visit>, now: nat)
    requires Rounds(cfg, flows, w, enabled0, p, q, path, now) && path != []
    ensures var v := path[|path| - 1]; v.after == q && q.runs != [] && LastRun(q).factor == v.factor
  {
    hide VisitOk;
    var v := path[|path| - 1];
    assert VisitOk(cfg, flows, w, enabled0, v);
    SameFactor(cfg, flows, w, enabled0, v);
  }

  lemma FirstPower()
    ensures Pow2(0) == 1
  {
  }

  lemma SameFactor(cfg: Config, flows: seq<Flow>, w: World, enabled0: set<RuleId>, v: Visit)
    requires VisitOk(cfg, flows, w, enabled0, v)
    ensures v.after.runs != [] && LastRun(v.after).factor == v.factor
  {
    hide Tried;
  }

  /** The SAFE phase that has something to trim commits it, whatever its scores are. */
  lemma SafeCommits(cfg: Config, functions: seq<RegisteredFunction>, flows: seq<Flow>, w: World, enabled0: set<RuleId>,
                    from: Stage, to: Stage)
    requires SafeDone(cfg, functions, flows, w, enabled0, from, to)
    ensures
      var n := |OfType(functions, SAFE)|;
      var rules := Fresh(Executed(OfType(functions, SAFE), w, from.time), enabled0, from.progress);
      if rules == {} then to == Stage(from.progress, from.time + n)
      else
        && LastRecorded(from.progress, to.progress, rules, 1.0) && LastRun(to.progress).committed
        && Scores(flows, w.alerts(from.time + n + 3), LastRun(to.progress).evaluation) && to.time == from.time + n + 6
  {
    hide Fresh, Scores, EvaluateCandidate, Ids, Commit, Rollback, LastRecorded, OfType, Executed;
    var n := |OfType(functions, SAFE)|;
    var raw := Executed(OfType(functions, SAFE), w, from.time);
    if Fresh(raw, enabled0, from.progress) != {} {
      var t := from.time + n + EVALUATION_CALL;
      var out, ev :| TriedWith(cfg, flows, w, enabled0, from.progress, to.progress, 1.0, true, raw, out, ev, t);
      CommitRecorded(from.progress, out, 1.0, ev);
    }
  }

  // ----- rollbacks -----

  /** In every round the strategy answers from the rows it finds under the accepted version. */
  ghost predicate Answers(w: World, rows: int -> seq<TrimDecision>, fraction: real, path: seq<Visit>) {
    forall i :: 0 <= i < |path| ==>
      w.decisions(path[i].time) == Strategies.Proposal(rows(path[i].before.accepted), fraction, path[i].factor)
  }

  /** What a round tries to trim. */
  ghost function TrimOf(w: World, enabled0: set<RuleId>, v: Visit): set<RuleId> {
    Fresh(w.decisions(v.time), enabled0, v.before)
  }

  predicate RolledBack(v: Visit) {
    v.after.runs != [] && LastRun(v.after).rolledBack
  }

  /** A rolled-back round leaves the accepted version and its trims as they were. */
  lemma RollbackLeaves(cfg: Config, flows: seq<Flow>, w: World, enabled0: set<RuleId>, v: Visit)
    requires VisitOk(cfg, flows, w, enabled0, v) && RolledBack(v)
    ensures v.after.accepted == v.before.accepted && v.after.trimmed == v.before.trimmed
  {
    hide Fresh, Scores, EvaluateCandidate, Ids;
    var t := v.time + 1 + EVALUATION_CALL;
    var out, ev :| TriedWith(cfg, flows, w, enabled0, v.before, v.after, v.factor, false, w.decisions(v.time), out, ev, t);
    assert LastRun(Commit(v.before, out, v.factor, ev)).committed;
  }

  lemma FreshOfPrefix(small: seq<TrimDecision>, big: seq<TrimDecision>, enabled0: set<RuleId>, p: Progress, q: Progress)
    requires small <= big && q.trimmed == p.trimmed
    ensures Fresh(small, enabled0, q) <= Fresh(big, enabled0, p)
  {
    assert forall d :: d in small ==> d in big;
  }

  /** As long as rounds are rolled back, each tries to trim a subset of what the one before it
      tried: the halved factor cuts the same rows shorter. */
  lemma {:induction false} RollbacksShrink(cfg: Config, flows: seq<Flow>, w: World, enabled0: set<RuleId>, p: Progress, q: Progress,
                                           path: seq<Visit>, now: nat, rows: int -> seq<TrimDecision>, fraction: real, i: nat, j: nat)
    requires Rounds(cfg, flows, w, enabled0, p, q, path, now) && Answers(w, rows, fraction, path)
    requires i <= j < |path| && forall k :: i <= k < j ==> RolledBack(path[k])
    ensures TrimOf(w, enabled0, path[j]) <= TrimOf(w, enabled0, path[i])
    ensures path[j].before.accepted == path[i].before.accepted && path[j].before.trimmed == path[i].before.trimmed
    decreases j
  {
    hide VisitOk, Fresh, Strategies.Proposal, RolledBack, FloorStop;
    if i < j {
      RollbacksShrink(cfg, flows, w, enabled0, p, q, path, now, rows, fraction, i, j - 1);
      assert VisitOk(cfg, flows, w, enabled0, path[j - 1]) && Continues(path, j) && RolledBack(path[j - 1]);
      hide Rounds;
      ShrinkStep(cfg, flows, w, enabled0, path[j - 1], path[j], rows, fraction);
    }
  }

  lemma ShrinkStep(cfg: Config, flows: seq<Flow>, w: World, enabled0: set<RuleId>, u: Visit, v: Visit,
                   rows: int -> seq<TrimDecision>, fraction: real)
    requires VisitOk(cfg, flows, w, enabled0, u) && RolledBack(u) && v.before == u.after && v.factor == NextFactor(u)
    requires w.decisions(u.time) == Strategies.Proposal(rows(u.before.accepted), fraction, u.factor)
    requires w.decisions(v.time) == Strategies.Proposal(rows(v.before.accepted), fraction, v.factor)
    ensures TrimOf(w, enabled0, v) <= TrimOf(w, enabled0, u)
    ensures v.before.accepted == u.before.accepted && v.before.trimmed == u.before.trimmed
  {
    hide VisitOk, Fresh, Strategies.Proposal;
    RollbackLeaves(cfg, flows, w, enabled0, u);
    Strategies.HalvedProposalIsPrefix(rows(u.before.accepted), fraction, u.factor);
    FreshOfPrefix(w.decisions(v.time), w.decisions(u.time), enabled0, u.before, v.before);
  }

  // ----- rates -----

  /** The accepted rates drift by at most the allowed increase per commit since the anchor (the
      SAFE run, or the baseline without one). That holds exactly when the flows give the rate a
      meaning, or nothing was committed, or the allowed increase is not negative. */
  lemma RateDrift(cfg: Config, flows: seq<Flow>, t0: Tables, t: Tables, p: Progress, anchor: nat)
    requires Inv(cfg, flows, t0, t, p, anchor)
    ensures
      var k, start := CommitCount(p.runs[anchor + 1..]), p.runs[anchor].evaluation;
      && (Within(p.acceptedEval.missRate, start.missRate, k, cfg.maxMissRateIncrease)
          <==> MaliciousSet(flows) != {} || k == 0 || cfg.maxMissRateIncrease >= 0.0)
      && (Within(p.acceptedEval.falsePositiveRate, start.falsePositiveRate, k, cfg.maxFPRateIncrease)
          <==> flows != [] || k == 0 || cfg.maxFPRateIncrease >= 0.0)
  {
    hide RunsInv, TrimsInv, DbInv, ScoresSome, CommitCount, Within, MaliciousSet;
    var k, start, now := CommitCount(p.runs[anchor + 1..]), p.runs[anchor].evaluation, p.acceptedEval;
    AllScored(flows, p, anchor);
    IdleRates(flows, start);
    IdleRates(flows, now);
    OneRate(now.missRate, start.missRate, k, cfg.maxMissRateIncrease, MaliciousSet(flows) != {});
    OneRate(now.falsePositiveRate, start.falsePositiveRate, k, cfg.maxFPRateIncrease, flows != []);
  }

  lemma AllScored(flows: seq<Flow>, p: Progress, i: nat)
    requires RunsInv(flows, p) && i < |p.runs|
    ensures ScoresSome(flows, p.runs[i].evaluation) && ScoresSome(flows, p.acceptedEval)
  {
    hide ScoresSome, IdsStep, Decided;
  }

  lemma OneRate(rate: real, start: real, k: nat, increase: real, measured: bool)
    requires if measured then Within(rate, start, k, increase) else rate == start == 0.0
    ensures Within(rate, start, k, increase) <==> measured || k == 0 || increase >= 0.0
  {
    SignOfProduct(k, increase);
  }

  lemma IdleRates(flows: seq<Flow>, ev: Evaluation)
    requires ScoresSome(flows, ev)
    ensures MaliciousSet(flows) == {} ==> ev.missRate == 0.0
    ensures flows == [] ==> ev.falsePositiveRate == 0.0
  {
    var alerts :| Scores(flows, alerts, ev);
    DetectedPlusMissed(flows, alerts, ev);
  }

  lemma SignOfProduct(k: nat, x: real)
    ensures k as real * x >= 0.0 <==> k == 0 || x >= 0.0
  {
  }

  // ----- the server's views -----

  /** The largest committed id in the store, as the result page recomputes it. */
  method RecomputeFinalRun(runs: seq<RunResult>) returns (final: int)
    ensures final >= 0 && forall i :: 0 <= i < |runs| && runs[i].committed ==> runs[i].runID <= final
    ensures final == 0 || exists i :: 0 <= i < |runs| && runs[i].committed && runs[i].runID == final
  {
    final := 0;
    for i := 0 to |runs|
      invariant final >= 0 && forall j :: 0 <= j < i && runs[j].committed ==> runs[j].runID <= final
      invariant final == 0 || exists j :: 0 <= j < i && runs[j].committed && runs[j].runID == final
    {
      if runs[i].committed && runs[i].runID >= final {
        final := runs[i].runID;
      }
    }
  }

  /** The recomputed id is the scheduler's final id exactly when no committed run left over in the
      store from an earlier analysis has a larger one; a fresh store always agrees. */
  lemma RecomputedIsFinal(flows: seq<Flow>, stale: seq<RunResult>, p: Progress, final: int)
    requires RunsInv(flows, p)
    requires forall i :: 0 <= i < |stale + p.runs| && (stale + p.runs)[i].committed ==> (stale + p.runs)[i].runID <= final
    requires final >= 0
    requires final == 0 || exists i :: 0 <= i < |stale + p.runs| && (stale + p.runs)[i].committed && (stale + p.runs)[i].runID == final
    ensures final == p.accepted <==> forall i :: 0 <= i < |stale| && stale[i].committed ==> stale[i].runID <= p.accepted
  {
    hide Scored, IdsStep, Decided;
    var all := stale + p.runs;
    var last :| 0 <= last < |p.runs| && p.runs[last].committed && p.runs[last].runID == p.accepted;
    assert all[|stale| + last].runID == p.accepted;
    assert forall i :: 0 <= i < |stale| ==> all[i] == stale[i];
    assert forall i :: 0 <= i < |p.runs| ==> all[|stale| + i] == p.runs[i];
    if final != p.accepted {
      assert final > p.accepted;
      var i :| 0 <= i < |all| && all[i].committed && all[i].runID == final;
      assert i < |stale|;
    }
  }
}
