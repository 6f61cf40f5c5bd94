/** Concrete cases in which the code does not keep what its surroundings suggest. */
module Cases {
  import opened Evaluation
  import opened FlowMatch
  import opened RuleStore
  import opened Trim
  import opened SchedulerState
  import opened Scheduler
  import SchedulerProps
  import Overlap = ProtocolOverlap
  import Strategies
  import Sorting
  import Cuts

  // ----- rates -----

  const NO_FLOWS := Evaluation(0, 0, 0, 0, 0, 0, 0, 0, 0.0, 0.0)

  const ONE_RULE: Table := map[RowId(0, RuleId(1, 1)) := Rule(1, true, "", "", "")]

  const TRIMMED := TrimmedRule(RuleId(1, 1), 1, "", "", [], [], 0, ITER, map[])

  lemma NothingScores()
    ensures Scores([], [], NO_FLOWS)
  {
    assert MaliciousSet([]) == {} && BenignSet([]) == {} && AlertedSet([], []) == {};
    assert Unmatched([], []) == {};
  }

  lemma OneRuleProposed(cfg: Config)
    ensures Proposed(Tables(ONE_RULE, ONE_RULE, ONE_RULE), Started(cfg, NO_FLOWS), [TRIMMED])
  {
    assert RowId(0, RuleId(1, 1)) in ONE_RULE;
    assert Ids([TRIMMED]) == {RuleId(1, 1)} by { assert TRIMMED in [TRIMMED]; }
  }

  /** The miss rate has drifted further than the commits since the anchor allow. */
  ghost predicate DriftBroken(cfg: Config, p: Progress, anchor: nat) {
    && anchor < |p.runs|
    && !Within(p.acceptedEval.missRate, p.runs[anchor].evaluation.missRate, CommitCount(p.runs[anchor + 1..]), cfg.maxMissRateIncrease)
  }

  /** Without malicious flows nothing stops a commit, so one commit breaks a negative allowance. */
  lemma RateDriftFails(cfg: Config)
    requires cfg.maxMissRateIncrease < 0.0
    ensures
      var t0, s := Tables(ONE_RULE, ONE_RULE, ONE_RULE), Started(cfg, NO_FLOWS);
      var p := Commit(s, [TRIMMED], 1.0, NO_FLOWS);
      && Inv(cfg, [], t0, AllCloned(t0, s, Ids([TRIMMED])), p, 0)
      && DriftBroken(cfg, p, 0)
  {
    var t0, s := Tables(ONE_RULE, ONE_RULE, ONE_RULE), Started(cfg, NO_FLOWS);
    NothingScores();
    SomeScores([], [], NO_FLOWS);
    OneRuleProposed(cfg);
    StartedKeeps(cfg, [], t0, NO_FLOWS);
    assert EvaluateCandidate(cfg, s.acceptedEval, NO_FLOWS);
    hide Inv, Proposed, ScoresSome, AllCloned, Ids;
    CommitKeeps(cfg, [], t0, t0, s, 0, [TRIMMED], 1.0, NO_FLOWS);
    var p := Commit(s, [TRIMMED], 1.0, NO_FLOWS);
    assert p.runs[1..] == [p.runs[1]] && [p.runs[1]][..0] == [];
    assert CommitCount(p.runs[1..]) == 1;
  }

  // ----- the final run -----

  /** A committed run left over from an earlier analysis is taken for the final one. */
  lemma StaleRunShows(cfg: Config)
    ensures
      var stale, p := [RunResult(5, true, false, 1.0, NO_FLOWS)], Started(cfg, NO_FLOWS);
      var all := stale + p.runs;
      && RunsInv([], p) && p.accepted == 0
      && (forall i :: 0 <= i < |all| && all[i].committed ==> all[i].runID <= 5) && all[0].committed && all[0].runID == 5
  {
    NothingScores();
    SomeScores([], [], NO_FLOWS);
    StartedRuns(cfg, [], NO_FLOWS);
  }

  // ----- ties -----

  /** Two rules may have the same signature id under different generator ids. */
  function Decision(gid: int, sid: int): TrimDecision {
    TrimDecision(RuleId(gid, sid), 1, "", "", "", "", ITER, map[])
  }

  const A := Overlap.Row(Decision(1, 1), 79, 10, 0.5)
  const B := Overlap.Row(Decision(1, 2), 2, 1, 0.5)
  const C := Overlap.Row(Decision(3, 2), 2, 1, 0.5)
  const D := Overlap.Row(Decision(1, 4), 17, 0, 0.5)

  lemma SumsOf()
    ensures Overlap.Sum([A]) == 79 && Overlap.Sum([A, B]) == 81 && Overlap.Sum([A, B, C, D]) == 100
  {
    assert [A][..0] == [] && [A, B][..1] == [A] && [A, B, C][..2] == [A, B] && [A, B, C, D][..3] == [A, B, C];
    assert Overlap.Sum([A]) == 79;
    assert Overlap.Sum([A, B]) == 81;
    assert Overlap.Sum([A, B, C]) == 83;
  }

  /** A group whose two tied rules stand on both sides of the end of the covering prefix: which of
      them is trimmed depends on the sort. */
  lemma GroupTieCase()
    ensures Overlap.GroupTie([A, B, C, D]) && !Overlap.Settled([A, B, C, D])
  {
    var g := [A, B, C, D];
    SumsOf();
    hide Overlap.Sum;
    assert g[..1] == [A] && g[..2] == [A, B];
    assert Overlap.ShortestCover(g, 2) by { assert !Overlap.Enough(g, 1); }
    hide Overlap.ShortestCover, Overlap.Enough;
    assert Sorting.SortOf(g, g, Overlap.RankLe);
    var out := Overlap.Marked(g[2..], 100, 2);
    assert Overlap.LowCoverage(g, g, 2, out) && out != [];
    assert Cuts.Ties(g[1], g[2], Overlap.RankLe) && Overlap.Itself(g[1]) != Overlap.Itself(g[2]);
    assert Cuts.CutTie(g, 2, Overlap.RankLe, Overlap.Itself);
    Overlap.SettledExactly(g);
  }

  const X := Overlap.Candidate(B, 100, 1)
  const Y := Overlap.Candidate(C, 100, 1)

  lemma OneOfTwo(x: Overlap.Candidate, y: Overlap.Candidate, factor: real)
    requires 0.0 < factor <= 1.0
    ensures Strategies.Proposal(Overlap.Decisions([x, y]), 0.25, factor) == [x.row.decision]
  {
    assert 2.0 * 0.25 * factor <= 1.0;
    assert Strategies.ScaledLimit(2, 0.25, factor) == 1;
    var ds := Overlap.Decisions([x, y]);
    assert |ds| == 2 && ds[0] == Overlap.DecisionOf([x, y][0]);
    assert ds[..1] == [ds[0]];
  }

  /** Two tied candidates: after a rollback another sort proposes the one that was not tried. */
  lemma CandidateTieCase()
    ensures
      var one, other := [X, Y], [Y, X];
      && Cuts.CutTie(one, Overlap.Limit(2, 1.0), Overlap.CandidateLe, Overlap.DecisionOf)
      && Sorting.SortOf(one, one, Overlap.CandidateLe) && Sorting.SortOf(one, other, Overlap.CandidateLe)
      && !(multiset(Strategies.Proposal(Overlap.Decisions(other), 0.25, 0.5))
           <= multiset(Strategies.Proposal(Overlap.Decisions(one), 0.25, 1.0)))
  {
    var one, other := [X, Y], [Y, X];
    OneOfTwo(X, Y, 1.0);
    OneOfTwo(Y, X, 0.5);
    assert Strategies.ScaledLimit(2, 0.25, 1.0) == 1;
    assert Overlap.Limit(2, 1.0) == 1;
    assert Cuts.Ties(one[0], one[1], Overlap.CandidateLe) && Overlap.DecisionOf(one[0]) != Overlap.DecisionOf(one[1]);
    assert multiset(one) == multiset(other);
    assert multiset([Y.row.decision])[Y.row.decision] == 1 && multiset([X.row.decision])[Y.row.decision] == 0;
  }
}
