/** The trim scheduler: a baseline run, one unconditional SAFE commit, then for each ITER strategy
    rounds that clone the accepted version, disable the proposal, evaluate, and commit or halve. */
module Scheduler {
  import opened Prelude
  import opened FlowMatch
  import opened Evaluation
  import opened RuleStore
  import opened Trim
  import opened SchedulerState
  import Sorting

  datatype RegisteredFunction = RegisteredFunction(name: string, typ: FunctionType)

  /** Everything outside the scheduler, by the time at which it is consulted: the alerts stored
      under the run id that is being evaluated, the decisions a strategy returns, and failures. */
  datatype World = World(alerts: nat -> seq<Alert>, decisions: nat -> seq<TrimDecision>, fails: nat -> bool)

  datatype Report = Report(finalRunID: int, trimmedRules: seq<TrimmedRule>, runs: seq<RunResult>)

  datatype StoredDecision = StoredDecision(runID: int, rule: RuleId, committed: bool)

  /** The rows of committed runs, in the order in which they were stored. */
  function CommittedRows(ds: seq<StoredDecision>): seq<StoredDecision> {
    if ds == [] then []
    else CommittedRows(ds[..|ds| - 1]) + if ds[|ds| - 1].committed then [ds[|ds| - 1]] else []
  }

  function StoredRows(runID: int, out: seq<TrimmedRule>, committed: bool): (r: seq<StoredDecision>)
    ensures |r| == |out|
  {
    seq(|out|, i requires 0 <= i < |out| => StoredDecision(runID, out[i].rule, committed))
  }

  /** The rows that committed trims leave in the store. */
  function TrimRows(trimmed: seq<TrimmedRule>): (r: seq<StoredDecision>)
    ensures |r| == |trimmed|
  {
    seq(|trimmed|, i requires 0 <= i < |trimmed| => StoredDecision(trimmed[i].runID, trimmed[i].rule, true))
  }

  lemma {:induction false} CommittedOfStored(ds: seq<StoredDecision>, rows: seq<StoredDecision>, committed: bool)
    requires forall x :: x in rows ==> x.committed == committed
    ensures CommittedRows(ds + rows) == CommittedRows(ds) + if committed then rows else []
  {
    if rows == [] {
      assert ds + rows == ds;
    } else {
      var front, last := rows[..|rows| - 1], rows[|rows| - 1];
      CommittedOfStored(ds, front, committed);
      assert (ds + rows)[..|ds + rows| - 1] == ds + front;
      assert last in rows && rows == front + [last];
    }
  }

  /** The rows stored for one run: at least one, all with its id and its verdict. */
  predicate BlockOf(rows: seq<StoredDecision>, r: RunResult) {
    rows != [] && forall i :: 0 <= i < |rows| ==> rows[i].runID == r.runID && rows[i].committed == r.committed
  }

  /** The rows of several runs, run by run, rolled-back ones too. */
  ghost predicate Blocks(rows: seq<StoredDecision>, runs: seq<RunResult>)
    decreases |runs|
  {
    if runs == [] then rows == []
    else exists n :: 0 <= n <= |rows| && Blocks(rows[..n], runs[..|runs| - 1]) && BlockOf(rows[n..], runs[|runs| - 1])
  }

  lemma NoBlocks(ds: seq<StoredDecision>, runs: seq<RunResult>)
    ensures Blocks(ds[|ds|..], runs[|runs|..])
  {
  }

  lemma OneBlock(rows: seq<StoredDecision>, r: RunResult)
    requires BlockOf(rows, r)
    ensures Blocks(rows, [r])
  {
    hide BlockOf;
    assert rows[..0] == [] && rows[0..] == rows && [r][..0] == [];
    assert Blocks(rows[..0], [r][..0]);
  }

  lemma {:induction false} BlocksAppended(a: seq<StoredDecision>, ra: seq<RunResult>, b: seq<StoredDecision>, rb: seq<RunResult>)
    requires Blocks(a, ra) && Blocks(b, rb)
    ensures Blocks(a + b, ra + rb)
    decreases |rb|
  {
    hide BlockOf;
    if rb == [] {
      assert a + b == a && ra + rb == ra;
    } else {
      var last := |rb| - 1;
      var n :| 0 <= n <= |b| && Blocks(b[..n], rb[..last]) && BlockOf(b[n..], rb[last]);
      BlocksAppended(a, ra, b[..n], rb[..last]);
      assert (a + b)[..|a| + n] == a + b[..n] && (a + b)[|a| + n..] == b[n..];
      assert (ra + rb)[..|ra + rb| - 1] == ra + rb[..last];
    }
  }

  /** What the store holds more, over two stretches of runs. */
  lemma BlocksOnwards(d0: seq<StoredDecision>, d1: seq<StoredDecision>, d2: seq<StoredDecision>,
                      r0: seq<RunResult>, r1: seq<RunResult>, r2: seq<RunResult>)
    requires d0 <= d1 <= d2 && r0 <= r1 <= r2
    requires Blocks(d1[|d0|..], r1[|r0|..]) && Blocks(d2[|d1|..], r2[|r1|..])
    ensures Blocks(d2[|d0|..], r2[|r0|..])
  {
    hide Blocks;
    BlocksAppended(d1[|d0|..], r1[|r0|..], d2[|d1|..], r2[|r1|..]);
    assert d1[|d0|..] + d2[|d1|..] == d2[|d0|..] && r1[|r0|..] + r2[|r1|..] == r2[|r0|..];
  }

  /** What a decided candidate leaves in the store: the rows of the trims it adds. */
  lemma DecidedRows(p: Progress, out: seq<TrimmedRule>, factor: real, ev: Evaluation, committed: bool, ds: seq<StoredDecision>)
    ensures
      var q := if committed then Commit(p, out, factor, ev) else Rollback(p, factor, ev);
      && |p.trimmed| <= |q.trimmed| && q.trimmed[..|p.trimmed|] == p.trimmed
      && CommittedRows(ds + StoredRows(p.next, out, committed)) == CommittedRows(ds) + TrimRows(q.trimmed[|p.trimmed|..])
  {
    hide CommittedRows;
    CommittedOfStored(ds, StoredRows(p.next, out, committed), committed);
    if committed {
      var q := Commit(p, out, factor, ev);
      assert q.trimmed[|p.trimmed|..] == WithRunID(out, p.next);
      assert TrimRows(WithRunID(out, p.next)) == StoredRows(p.next, out, true);
    } else {
      assert p.trimmed[|p.trimmed|..] == [];
    }
  }

  /** The analyser's own database. */
  class AnalyserStore {
    var runs: seq<RunResult>
    var decisions: seq<StoredDecision>

    method InsertRunResult(r: RunResult, fault: bool) returns (ok: bool)
      modifies this`runs
      ensures ok == !fault
      ensures runs == if ok then old(runs) + [r] else old(runs)
    {
      if fault { return false; }
      runs := runs + [r];
      return true;
    }

    method InsertTrimDecisions(runID: int, out: seq<TrimmedRule>, committed: bool, fault: bool) returns (ok: bool)
      modifies this`decisions
      ensures ok <==> out == [] || !fault
      ensures decisions == if ok then old(decisions) + StoredRows(runID, out, committed) else old(decisions)
    {
      if |out| == 0 { return true; }
      if fault { return false; }
      var tx := decisions;
      for i := 0 to |out|
        invariant tx == decisions + StoredRows(runID, out[..i], committed)
      {
        assert StoredRows(runID, out[..i + 1], committed)
            == StoredRows(runID, out[..i], committed) + [StoredDecision(runID, out[i].rule, committed)];
        tx := tx + [StoredDecision(runID, out[i].rule, committed)];
      }
      assert out[..|out|] == out;
      decisions := tx;
      return true;
    }
  }

  // ----- the invariant over all three databases -----

  /** The tables of the three instances. */
  datatype Tables = Tables(exp: Table, real_: Table, base: Table)

  ghost predicate Inv(cfg: Config, flows: seq<Flow>, t0: Tables, t: Tables, p: Progress, anchor: nat) {
    && RunsInv(flows, p)
    && TrimsInv(Enabled(t0.exp, 0), p)
    && DbInv(t0.exp, t.exp, p) && DbInv(t0.real_, t.real_, p) && DbInv(t0.base, t.base, p)
    && RatesInv(cfg, flows, p, anchor)
  }

  /** A clone into the next id may have happened in this database, or not. */
  ghost predicate Touched(t: Table, t': Table, p: Progress, off: set<RuleId>) {
    t' == t || t' == Cloned(t, p.accepted, p.next, off)
  }

  ghost function AllCloned(t: Tables, p: Progress, off: set<RuleId>): Tables {
    Tables(Cloned(t.exp, p.accepted, p.next, off), Cloned(t.real_, p.accepted, p.next, off),
           Cloned(t.base, p.accepted, p.next, off))
  }

  lemma TouchedKeeps(cfg: Config, flows: seq<Flow>, t0: Tables, t: Tables, t': Tables, p: Progress, anchor: nat, off: set<RuleId>)
    requires Inv(cfg, flows, t0, t, p, anchor)
    requires Touched(t.exp, t'.exp, p, off) && Touched(t.real_, t'.real_, p, off) && Touched(t.base, t'.base, p, off)
    ensures Inv(cfg, flows, t0, t', p, anchor)
  {
    hide DbInv, TrimsInv, RatesInv, Cloned;
    CloneKeepsDb(t0.exp, t.exp, p, off);
    CloneKeepsDb(t0.real_, t.real_, p, off);
    CloneKeepsDb(t0.base, t.base, p, off);
  }

  /** A trim set the aggregation can return for the accepted version. */
  ghost predicate Proposed(t: Tables, p: Progress, out: seq<TrimmedRule>) {
    Ascending(out) && Ids(out) <= Enabled(t.exp, p.accepted)
  }

  lemma CommitKeeps(cfg: Config, flows: seq<Flow>, t0: Tables, t: Tables, p: Progress, anchor: nat,
                    out: seq<TrimmedRule>, factor: real, ev: Evaluation)
    requires Inv(cfg, flows, t0, t, p, anchor) && Proposed(t, p, out) && ScoresSome(flows, ev)
    requires EvaluateCandidate(cfg, p.acceptedEval, ev)
    ensures Inv(cfg, flows, t0, AllCloned(t, p, Ids(out)), Commit(p, out, factor, ev), anchor)
  {
    CommitAnyKeeps(cfg, flows, t0, t, p, anchor, out, factor, ev);
    hide RunsInv, TrimsInv, DbInv, RatesInv, Cloned, ScoresSome, EvaluateCandidate;
    CommitRates(cfg, flows, p, anchor, out, factor, ev);
  }

  lemma CommitAnyKeeps(cfg: Config, flows: seq<Flow>, t0: Tables, t: Tables, p: Progress, anchor: nat,
                       out: seq<TrimmedRule>, factor: real, ev: Evaluation)
    requires Inv(cfg, flows, t0, t, p, anchor) && Proposed(t, p, out) && ScoresSome(flows, ev)
    ensures
      var q, t' := Commit(p, out, factor, ev), AllCloned(t, p, Ids(out));
      && RunsInv(flows, q) && TrimsInv(Enabled(t0.exp, 0), q)
      && DbInv(t0.exp, t'.exp, q) && DbInv(t0.real_, t'.real_, q) && DbInv(t0.base, t'.base, q)
  {
    assert Enabled(t.exp, p.accepted) == Enabled(t0.exp, 0) - Ids(p.trimmed);
    assert p.accepted < p.next && 0 <= p.accepted;
    hide RunsInv, TrimsInv, DbInv, RatesInv, Cloned, ScoresSome, Ascending, Enabled, Ids, Commit;
    CommitRuns(flows, p, out, factor, ev);
    CommitTrims(Enabled(t0.exp, 0), p, out, factor, ev);
    CommitDb(t0.exp, t.exp, p, out, factor, ev);
    CommitDb(t0.real_, t.real_, p, out, factor, ev);
    CommitDb(t0.base, t.base, p, out, factor, ev);
  }

  lemma RollbackKeeps(cfg: Config, flows: seq<Flow>, t0: Tables, t: Tables, p: Progress, anchor: nat,
                      off: set<RuleId>, factor: real, ev: Evaluation)
    requires Inv(cfg, flows, t0, t, p, anchor) && ScoresSome(flows, ev)
    ensures Inv(cfg, flows, t0, AllCloned(t, p, off), Rollback(p, factor, ev), anchor)
  {
    hide RunsInv, RatesInv, TrimsInv, DbInv, Cloned, ScoresSome;
    var t', q := AllCloned(t, p, off), Rollback(p, factor, ev);
    TouchedKeeps(cfg, flows, t0, t, t', p, anchor, off);
    RollbackRuns(flows, p, factor, ev);
    RollbackRates(cfg, flows, p, anchor, factor, ev);
    SameTrims(Enabled(t0.exp, 0), p, q);
    SameDb(t0.exp, t'.exp, p, q);
    SameDb(t0.real_, t'.real_, p, q);
    SameDb(t0.base, t'.base, p, q);
  }

  lemma SameTrims(enabled0: set<RuleId>, p: Progress, q: Progress)
    requires TrimsInv(enabled0, p) && q.accepted == p.accepted && q.trimmed == p.trimmed
    ensures TrimsInv(enabled0, q)
  {
  }

  lemma SameDb(t0: Table, t: Table, p: Progress, q: Progress)
    requires DbInv(t0, t, p) && q.accepted == p.accepted && q.trimmed == p.trimmed
    ensures DbInv(t0, t, q)
  {
  }

  // ----- what a run does, told by its steps -----

  /** The rules a proposal trims: those it names that the accepted version still enables. */
  ghost function Fresh(raw: seq<TrimDecision>, enabled0: set<RuleId>, p: Progress): set<RuleId> {
    set r | r in enabled0 && r !in Ids(p.trimmed) && Named(raw, r)
  }

  function Decide(cfg: Config, p: Progress, out: seq<TrimmedRule>, factor: real, ev: Evaluation, forced: bool): Progress {
    if forced || EvaluateCandidate(cfg, p.acceptedEval, ev) then Commit(p, out, factor, ev) else Rollback(p, factor, ev)
  }

  /** A proposal was tried: its fresh rules were disabled, the alerts of time `t` scored, and the
      candidate committed or rolled back as the scores call for. */
  ghost predicate TriedWith(cfg: Config, flows: seq<Flow>, w: World, enabled0: set<RuleId>, p: Progress, q: Progress,
                            factor: real, forced: bool, raw: seq<TrimDecision>, out: seq<TrimmedRule>, ev: Evaluation, t: nat) {
    && Ids(out) == Fresh(raw, enabled0, p) && out != []
    && Scores(flows, w.alerts(t), ev) && q == Decide(cfg, p, out, factor, ev, forced)
  }

  ghost predicate Tried(cfg: Config, flows: seq<Flow>, w: World, enabled0: set<RuleId>, p: Progress, q: Progress,
                        factor: real, forced: bool, raw: seq<TrimDecision>, t: nat) {
    exists out, ev :: TriedWith(cfg, flows, w, enabled0, p, q, factor, forced, raw, out, ev, t)
  }

  // The calls of a candidate, counted from the first clone: three clones, the evaluation, and the
  // two inserts. A round consults its strategy before them.
  const EVALUATION_CALL: nat := 3
  const CANDIDATE_CALLS: nat := 6
  const ROUND_CALLS: nat := 7

  /** One recorded round of a strategy: consulted at `time`, tried with `factor`. */
  datatype Visit = Visit(before: Progress, factor: real, time: nat, after: Progress)

  ghost predicate VisitOk(cfg: Config, flows: seq<Flow>, w: World, enabled0: set<RuleId>, v: Visit) {
    && !w.fails(v.time) && Tried(cfg, flows, w, enabled0, v.before, v.after, v.factor, false, w.decisions(v.time), v.time + 1 + EVALUATION_CALL)
    && v.after.runs != [] && LastRun(v.after).factor == v.factor
  }

  function LastRun(p: Progress): RunResult
    requires p.runs != []
  {
    p.runs[|p.runs| - 1]
  }

  function NextFactor(v: Visit): real
    requires v.after.runs != []
  {
    if LastRun(v.after).rolledBack then v.factor / 2.0 else v.factor
  }

  /** The time at which rounds that started at `now` have been made. */
  function TimeAfter(path: seq<Visit>, now: nat): nat {
    if path == [] then now else path[|path| - 1].time + ROUND_CALLS
  }

  /** Round `i` continues the one before it: right after it, from its state, with the factor it leaves. */
  ghost predicate Continues(path: seq<Visit>, i: nat)
    requires 0 < i < |path|
  {
    var v := path[i - 1];
    && path[i].before == v.after && path[i].time == v.time + ROUND_CALLS
    && v.after.runs != [] && path[i].factor == NextFactor(v) && !FloorStop(LastRun(v.after))
  }

  /** From time `now` on, the rounds lead from `p` to `q`, one after the other, the factor halved by
      each rollback and never beyond a floor stop. */
  ghost predicate Rounds(cfg: Config, flows: seq<Flow>, w: World, enabled0: set<RuleId>, p: Progress, q: Progress,
                         path: seq<Visit>, now: nat) {
    && (forall i :: 0 <= i < |path| ==> VisitOk(cfg, flows, w, enabled0, path[i]))
    && (forall i :: 0 < i < |path| ==> Continues(path, i))
    && (if path == [] then q == p
        else path[0].before == p && path[0].time == now && path[0].factor == cfg.initialFactor && path[|path| - 1].after == q)
  }

  /** The strategy was consulted at time `t` and named no rule that is still enabled. */
  ghost predicate NothingProposed(w: World, enabled0: set<RuleId>, q: Progress, t: nat) {
    !w.fails(t) && Fresh(w.decisions(t), enabled0, q) == {}
  }

  /** The rounds of a strategy may not go on: they are used up, or its factor is at the floor. */
  predicate MustStop(cfg: Config, q: Progress, path: seq<Visit>) {
    || |path| == RoundLimit(cfg)
    || (path != [] && q.runs != [] && FloorStop(LastRun(q)))
  }

  /** Why a strategy stopped at `later`: it had to, or the consultation right after its last round
      proposed nothing. */
  ghost predicate Exhausted(cfg: Config, w: World, enabled0: set<RuleId>, q: Progress, path: seq<Visit>, now: nat, later: nat) {
    var t := TimeAfter(path, now);
    if MustStop(cfg, q, path) then later == t else NothingProposed(w, enabled0, q, t) && later == t + 1
  }

  function RoundLimit(cfg: Config): nat {
    if cfg.maxRound > 0 then cfg.maxRound else 0
  }

  /** A state of the scheduler and the time at which it is reached. */
  datatype Stage = Stage(progress: Progress, time: nat)

  ghost predicate StrategyDone(cfg: Config, flows: seq<Flow>, w: World, enabled0: set<RuleId>, from: Stage, to: Stage) {
    exists path ::
      && Rounds(cfg, flows, w, enabled0, from.progress, to.progress, path, from.time) && |path| <= RoundLimit(cfg)
      && Exhausted(cfg, w, enabled0, to.progress, path, from.time, to.time)
  }

  /** The SAFE phase: the fresh decisions of all SAFE strategies, committed without being judged. */
  ghost predicate SafeDone(cfg: Config, functions: seq<RegisteredFunction>, flows: seq<Flow>, w: World, enabled0: set<RuleId>,
                           from: Stage, to: Stage) {
    var safe := OfType(functions, SAFE);
    var raw, t := Executed(safe, w, from.time), from.time + |safe|;
    if Fresh(raw, enabled0, from.progress) == {} then to == Stage(from.progress, t)
    else
      && to.time == t + CANDIDATE_CALLS
      && Tried(cfg, flows, w, enabled0, from.progress, to.progress, 1.0, true, raw, t + EVALUATION_CALL)
  }

  ghost predicate BaselineOf(cfg: Config, flows: seq<Flow>, w: World, p: Progress) {
    exists ev :: Scores(flows, w.alerts(0), ev) && p == Started(cfg, ev)
  }

  /** A completed run: the baseline, evaluated and stored by the first two calls, the SAFE phase,
      and every ITER strategy in order, each from where the one before it stopped. */
  ghost predicate RunDone(cfg: Config, functions: seq<RegisteredFunction>, flows: seq<Flow>, w: World, enabled0: set<RuleId>,
                          stages: seq<Stage>) {
    var iters := OfType(functions, ITER);
    && |stages| == |iters| + 2
    && stages[0].time == 2 && BaselineOf(cfg, flows, w, stages[0].progress)
    && SafeDone(cfg, functions, flows, w, enabled0, stages[0], stages[1])
    && (forall f :: 0 <= f < |iters| ==> Leg(cfg, flows, w, enabled0, stages, f))
  }

  /** The f-th ITER strategy leads from one stage to the next. */
  ghost predicate Leg(cfg: Config, flows: seq<Flow>, w: World, enabled0: set<RuleId>, stages: seq<Stage>, f: nat)
    requires f + 2 < |stages|
  {
    StrategyDone(cfg, flows, w, enabled0, stages[f + 1], stages[f + 2])
  }

  lemma FreshIs(cfg: Config, flows: seq<Flow>, t0: Tables, t: Tables, p: Progress, anchor: nat, typ: FunctionType,
                raw: seq<TrimDecision>, out: seq<TrimmedRule>)
    requires Inv(cfg, flows, t0, t, p, anchor) && Aggregated(t.exp, p.accepted, typ, raw, out)
    ensures Ids(out) == Fresh(raw, Enabled(t0.exp, 0), p) && (out == [] <==> Ids(out) == {})
  {
    hide RunsInv, TrimsInv, RatesInv, Enabled, EntryOf, Named;
    assert Enabled(t.exp, p.accepted) == Enabled(t0.exp, 0) - Ids(p.trimmed);
    if out != [] {
      assert out[0] in out;
      assert out[0].rule in Ids(out);
    }
  }

  lemma FreshOfSigned(ds: seq<TrimDecision>, f: RegisteredFunction, enabled0: set<RuleId>, p: Progress)
    ensures Fresh(Signed(ds, f), enabled0, p) == Fresh(ds, enabled0, p)
  {
    var s := Signed(ds, f);
    assert forall i :: 0 <= i < |ds| ==> s[i].rule == ds[i].rule;
    forall r ensures Named(s, r) <==> Named(ds, r) {
      if Named(s, r) {
        var i :| 0 <= i < |s| && s[i].rule == r;
        assert ds[i] in ds;
      }
      if Named(ds, r) {
        var i :| 0 <= i < |ds| && ds[i].rule == r;
        assert s[i] in s;
      }
    }
  }

  lemma IsTried(cfg: Config, flows: seq<Flow>, w: World, enabled0: set<RuleId>, p: Progress, q: Progress, factor: real,
                forced: bool, raw: seq<TrimDecision>, out: seq<TrimmedRule>, ev: Evaluation, t: nat)
    requires TriedWith(cfg, flows, w, enabled0, p, q, factor, forced, raw, out, ev, t)
    ensures Tried(cfg, flows, w, enabled0, p, q, factor, forced, raw, t)
  {
  }

  lemma RoundsMore(cfg: Config, flows: seq<Flow>, w: World, enabled0: set<RuleId>, p: Progress, q: Progress,
                   path: seq<Visit>, now: nat, v: Visit)
    requires Rounds(cfg, flows, w, enabled0, p, q, path, now) && VisitOk(cfg, flows, w, enabled0, v)
    requires v.before == q && v.time == TimeAfter(path, now)
    requires if path == [] then v.factor == cfg.initialFactor
             else q.runs != [] && v.factor == NextFactor(path[|path| - 1]) && !FloorStop(LastRun(q))
    ensures Rounds(cfg, flows, w, enabled0, p, v.after, path + [v], now)
  {
    hide VisitOk, NextFactor, FloorStop;
    forall i | 0 < i < |path| + 1 ensures Continues(path + [v], i) {
      assert i < |path| ==> Continues(path, i);
    }
  }

  // ----- the pieces of a round -----

  method FunctionsByType(functions: seq<RegisteredFunction>, typ: FunctionType) returns (out: seq<RegisteredFunction>)
    ensures out == OfType(functions, typ)
  {
    out := [];
    for i := 0 to |functions|
      invariant out == OfType(functions[..i], typ)
    {
      assert functions[..i + 1][..i] == functions[..i];
      if functions[i].typ == typ { out := out + [functions[i]]; }
    }
    assert functions[..|functions|] == functions;
  }

  function OfType(functions: seq<RegisteredFunction>, typ: FunctionType): seq<RegisteredFunction> {
    if functions == [] then [] else
    OfType(functions[..|functions| - 1], typ)
    + if functions[|functions| - 1].typ == typ then [functions[|functions| - 1]] else []
  }

  /** The strategies of a type are those registered with it, in the order of registration. */
  lemma {:induction false} OfTypeInOrder(functions: seq<RegisteredFunction>, typ: FunctionType) returns (places: seq<nat>)
    ensures Ascends(places, |functions|) && |OfType(functions, typ)| == |places|
    ensures forall k :: 0 <= k < |functions| ==> (k in places <==> functions[k].typ == typ)
    ensures forall i :: 0 <= i < |places| ==> OfType(functions, typ)[i] == functions[places[i]]
  {
    if functions == [] {
      places := [];
    } else {
      var n := |functions| - 1;
      places := OfTypeInOrder(functions[..n], typ);
      assert forall i :: 0 <= i < |places| ==> functions[..n][places[i]] == functions[places[i]];
      AscendsMore(places, n);
      if functions[n].typ == typ {
        places := places + [n];
      }
    }
  }

  /** `part` is a strategy's answer, each decision signed with the strategy's name and type. */
  ghost predicate SignedBy(part: seq<TrimDecision>, raw: seq<TrimDecision>, f: RegisteredFunction) {
    |part| == |raw| && forall k :: 0 <= k < |raw| ==> part[k] == raw[k].(fn := f.name, typ := f.typ)
  }

  /** The answers stand one after the other: behind those of the strategies before it, strategy `i`
      has its signed answer to the consultation at `now + i`. */
  lemma {:induction false} ExecutedPart(fs: seq<RegisteredFunction>, w: World, now: nat, i: nat)
      returns (part: seq<TrimDecision>, back: seq<TrimDecision>)
    requires i < |fs|
    ensures Executed(fs, w, now) == Executed(fs[..i], w, now) + part + back
    ensures SignedBy(part, w.decisions(now + i), fs[i]) && (i == |fs| - 1 ==> back == [])
  {
    var n := |fs| - 1;
    var last := Signed(w.decisions(now + n), fs[n]);
    assert SignedBy(last, w.decisions(now + n), fs[n]);
    assert Executed(fs, w, now) == Executed(fs[..n], w, now) + last;
    hide SignedBy, Executed, Signed;
    if i == n {
      part, back := last, [];
    } else {
      var rest;
      part, rest := ExecutedPart(fs[..n], w, now, i);
      assert fs[..n][..i] == fs[..i];
      back := rest + last;
    }
  }

  /** The SAFE strategies' decisions, one after the other, signed with the strategy's name. */
  method Execute(functions: seq<RegisteredFunction>, typ: FunctionType, w: World, now: nat)
      returns (ok: bool, out: seq<TrimDecision>, later: nat)
    ensures
      var fs := OfType(functions, typ);
      && Made(ok, w, now, later, |fs|)
      && (ok ==> out == Executed(fs, w, now))
      && (!ok ==> out == [])
  {
    assert functions[..0] == [] && functions[..|functions|] == functions;
    assert Consulted([], typ, w, now, [], now);
    hide Consulted, Signed, OfType;
    out, later := [], now;
    for i := 0 to |functions|
      invariant Consulted(functions[..i], typ, w, now, out, later)
    {
      ConsultedStep(functions, typ, w, now, out, later, i);
      if functions[i].typ != typ { continue; }
      if w.fails(later) {
        return false, [], later + 1;
      }
      var signed := Sign(w.decisions(later), functions[i]);
      out, later := out + signed, later + 1;
    }
    ok := true;
    ConsultedAll(functions, typ, w, now, out, later);
  }

  /** What the strategies of the type, consulted so far without a failure, have returned. */
  predicate Consulted(functions: seq<RegisteredFunction>, typ: FunctionType, w: World, now: nat, out: seq<TrimDecision>, later: nat) {
    var fs := OfType(functions, typ);
    Made(true, w, now, later, |fs|) && out == Executed(fs, w, now)
  }

  lemma ConsultedAll(functions: seq<RegisteredFunction>, typ: FunctionType, w: World, now: nat, out: seq<TrimDecision>, later: nat)
    requires Consulted(functions, typ, w, now, out, later)
    ensures Made(true, w, now, later, |OfType(functions, typ)|) && out == Executed(OfType(functions, typ), w, now)
  {
  }

  lemma ConsultedStep(functions: seq<RegisteredFunction>, typ: FunctionType, w: World, now: nat, out: seq<TrimDecision>, later: nat, i: nat)
    requires i < |functions| && Consulted(functions[..i], typ, w, now, out, later)
    ensures functions[i].typ != typ ==> Consulted(functions[..i + 1], typ, w, now, out, later)
    ensures functions[i].typ == typ && !w.fails(later) ==>
      Consulted(functions[..i + 1], typ, w, now, out + Signed(w.decisions(later), functions[i]), later + 1)
    ensures functions[i].typ == typ && w.fails(later) ==> Made(false, w, now, later + 1, |OfType(functions, typ)|)
  {
    var fs := OfType(functions[..i], typ);
    hide Signed, Executed, OfType, Went, NoneFails;
    TypeStep(functions, typ, i);
    OfTypePrefix(functions, typ, i + 1);
    ExecutedStep(fs, functions[i], w, now);
    AlsoMade(w, now, later, |fs|);
    if functions[i].typ == typ && w.fails(later) {
      MadeFewer(w, now, later + 1, |fs| + 1, |OfType(functions, typ)|);
    }
  }

  /** The calls from `from` on went well up to the one that failed, the last before `to`. */
  predicate FailedAt(w: World, from: nat, to: nat) {
    from < to && w.fails(to - 1) && NoneFails(w, from, to - 1)
  }

  /** How the calls from `from` to `to` went. */
  predicate Went(ok: bool, w: World, from: nat, to: nat) {
    if ok then from <= to && NoneFails(w, from, to) else FailedAt(w, from, to)
  }

  lemma NoCalls(w: World, now: nat)
    ensures Went(true, w, now, now)
  {
  }

  lemma MoreCalls(ok: bool, w: World, from: nat, mid: nat, to: nat)
    requires Went(true, w, from, mid) && Went(ok, w, mid, to)
    ensures Went(ok, w, from, to)
  {
  }

  /** Of `n` calls in turn all were made, exactly when none of them fails, or those up to the first
      that does. */
  predicate Made(ok: bool, w: World, from: nat, to: nat, n: nat) {
    && Went(ok, w, from, to) && to <= from + n
    && (ok <==> NoneFails(w, from, from + n)) && (ok ==> to == from + n)
  }

  lemma MadeOne(w: World, t: nat)
    ensures Made(!w.fails(t), w, t, t + 1, 1)
  {
  }

  lemma MadeMore(ok: bool, w: World, from: nat, mid: nat, to: nat, m: nat, n: nat)
    requires Made(true, w, from, mid, m) && Made(ok, w, mid, to, n)
    ensures Made(ok, w, from, to, m + n)
  {
  }

  /** One call more. */
  lemma AlsoMade(w: World, from: nat, to: nat, n: nat)
    requires Made(true, w, from, to, n)
    ensures Made(!w.fails(to), w, from, to + 1, n + 1)
  {
    hide Made;
    MadeOne(w, to);
    MadeMore(!w.fails(to), w, from, to, to + 1, n, 1);
  }

  lemma MadeFewer(w: World, from: nat, to: nat, m: nat, n: nat)
    requires Made(false, w, from, to, m) && m <= n
    ensures Made(false, w, from, to, n)
  {
  }

  predicate NoneFails(w: World, from: nat, to: nat) {
    forall t :: from <= t < to ==> !w.fails(t)
  }

  lemma ExecutedStep(fs: seq<RegisteredFunction>, f: RegisteredFunction, w: World, now: nat)
    ensures Executed(fs + [f], w, now) == Executed(fs, w, now) + Signed(w.decisions(now + |fs|), f)
  {
    hide Signed;
    assert (fs + [f])[..|fs|] == fs;
  }

  lemma TypeStep(functions: seq<RegisteredFunction>, typ: FunctionType, i: nat)
    requires i < |functions|
    ensures OfType(functions[..i + 1], typ)
         == if functions[i].typ == typ then OfType(functions[..i], typ) + [functions[i]] else OfType(functions[..i], typ)
  {
    assert functions[..i + 1][..i] == functions[..i];
  }

  lemma {:induction false} OfTypePrefix(functions: seq<RegisteredFunction>, typ: FunctionType, n: nat)
    requires n <= |functions|
    ensures |OfType(functions[..n], typ)| <= |OfType(functions, typ)|
    decreases |functions| - n
  {
    if n == |functions| {
      assert functions[..n] == functions;
    } else {
      TypeStep(functions, typ, n);
      OfTypePrefix(functions, typ, n + 1);
    }
  }

  function Signed(ds: seq<TrimDecision>, f: RegisteredFunction): (r: seq<TrimDecision>)
    ensures |r| == |ds|
  {
    seq(|ds|, i requires 0 <= i < |ds| => ds[i].(fn := f.name, typ := f.typ))
  }

  /** The decisions of strategies consulted one after the other from time `now`. */
  function Executed(fs: seq<RegisteredFunction>, w: World, now: nat): seq<TrimDecision> {
    if fs == [] then []
    else Executed(fs[..|fs| - 1], w, now) + Signed(w.decisions(now + |fs| - 1), fs[|fs| - 1])
  }

  method Sign(ds: seq<TrimDecision>, f: RegisteredFunction) returns (out: seq<TrimDecision>)
    ensures out == Signed(ds, f)
  {
    out := [];
    for i := 0 to |ds|
      invariant |out| == i && forall j :: 0 <= j < i ==> out[j] == ds[j].(fn := f.name, typ := f.typ)
    {
      out := out + [ds[i].(fn := f.name, typ := f.typ)];
    }
  }

  function RulesOf(out: seq<TrimmedRule>): (r: seq<RuleId>)
    ensures |r| == |out|
    ensures (set x | x in r) == Ids(out)
  {
    var r := seq(|out|, i requires 0 <= i < |out| => out[i].rule);
    assert (set x | x in r) == Ids(out) by {
      forall x | x in Ids(out) ensures x in r {
        var i :| 0 <= i < |out| && out[i].rule == x;
        assert r[i] == x;
      }
    }
    r
  }

  method CloneRulesForRun(exp: RuleDB, real_: RuleDB, base: RuleDB, ghost p: Progress, from: int, to: int,
                          out: seq<TrimmedRule>, w: World, now: nat) returns (ok: bool, later: nat)
    requires exp != real_ && real_ != base && exp != base
    requires from == p.accepted && to == p.next
    modifies exp, real_, base
    ensures Touched(old(exp.rules), exp.rules, p, Ids(out)) && Touched(old(real_.rules), real_.rules, p, Ids(out))
         && Touched(old(base.rules), base.rules, p, Ids(out))
    ensures ok ==>
      Tables(exp.rules, real_.rules, base.rules) == AllCloned(old(Tables(exp.rules, real_.rules, base.rules)), p, Ids(out))
    ensures Made(ok, w, now, later, 3)
  {
    hide Cloned, Ids;
    later := now + 1;
    ok := exp.CloneRulesInDB(from, to, RulesOf(out), w.fails(now));
    if !ok { return; }
    later := later + 1;
    ok := real_.CloneRulesInDB(from, to, RulesOf(out), w.fails(now + 1));
    if !ok { return; }
    later := later + 1;
    ok := base.CloneRulesInDB(from, to, RulesOf(out), w.fails(now + 2));
  }

  /** Snort on the three captures, then the score of the experiment's alerts. */
  method RunAndEvaluate(fs: FlowSet, w: World, now: nat) returns (ok: bool, ev: Evaluation, later: nat)
    requires Indexed(fs)
    ensures Made(ok, w, now, later, 1)
    ensures ok ==> Scores(fs.flows, w.alerts(now), ev)
  {
    later := now + 1;
    ok := !w.fails(now);
    ev := EvaluateAlerts(fs, w.alerts(now));
  }

  /** One recorded candidate: clone, run, evaluate, decide, store. `forced` is the SAFE phase,
      which commits without a decision. */
  method TryCandidate(cfg: Config, exp: RuleDB, real_: RuleDB, base: RuleDB, store: AnalyserStore, fs: FlowSet,
                      w: World, now: nat, p: Progress, out: seq<TrimmedRule>, factor: real, forced: bool,
                      ghost t0: Tables, ghost anchor: nat)
      returns (ok: bool, q: Progress, later: nat)
    requires exp != real_ && real_ != base && exp != base
    requires Indexed(fs)
    requires Inv(cfg, fs.flows, t0, Tables(exp.rules, real_.rules, base.rules), p, anchor)
    requires Proposed(Tables(exp.rules, real_.rules, base.rules), p, out) && out != []
    modifies exp, real_, base, store
    ensures Made(ok, w, now, later, CANDIDATE_CALLS)
    ensures !ok ==> q == p && Inv(cfg, fs.flows, t0, Tables(exp.rules, real_.rules, base.rules), p, anchor)
    ensures ok ==> Inv(cfg, fs.flows, t0, Tables(exp.rules, real_.rules, base.rules), q, if forced then |p.runs| else anchor)
    ensures ok ==> exists ev :: Scores(fs.flows, w.alerts(now + EVALUATION_CALL), ev) && q == Decide(cfg, p, out, factor, ev, forced)
    ensures ok ==> |q.runs| == |p.runs| + 1 && q.runs[..|p.runs|] == p.runs
    ensures ok ==> store.runs == old(store.runs) + [q.runs[|p.runs|]]
    ensures ok ==>
      && |p.trimmed| <= |q.trimmed| && q.trimmed[..|p.trimmed|] == p.trimmed
      && CommittedRows(store.decisions) == CommittedRows(old(store.decisions)) + TrimRows(q.trimmed[|p.trimmed|..])
    ensures ok ==> RowsAdded(old(store.decisions), store.decisions, p.next, out, q.runs[|p.runs|])
  {
    hide Inv, Touched, AllCloned, EvaluateCandidate, CommittedRows, Proposed, ScoresSome, Ids, Scores, NoneFails, Went, TrimRows, StoredRows, RowsAdded;
    ghost var t := Tables(exp.rules, real_.rules, base.rules);
    q := p;
    ok, later := CloneRulesForRun(exp, real_, base, p, p.accepted, p.next, out, w, now);
    ghost var t' := Tables(exp.rules, real_.rules, base.rules);
    TouchedKeeps(cfg, fs.flows, t0, t, t', p, anchor, Ids(out));
    if !ok {
      MadeFewer(w, now, later, 3, CANDIDATE_CALLS);
      return;
    }
    var ev;
    ok, ev, later := RunAndEvaluate(fs, w, later);
    MadeMore(ok, w, now, now + 3, later, 3, 1);
    if !ok {
      MadeFewer(w, now, later, 4, CANDIDATE_CALLS);
      return;
    }
    SomeScores(fs.flows, w.alerts(now + EVALUATION_CALL), ev);
    var committed := forced || EvaluateCandidate(cfg, p.acceptedEval, ev);
    var decided := if committed then Commit(p, out, factor, ev) else Rollback(p, factor, ev);
    Kept(cfg, fs.flows, t0, t, p, anchor, out, factor, ev, forced);
    ok := store.InsertTrimDecisions(p.next, out, committed, w.fails(later));
    AlsoMade(w, now, later, 4);
    later := later + 1;
    if !ok {
      MadeFewer(w, now, later, 5, CANDIDATE_CALLS);
      return;
    }
    DecidedRows(p, out, factor, ev, committed, old(store.decisions));
    CandidateRows(old(store.decisions), p.next, out, committed, decided.runs[|p.runs|]);
    ok := store.InsertRunResult(decided.runs[|p.runs|], w.fails(later));
    AlsoMade(w, now, later, 5);
    later := later + 1;
    if !ok { return; }
    q := decided;
    assert Scores(fs.flows, w.alerts(now + EVALUATION_CALL), ev) && q == Decide(cfg, p, out, factor, ev, forced);
  }

  /** One row was added for each rule of the candidate, with the run's id and its verdict, whether
      committed or rolled back. */
  ghost predicate RowsAdded(was: seq<StoredDecision>, now: seq<StoredDecision>, run: int, out: seq<TrimmedRule>, r: RunResult) {
    && was <= now && |now| == |was| + |out|
    && (forall i :: 0 <= i < |out| ==> now[|was|..][i] == StoredDecision(run, out[i].rule, r.committed))
    && Blocks(now[|was|..], [r])
  }

  lemma CandidateRows(was: seq<StoredDecision>, run: int, out: seq<TrimmedRule>, committed: bool, r: RunResult)
    requires out != [] && r.runID == run && r.committed == committed
    ensures RowsAdded(was, was + StoredRows(run, out, committed), run, out, r)
  {
    var rows := StoredRows(run, out, committed);
    assert (was + rows)[|was|..] == rows;
    OneBlock(rows, r);
    hide Blocks;
  }

  lemma SomeScores(flows: seq<Flow>, alerts: seq<Alert>, ev: Evaluation)
    requires Scores(flows, alerts, ev)
    ensures ScoresSome(flows, ev)
  {
    hide Scores;
  }

  lemma Kept(cfg: Config, flows: seq<Flow>, t0: Tables, t: Tables, p: Progress, anchor: nat,
             out: seq<TrimmedRule>, factor: real, ev: Evaluation, forced: bool)
    requires Inv(cfg, flows, t0, t, p, anchor) && Proposed(t, p, out) && ScoresSome(flows, ev)
    ensures
      var q := if forced || EvaluateCandidate(cfg, p.acceptedEval, ev) then Commit(p, out, factor, ev) else Rollback(p, factor, ev);
      Inv(cfg, flows, t0, AllCloned(t, p, Ids(out)), q, if forced then |p.runs| else anchor)
  {
    hide RunsInv, TrimsInv, DbInv, RatesInv, Cloned, ScoresSome, Proposed, AllCloned;
    if forced {
      CommitAnyKeeps(cfg, flows, t0, t, p, anchor, out, factor, ev);
      AnchorAt(cfg, flows, Commit(p, out, factor, ev));
    } else if EvaluateCandidate(cfg, p.acceptedEval, ev) {
      CommitKeeps(cfg, flows, t0, t, p, anchor, out, factor, ev);
    } else {
      RollbackKeeps(cfg, flows, t0, t, p, anchor, Ids(out), factor, ev);
    }
  }

  // ----- the whole run -----

  predicate NotAfterInReport(a: TrimmedRule, b: TrimmedRule) {
    !RunThenRule(b, a)
  }

  lemma ReportOrderTotal()
    ensures Sorting.TotalPreorder(NotAfterInReport)
  {
  }

  /** The final sort finds the committed trims in order already, so its instability cannot show. */
  method SortTrimmedRules(s: seq<TrimmedRule>) returns (r: seq<TrimmedRule>)
    requires Ordered(s)
    ensures r == s
  {
    ReportOrderTotal();
    r := Sorting.SortSlice(s, NotAfterInReport);
    forall x, y | x in s && y in s && NotAfterInReport(x, y) && NotAfterInReport(y, x) ensures x == y {
      var i :| 0 <= i < |s| && s[i] == x;
      var j :| 0 <= j < |s| && s[j] == y;
    }
    Sorting.SortUnique(s, r, NotAfterInReport);
  }

  /** The most runs a configuration can record. */
  function MaxRuns(cfg: Config, functions: seq<RegisteredFunction>): nat {
    1 + (if OfType(functions, SAFE) != [] then 1 else 0)
    + |OfType(functions, ITER)| * RoundLimit(cfg)
  }

  /** The most calls a strategy can make, and a whole run. */
  function StrategyCalls(cfg: Config): nat {
    ROUND_CALLS * RoundLimit(cfg) + 1
  }

  function MaxCalls(cfg: Config, functions: seq<RegisteredFunction>): nat {
    2 + |OfType(functions, SAFE)| + CANDIDATE_CALLS + |OfType(functions, ITER)| * StrategyCalls(cfg)
  }

  lemma ProposedByAggregation(t: Tables, p: Progress, typ: FunctionType, raw: seq<TrimDecision>, out: seq<TrimmedRule>)
    requires Aggregated(t.exp, p.accepted, typ, raw, out)
    ensures Proposed(t, p, out)
  {
    hide Enabled, Ids, EntryOf;
  }

  /** On success the report is the accepted state. On a failure nothing that was accepted is lost:
      the invariant holds of the last state, or nothing was touched yet. */
  method Run(cfg: Config, functions: seq<RegisteredFunction>, exp: RuleDB, real_: RuleDB, base: RuleDB,
             store: AnalyserStore, fs: FlowSet, w: World)
      returns (r: Result<Report>, ghost p: Progress, ghost anchor: nat, ghost stages: seq<Stage>, ghost reached: nat)
    requires exp != real_ && real_ != base && exp != base
    requires Indexed(fs)
    modifies exp, real_, base, store
    ensures p.runs != [] ==>
      Inv(cfg, fs.flows, old(Tables(exp.rules, real_.rules, base.rules)), Tables(exp.rules, real_.rules, base.rules), p, anchor)
    ensures p.runs == [] ==> Tables(exp.rules, real_.rules, base.rules) == old(Tables(exp.rules, real_.rules, base.rules))
    ensures anchor <= 1
    ensures r.Ok? ==> p.runs != [] && r.value == Report(p.accepted, p.trimmed, p.runs)
    ensures r.Ok? ==>
      RunDone(cfg, functions, fs.flows, w, Enabled(old(exp.rules), 0), stages) && stages[|stages| - 1].progress == p
    ensures Went(r.Ok?, w, 0, reached) && reached <= MaxCalls(cfg, functions)
    ensures r.Ok? ==> stages[|stages| - 1].time == reached
    ensures r.Ok? ==> |p.runs| <= MaxRuns(cfg, functions)
    ensures r.Ok? ==> store.runs == old(store.runs) + p.runs
    ensures r.Ok? ==> CommittedRows(store.decisions) == CommittedRows(old(store.decisions)) + TrimRows(p.trimmed)
    ensures r.Ok? ==>
      old(store.decisions) <= store.decisions && Blocks(store.decisions[|old(store.decisions)|..], p.runs[1..])
  {
    hide Inv, CommittedRows, Blocks, EvaluateCandidate, Started, ScoresSome, Scores, OfType, Leg, SafeDone, Enabled, RunDone, NoneFails;
    ghost var t0 := Tables(exp.rules, real_.rules, base.rules);
    ghost var enabled0 := Enabled(exp.rules, 0);
    anchor, stages := 0, [];
    var ok, s, now := Baseline(cfg, store, fs, w, t0);
    reached := now;
    if !ok { return Err("baseline run"), s.(runs := []), anchor, stages, reached; }
    hide Went;

    stages := [Stage(s, now)];
    ghost var before, start := now, s;
    ok, s, now, anchor := SafePhase(cfg, functions, exp, real_, base, store, fs, w, now, s, t0);
    MoreCalls(ok, w, 0, before, now);
    p, reached := s, now;
    ghost var safe, stored := s, store.decisions;
    if !ok { return Err("safe phase"), p, anchor, stages, reached; }
    stages := stages + [Stage(s, now)];

    var failed;
    ok, failed, s, stages, reached := IterPhase(cfg, functions, exp, real_, base, store, fs, w, now, s, t0, anchor, stages);
    MoreCalls(ok, w, 0, now, reached);
    p := s;
    if !ok { return Err(failed), p, anchor, stages, reached; }
    BlocksOnwards(old(store.decisions), stored, store.decisions, start.runs, safe.runs, s.runs);
    IsRunDone(cfg, functions, fs.flows, w, enabled0, stages);
    var trimmed := SortedReport(cfg, fs.flows, t0, Tables(exp.rules, real_.rules, base.rules), s, anchor);
    r := Ok(Report(s.accepted, trimmed, s.runs));
  }

  /** The run of the untouched rules, evaluated and stored. */
  method Baseline(cfg: Config, store: AnalyserStore, fs: FlowSet, w: World, ghost t0: Tables)
      returns (ok: bool, s: Progress, later: nat)
    requires Indexed(fs)
    modifies store
    ensures Made(ok, w, 0, later, 2)
    ensures |s.runs| == 1 && s.trimmed == []
    ensures ok ==> BaselineOf(cfg, fs.flows, w, s) && Inv(cfg, fs.flows, t0, t0, s, 0)
    ensures ok ==> store.runs == old(store.runs) + s.runs && store.decisions == old(store.decisions)
  {
    hide Inv, ScoresSome, Scores, NoneFails, Went;
    var ev;
    ok, ev, later := RunAndEvaluate(fs, w, 0);
    s := Started(cfg, ev);
    if !ok {
      MadeFewer(w, 0, later, 1, 2);
      return;
    }
    SomeScores(fs.flows, w.alerts(0), ev);
    StartedKeeps(cfg, fs.flows, t0, ev);
    ok := store.InsertRunResult(s.runs[0], w.fails(later));
    AlsoMade(w, 0, later, 1);
    later := later + 1;
  }

  /** Every ITER strategy in turn. */
  method IterPhase(cfg: Config, functions: seq<RegisteredFunction>, exp: RuleDB, real_: RuleDB, base: RuleDB,
                   store: AnalyserStore, fs: FlowSet, w: World, now: nat, p: Progress, ghost t0: Tables, ghost anchor: nat,
                   ghost before: seq<Stage>)
      returns (ok: bool, failed: string, q: Progress, ghost stages: seq<Stage>, ghost later: nat)
    requires exp != real_ && real_ != base && exp != base
    requires Indexed(fs)
    requires Inv(cfg, fs.flows, t0, Tables(exp.rules, real_.rules, base.rules), p, anchor) && p.runs != []
    requires |before| == 2 && before[1] == Stage(p, now)
    modifies exp, real_, base, store
    ensures Inv(cfg, fs.flows, t0, Tables(exp.rules, real_.rules, base.rules), q, anchor) && q.runs != []
    ensures ok ==> |q.runs| <= |p.runs| + |OfType(functions, ITER)| * RoundLimit(cfg)
    ensures ok ==> StoredSince(store, p, q)
    ensures Went(ok, w, now, later) && later <= now + |OfType(functions, ITER)| * StrategyCalls(cfg)
    ensures ok ==> |stages| == |OfType(functions, ITER)| + 2 && stages[..2] == before && stages[|stages| - 1] == Stage(q, later)
    ensures ok ==> forall f :: 0 <= f < |OfType(functions, ITER)| ==> Leg(cfg, fs.flows, w, Enabled(t0.exp, 0), stages, f)
  {
    hide Inv, CommittedRows, Blocks, TrimRows, StrategyDone, Enabled, OfType, Leg, Went, StrategyCalls;
    NoCalls(w, now);
    NoBlocks(store.decisions, p.runs);
    ok, failed, q, stages := true, "", p, before;
    var time: nat := now;
    var iters := FunctionsByType(functions, ITER);
    for f := 0 to |iters|
      invariant ok && q.runs != []
      invariant Inv(cfg, fs.flows, t0, Tables(exp.rules, real_.rules, base.rules), q, anchor)
      invariant |q.runs| <= |p.runs| + f * RoundLimit(cfg)
      invariant StoredSince(store, p, q)
      invariant Went(true, w, now, time) && time <= now + f * StrategyCalls(cfg)
      invariant |stages| == f + 2 && stages[..2] == before && stages[f + 1] == Stage(q, time)
      invariant forall g :: 0 <= g < f ==> Leg(cfg, fs.flows, w, Enabled(t0.exp, 0), stages, g)
    {
      ghost var last, start, stored := q, time, store.decisions;
      ok, q, time := RunStrategy(cfg, iters[f], exp, real_, base, store, fs, w, time, q, t0, anchor);
      MoreCalls(ok, w, now, start, time);
      StepBudget(f, StrategyCalls(cfg));
      if !ok {
        MoreBudget(f + 1, |iters|, StrategyCalls(cfg));
        failed, later := iters[f].name, time;
        return;
      }
      Onwards(p.runs, last.runs, q.runs);
      TrimsOnwards(p.trimmed, last.trimmed, q.trimmed);
      BlocksOnwards(old(store.decisions), stored, store.decisions, p.runs, last.runs, q.runs);
      NextLeg(cfg, fs.flows, w, Enabled(t0.exp, 0), stages, Stage(q, time), f);
      stages := stages + [Stage(q, time)];
      StepBudget(f, RoundLimit(cfg));
    }
    later := time;
  }

  lemma NextLeg(cfg: Config, flows: seq<Flow>, w: World, enabled0: set<RuleId>, stages: seq<Stage>, to: Stage, f: nat)
    requires |stages| == f + 2 && StrategyDone(cfg, flows, w, enabled0, stages[f + 1], to)
    requires forall g :: 0 <= g < f ==> Leg(cfg, flows, w, enabled0, stages, g)
    ensures forall g :: 0 <= g < f + 1 ==> Leg(cfg, flows, w, enabled0, stages + [to], g)
  {
    hide StrategyDone;
    forall g | 0 <= g < f + 1 ensures Leg(cfg, flows, w, enabled0, stages + [to], g) {
      assert g < f ==> Leg(cfg, flows, w, enabled0, stages, g);
    }
  }

  lemma IsRunDone(cfg: Config, functions: seq<RegisteredFunction>, flows: seq<Flow>, w: World, enabled0: set<RuleId>,
                  stages: seq<Stage>)
    requires |stages| == |OfType(functions, ITER)| + 2
    requires stages[0].time == 2 && BaselineOf(cfg, flows, w, stages[0].progress)
    requires SafeDone(cfg, functions, flows, w, enabled0, stages[0], stages[1])
    requires forall f :: 0 <= f < |OfType(functions, ITER)| ==> Leg(cfg, flows, w, enabled0, stages, f)
    ensures RunDone(cfg, functions, flows, w, enabled0, stages)
  {
    hide BaselineOf, StrategyDone, SafeDone, OfType;
  }

  /** The stored results have grown by the runs that `q` has over `p`, by their rows run by run, and
      among these by the rows of the trims that `q` has over `p`. */
  twostate predicate StoredSince(store: AnalyserStore, p: Progress, q: Progress)
    reads store
  {
    && |p.runs| <= |q.runs| && q.runs[..|p.runs|] == p.runs
    && store.runs == old(store.runs) + q.runs[|p.runs|..]
    && |p.trimmed| <= |q.trimmed| && q.trimmed[..|p.trimmed|] == p.trimmed
    && CommittedRows(store.decisions) == CommittedRows(old(store.decisions)) + TrimRows(q.trimmed[|p.trimmed|..])
    && old(store.decisions) <= store.decisions
    && Blocks(store.decisions[|old(store.decisions)|..], q.runs[|p.runs|..])
  }

  /** All SAFE strategies at once, committed without a decision. */
  method SafePhase(cfg: Config, functions: seq<RegisteredFunction>, exp: RuleDB, real_: RuleDB, base: RuleDB,
                   store: AnalyserStore, fs: FlowSet, w: World, now: nat, p: Progress, ghost t0: Tables)
      returns (ok: bool, q: Progress, later: nat, ghost anchor: nat)
    requires exp != real_ && real_ != base && exp != base
    requires Indexed(fs)
    requires |p.runs| == 1 && Inv(cfg, fs.flows, t0, Tables(exp.rules, real_.rules, base.rules), p, 0)
    modifies exp, real_, base, store
    ensures Inv(cfg, fs.flows, t0, Tables(exp.rules, real_.rules, base.rules), q, anchor)
    ensures anchor <= 1 && q.runs != []
    ensures ok ==> |q.runs| <= if OfType(functions, SAFE) != [] then 2 else 1
    ensures ok ==> StoredSince(store, p, q)
    ensures ok ==> SafeDone(cfg, functions, fs.flows, w, Enabled(t0.exp, 0), Stage(p, now), Stage(q, later))
    ensures Went(ok, w, now, later) && later <= now + |OfType(functions, SAFE)| + CANDIDATE_CALLS
  {
    hide Inv, CommittedRows, Blocks, Aggregated, EvaluateCandidate, Enabled, Fresh, Scores, Executed, OfType, Decide, Ids, NoneFails, FailedAt;
    NoneExecuted(functions, w, now);
    NoBlocks(store.decisions, p.runs);
    q, anchor := p, 0;
    var decisions;
    ok, decisions, later := Execute(functions, SAFE, w, now);
    if !ok { return; }
    var trimmed := AggregateAndEnrich(exp.rules, p.accepted, SAFE, decisions);
    ProposedByAggregation(Tables(exp.rules, real_.rules, base.rules), p, SAFE, decisions, trimmed);
    NothingFromNothing(exp.rules, p.accepted, decisions, trimmed);
    FreshIs(cfg, fs.flows, t0, Tables(exp.rules, real_.rules, base.rules), p, 0, SAFE, decisions, trimmed);
    if |trimmed| > 0 {
      ghost var t := later + EVALUATION_CALL;
      ghost var before := later;
      ok, q, later := TryCandidate(cfg, exp, real_, base, store, fs, w, later, p, trimmed, 1.0, true, t0, 0);
      MoreCalls(ok, w, now, before, later);
      anchor := if ok then 1 else 0;
      if ok {
        LastSlice(q.runs);
        ghost var ev :| Scores(fs.flows, w.alerts(t), ev) && q == Decide(cfg, p, trimmed, 1.0, ev, true);
        IsTried(cfg, fs.flows, w, Enabled(t0.exp, 0), p, q, 1.0, true, decisions, trimmed, ev, t);
      }
    }
  }

  lemma NoneExecuted(functions: seq<RegisteredFunction>, w: World, now: nat)
    ensures OfType(functions, SAFE) == [] ==> Executed(OfType(functions, SAFE), w, now) == []
  {
  }

  /** The rounds of one ITER strategy: until its proposal is empty, its factor is at the floor, or
      the rounds are used up. */
  method RunStrategy(cfg: Config, fn: RegisteredFunction, exp: RuleDB, real_: RuleDB, base: RuleDB,
                     store: AnalyserStore, fs: FlowSet, w: World, now: nat, p: Progress, ghost t0: Tables, ghost anchor: nat)
      returns (ok: bool, q: Progress, later: nat)
    requires exp != real_ && real_ != base && exp != base
    requires Indexed(fs)
    requires Inv(cfg, fs.flows, t0, Tables(exp.rules, real_.rules, base.rules), p, anchor) && p.runs != []
    modifies exp, real_, base, store
    ensures Inv(cfg, fs.flows, t0, Tables(exp.rules, real_.rules, base.rules), q, anchor) && q.runs != []
    ensures ok ==> |q.runs| <= |p.runs| + RoundLimit(cfg)
    ensures ok ==> StoredSince(store, p, q)
    ensures ok ==> StrategyDone(cfg, fs.flows, w, Enabled(t0.exp, 0), Stage(p, now), Stage(q, later))
    ensures Went(ok, w, now, later) && later <= now + StrategyCalls(cfg)
  {
    ghost var enabled0, path := Enabled(t0.exp, 0), [];
    hide Inv, CommittedRows, Blocks, Underway, VisitOk, Enabled, NothingProposed, FloorStop, NextFactor, Went, TrimRows, StrategyDone;
    NoCalls(w, now);
    NoBlocks(store.decisions, p.runs);
    NotYet(cfg, fs.flows, w, enabled0, p, now);
    ok, q, later := true, p, now;
    var factor, round := cfg.initialFactor, 1;
    while round <= cfg.maxRound
      invariant ok && 1 <= round && (round == 1 || round <= cfg.maxRound + 1)
      invariant Inv(cfg, fs.flows, t0, Tables(exp.rules, real_.rules, base.rules), q, anchor) && q.runs != []
      invariant |q.runs| <= |p.runs| + (round - 1)
      invariant StoredSince(store, p, q)
      invariant Underway(cfg, fs.flows, w, enabled0, p, q, path, now, later, factor) && |path| == round - 1
      invariant Went(true, w, now, later) && later == now + ROUND_CALLS * (round - 1)
      decreases cfg.maxRound - round
    {
      ghost var before, tried := q, factor;
      ghost var start, stored := later, store.decisions;
      var stop;
      ok, stop, q, factor, later := TryRound(cfg, fn, exp, real_, base, store, fs, w, later, q, factor, t0, anchor);
      MoreCalls(ok, w, now, start, later);
      if !ok { return; }
      Onwards(p.runs, before.runs, q.runs);
      TrimsOnwards(p.trimmed, before.trimmed, q.trimmed);
      BlocksOnwards(old(store.decisions), stored, store.decisions, p.runs, before.runs, q.runs);
      if |q.runs| > |before.runs| {
        ghost var visit := Visit(before, tried, start, q);
        UnderwayNext(cfg, fs.flows, w, enabled0, p, before, path, now, visit, tried, factor);
        path := path + [visit];
      } else {
        NothingLeft(cfg, fs.flows, w, enabled0, p, q, path, now, start, tried);
      }
      if stop { return; }
      round := round + 1;
    }
    UsedUp(cfg, fs.flows, w, enabled0, p, q, path, now, later, factor);
  }

  /** The rounds made so far lead to `q` at `later`, and the next one may follow with `factor`. */
  ghost predicate Underway(cfg: Config, flows: seq<Flow>, w: World, enabled0: set<RuleId>, p: Progress, q: Progress,
                           path: seq<Visit>, now: nat, later: nat, factor: real) {
    && Rounds(cfg, flows, w, enabled0, p, q, path, now) && later == TimeAfter(path, now)
    && if path == [] then factor == cfg.initialFactor
       else path[|path| - 1].after == q && q.runs != [] && factor == NextFactor(path[|path| - 1]) && !FloorStop(LastRun(q))
  }

  lemma NotYet(cfg: Config, flows: seq<Flow>, w: World, enabled0: set<RuleId>, p: Progress, now: nat)
    ensures Underway(cfg, flows, w, enabled0, p, p, [], now, now, cfg.initialFactor)
  {
    hide VisitOk;
  }

  /** After one more recorded round the strategy is done, at the factor floor, or goes on. */
  lemma UnderwayNext(cfg: Config, flows: seq<Flow>, w: World, enabled0: set<RuleId>, p: Progress, q: Progress,
                     path: seq<Visit>, now: nat, v: Visit, factor: real, next: real)
    requires Underway(cfg, flows, w, enabled0, p, q, path, now, v.time, factor) && |path| < RoundLimit(cfg)
    requires VisitOk(cfg, flows, w, enabled0, v) && v.before == q && v.factor == factor
    requires v.after.runs != [] && next == NextFactor(v)
    ensures
      var later := v.time + ROUND_CALLS;
      if FloorStop(LastRun(v.after)) then StrategyDone(cfg, flows, w, enabled0, Stage(p, now), Stage(v.after, later))
      else Underway(cfg, flows, w, enabled0, p, v.after, path + [v], now, later, next)
  {
    hide VisitOk, NextFactor, FloorStop, Rounds;
    RoundsMore(cfg, flows, w, enabled0, p, q, path, now, v);
    assert (path + [v])[|path|] == v;
    if FloorStop(LastRun(v.after)) {
      assert Exhausted(cfg, w, enabled0, v.after, path + [v], now, v.time + ROUND_CALLS);
    }
  }

  lemma NothingLeft(cfg: Config, flows: seq<Flow>, w: World, enabled0: set<RuleId>, p: Progress, q: Progress,
                    path: seq<Visit>, now: nat, t: nat, factor: real)
    requires Underway(cfg, flows, w, enabled0, p, q, path, now, t, factor) && |path| < RoundLimit(cfg)
    requires NothingProposed(w, enabled0, q, t)
    ensures StrategyDone(cfg, flows, w, enabled0, Stage(p, now), Stage(q, t + 1))
  {
    hide VisitOk, NextFactor, FloorStop, Rounds, NothingProposed;
    assert Exhausted(cfg, w, enabled0, q, path, now, t + 1);
  }

  lemma UsedUp(cfg: Config, flows: seq<Flow>, w: World, enabled0: set<RuleId>, p: Progress, q: Progress,
               path: seq<Visit>, now: nat, later: nat, factor: real)
    requires Underway(cfg, flows, w, enabled0, p, q, path, now, later, factor) && |path| == RoundLimit(cfg)
    ensures StrategyDone(cfg, flows, w, enabled0, Stage(p, now), Stage(q, later))
  {
    hide VisitOk, NextFactor, FloorStop, Rounds;
    assert Exhausted(cfg, w, enabled0, q, path, now, later);
  }

  /** One round of a strategy: propose, try, and halve the factor after a rollback. */
  method TryRound(cfg: Config, fn: RegisteredFunction, exp: RuleDB, real_: RuleDB, base: RuleDB,
                  store: AnalyserStore, fs: FlowSet, w: World, now: nat, p: Progress, factor: real, ghost t0: Tables, ghost anchor: nat)
      returns (ok: bool, stop: bool, q: Progress, nextFactor: real, later: nat)
    requires exp != real_ && real_ != base && exp != base
    requires Indexed(fs)
    requires Inv(cfg, fs.flows, t0, Tables(exp.rules, real_.rules, base.rules), p, anchor) && p.runs != []
    modifies exp, real_, base, store
    ensures Inv(cfg, fs.flows, t0, Tables(exp.rules, real_.rules, base.rules), q, anchor) && q.runs != []
    ensures Went(ok, w, now, later) && later <= now + ROUND_CALLS
    ensures ok ==> |q.runs| <= |p.runs| + 1
    ensures ok ==> StoredSince(store, p, q)
    ensures ok && |q.runs| == |p.runs| ==> stop && q == p && NothingProposed(w, Enabled(t0.exp, 0), q, now) && later == now + 1
    ensures ok && |q.runs| > |p.runs| ==>
      && VisitOk(cfg, fs.flows, w, Enabled(t0.exp, 0), Visit(p, factor, now, q)) && later == now + ROUND_CALLS
      && nextFactor == NextFactor(Visit(p, factor, now, q)) && stop == FloorStop(LastRun(q))
  {
    hide Inv, CommittedRows, Blocks, Aggregated, EvaluateCandidate, Proposed, Commit, Rollback, Decide, Fresh, Scores, Enabled, Ids, Signed, Tried, NoneFails, FailedAt, TrimRows;
    MadeOne(w, now);
    NoBlocks(store.decisions, p.runs);
    ok, stop, q, nextFactor, later := true, false, p, factor, now;
    var failed, raw := w.fails(later), w.decisions(later);
    later := now + 1;
    if failed { ok := false; return; }
    var decisions := Sign(raw, fn);
    var trimmed := AggregateAndEnrich(exp.rules, q.accepted, ITER, decisions);
    FreshOfSigned(raw, fn, Enabled(t0.exp, 0), p);
    FreshIs(cfg, fs.flows, t0, Tables(exp.rules, real_.rules, base.rules), p, anchor, ITER, decisions, trimmed);
    if |trimmed| == 0 {
      stop := true;
      return;
    }
    ProposedByAggregation(Tables(exp.rules, real_.rules, base.rules), q, ITER, decisions, trimmed);
    ok, q, later := TryCandidate(cfg, exp, real_, base, store, fs, w, later, q, trimmed, factor, false, t0, anchor);
    MoreCalls(ok, w, now, now + 1, later);
    if !ok { return; }
    LastSlice(q.runs);
    ghost var t := now + 1 + EVALUATION_CALL;
    ghost var ev :| Scores(fs.flows, w.alerts(t), ev) && q == Decide(cfg, p, trimmed, factor, ev, false);
    IsTried(cfg, fs.flows, w, Enabled(t0.exp, 0), p, q, factor, false, raw, trimmed, ev, t);
    DecideRun(cfg, p, trimmed, factor, ev, false);
    if q.runs[|q.runs| - 1].rolledBack {
      nextFactor := factor / 2.0;
      stop := nextFactor <= FACTOR_FLOOR;
    }
  }

  lemma DecideRun(cfg: Config, p: Progress, out: seq<TrimmedRule>, factor: real, ev: Evaluation, forced: bool)
    ensures var q := Decide(cfg, p, out, factor, ev, forced); q.runs != [] && LastRun(q).factor == factor
  {
  }

  lemma Onwards<T>(a: seq<T>, b: seq<T>, c: seq<T>)
    requires |a| <= |b| <= |c| && b[..|a|] == a && c[..|b|] == b
    ensures c[..|a|] == a && b[|a|..] + c[|b|..] == c[|a|..]
  {
  }

  lemma LastSlice<T>(s: seq<T>)
    requires s != []
    ensures s[|s| - 1..] == [s[|s| - 1]]
  {
  }

  lemma TrimsOnwards(a: seq<TrimmedRule>, b: seq<TrimmedRule>, c: seq<TrimmedRule>)
    requires |a| <= |b| <= |c| && b[..|a|] == a && c[..|b|] == b
    ensures c[..|a|] == a && TrimRows(b[|a|..]) + TrimRows(c[|b|..]) == TrimRows(c[|a|..])
  {
    Onwards(a, b, c);
  }

  lemma MoreBudget(f: nat, n: nat, m: nat)
    requires f <= n
    ensures f * m <= n * m
  {
  }

  lemma StepBudget(f: nat, m: nat)
    ensures (f + 1) * m == f * m + m
  {
  }

  lemma StartedKeeps(cfg: Config, flows: seq<Flow>, t0: Tables, ev: Evaluation)
    requires ScoresSome(flows, ev)
    ensures Inv(cfg, flows, t0, t0, Started(cfg, ev), 0)
    ensures |Started(cfg, ev).runs| == 1 && Started(cfg, ev).trimmed == []
  {
    var p := Started(cfg, ev);
    StartedRuns(cfg, flows, ev);
    StartedDb(cfg, t0.exp, ev);
    StartedDb(cfg, t0.real_, ev);
    StartedDb(cfg, t0.base, ev);
    AnchorAt(cfg, flows, p);
    assert Ids(p.trimmed) == {};
    hide RunsInv, DbInv, RatesInv, ScoresSome, Enabled;
  }

  lemma NothingFromNothing(table: Table, run: int, raw: seq<TrimDecision>, out: seq<TrimmedRule>)
    requires Aggregated(table, run, SAFE, raw, out)
    ensures raw == [] ==> out == []
  {
    if out != [] {
      assert out[0] in out;
      assert out[0].rule in Ids(out);
    }
  }

  method SortedReport(cfg: Config, ghost flows: seq<Flow>, ghost t0: Tables, ghost t: Tables, s: Progress, ghost anchor: nat)
      returns (trimmed: seq<TrimmedRule>)
    requires Inv(cfg, flows, t0, t, s, anchor)
    ensures trimmed == s.trimmed
  {
    trimmed := SortTrimmedRules(s.trimmed);
  }
}
