# Rule optimiser: a verified model

The repository trims a Snort rule set. An analyser replays traffic through Snort, scores the alerts
against labelled flows, proposes rules to disable, and commits or rolls back each proposal. Around it
stand the vendored Snort and libdaq sources, an alert tailer, a flow extractor and a job server.

This project models the parts of it whose correctness is not visible in any single function:

| files | what is modelled |
|---|---|
| `SchedulerState`, `Scheduler`, `SchedulerProps` | the baseline / SAFE / ITER commit-rollback machine over versioned rule tables |
| `RuleStore`, `Trim`, `Strategies`, `ProtocolOverlap`, `Server` | cloning rule versions, merging decisions, the ITER proposals, the server's estimate |
| `Keys`, `TupleKeys`, `FlowMatch`, `Evaluation` | tuple keys, alert-to-flow matching, global and per-rule scores |
| `FlowbitsText`, `Flowbits`, `FlowbitsWritten`, `FlowbitsReach` | the orphan-flowbits strategy against the detection engine's own reading and evaluation of flowbits |
| `Checksum`, `DecoderSpec`, `Decoder`, `DecoderProps`, `DecoderMeaning`, `DecoderBounds`, `DecoderAccepts`, `DecoderFrames` | the Internet checksum and the layered packet decoder |
| `IcmpReply` | the forged echo reply, decoded again |
| `Windows` | merging time windows in place and searching them |
| `MsgPool` | the DAQ message pool |
| `Tailer` | polling a growing alert file |
| `MainThread` | the reference-counted command protocol between Snort's main and packet threads |
| `Cases` | concrete cases of what the code does not keep |
| `Sorting`, `Cuts`, `Prelude` | sorting by an arbitrary order, what a cut of a sorted list depends on, and shared datatypes |

Conventions:

- Code that changes state is a class or a method with loops, proved against a function of the old
  state; the properties are lemmas about those functions.
- Everything outside is a parameter: Snort and the strategies are a `World` consulted by time, where
  every call of the scheduler takes the next time; reads and inserts fail by an oracle, the parsing
  of an alert line is a function argument.
- Rates, factors and thresholds are real numbers. Times and counters are unbounded integers, except
  the 32-bit checksum accumulator and the 16-bit packet offsets, whose widths are modelled.
- A pointer into a packet is an offset, a pool descriptor is an index, a command is its number.

Where the code does not keep what its surroundings suggest, the code is modelled as it is, with a
case in which it fails and the exact condition:

- A window is harmless beside any good windows, every query on the merged list being answered right,
  exactly when it ends at most one unit before it starts (`Windows.QueryExact`,
  `Windows.HarmlessExactly`); beside any good windows it leaves the order of equal starts in the
  unstable sort without effect exactly when it does not end before it starts
  (`Windows.MergeIgnoresTies`, `Windows.TiesHiddenExactly`).
- The checksum of any pieces is the RFC 1071 checksum exactly when the wraps of the 32-bit
  accumulator and the words that odd pieces misplace cancel modulo 65535
  (`Checksum.ChecksumExactly`). Without a wrap that is when the misplaced words add up to a multiple
  of 257 (`Checksum.OddPiecesExactly`, `Checksum.OddPieceDiffers`, `Checksum.OddPieceCase`).
- An IPv6 extension header can announce more bytes than there are; the decode then succeeds with a
  payload offset past the packet (`DecoderMeaning.PayloadPastEnd`). That happens exactly when a
  header of the chain does so; in every other accepted frame the payload is inside the packet
  (`DecoderBounds.EthPayloadBound`, `DecoderBounds.RawPayloadBound`).
- Tuple keys collide for some addresses that contain the separator (`Keys.TupleKeyCollides`). A
  tuple shares its key with a different one exactly when the key can be read at other bars
  (`TupleKeys.SharedExactly`); it is enough that no field inside an address could be a port
  (`Keys.TupleKeyInjective`). An unmatched alert shares the text it is counted under exactly when
  its addresses or its time contain the separator (`FlowMatch.UnmatchedKeyShared`).
- Rate drift is bounded exactly when there is something to measure, nothing was committed, or the
  allowed increase is not negative (`SchedulerProps.RateDrift`, `Cases.RateDriftFails`).
- The final run id recomputed from the store is the accepted one exactly when no older run in the
  store has a larger committed id (`SchedulerProps.RecomputedIsFinal`, `Cases.StaleRunShows`).
- A rule that needs one of several flowbits is removed although it can fire
  (`FlowbitsWritten.AlternativeIsLost`). Removal goes unnoticed when every removed rule is dead
  (`Flowbits.RemovalUnnoticed`); an orphan without isnotset options that is not dead fires in some
  state among the provided bits (`Flowbits.LiveOrphanIsNoticed`), although no flow need reach that
  state. On flows that start without bits, removal goes unnoticed exactly when no removed rule
  passes its tests in any state that a flow can come to, which is a finite set that can be computed
  (`FlowbitsReach.UnnoticedExactly`, `FlowbitsReach.ReachableExactly`).
- A batch whose last insert fails is lost while the offset moves on, which costs a tail of that
  read's alerts and nothing else; all alerts are stored exactly when no read ends on a failed
  insert (`Tailer.ExactlyOnce`, `Tailer.PollsKeepPrefixes`, `Tailer.LostBatchCase`).
- A line too long for the scanner stops the offset for good and has the alerts before it imported
  again at every poll (`Tailer.LongLineArrives`, `Tailer.LongLineRepeats`); the polls and the final
  read come to the end of the file exactly when no line behind the starting offset is too long
  (`Tailer.ReachesEndExactly`).
- Stopping an analyzer does not reap its uncompleted commands, so their references leak; all
  commands are destroyed exactly when no analyzer is stopped with uncompleted ones
  (`MainThread.AllDestroyed`, `MainThread.DeferredLeaks`).
- What the protocol-overlap strategy proposes can depend on its unstable sorts: on the sort of a
  group exactly when rows tie across the end of its covering prefix
  (`ProtocolOverlap.SettledExactly`, `Cases.GroupTieCase`), on the sort of the candidates exactly
  when candidates with different decisions tie across the cut (`ProtocolOverlap.ProposalExactly`,
  `Cases.CandidateTieCase`).

## Model

| member | source | states |
|---|---|---|
| `Scheduler.Run` | analyser/scheduler/scheduler.go:21-184 | for every world, however it fails: in all three databases the accepted version's rules are the baseline's minus the committed trims, trims are disjoint, rolled-back versions have no effect, run ids and rates obey the invariant; a completed run is the baseline, the SAFE phase and every ITER strategy in order, each taking up at the call after the one where its predecessor stopped, going on until it is exhausted, and each candidate made of the fresh rules proposed and judged by the alerts of its own evaluation; it reports the accepted id and the trims and adds to the store exactly its runs, rows for each of them in order, those of rolled-back runs included, and as committed rows the run ids and rules of its trims in order, within the budgets of runs and calls; no call of a completed run failed, and a run that does not complete stopped right after the first of its calls that failed |
| `Scheduler.SafePhase` | analyser/scheduler/scheduler.go:65-113 | the fresh decisions of all SAFE strategies, consulted one call after another, are committed without being judged and scored by the evaluation right after their clones, or nothing happens when there are none; the invariant is kept; it fails exactly by stopping after the first of its calls that failed |
| `Scheduler.IterPhase` | analyser/scheduler/scheduler.go:115-179 | every ITER strategy is run in registration order, each from the state and the time its predecessor left; a failure stops right after the first call that failed, within the calls of the strategies |
| `Scheduler.RunStrategy` | analyser/scheduler/scheduler.go:115-179 | the rounds of one strategy form a chain, each starting at the call after the one before it, whose factor each rollback halves; it ends exactly when the rounds are used up, the factor is at the floor, or the consultation right after the last round proposes nothing fresh; the invariant is kept, all runs and committed rows are stored in order, and a failure stops right after the first call that failed |
| `Scheduler.TryRound` | analyser/scheduler/scheduler.go:117-178 | one round tries the fresh rules that its consultation proposes, scored by the alerts of its own evaluation, or stops without any; a rollback halves the factor and stops at the floor, a commit keeps the factor; a failure stops right after the first of its at most seven calls that failed |
| `Scheduler.TryCandidate` | analyser/scheduler/scheduler.go:136-171 | clone, evaluate, record: all six calls are made exactly when none of them fails, otherwise those up to the first that does; the state afterwards is the commit or the rollback that the alerts of its evaluation call for, or unchanged on a failure; one row is stored for each rule of the candidate with the run's id and verdict, committed or not, and the invariant holds in every case |
| `Scheduler.Baseline` | analyser/scheduler/scheduler.go:39-63 | the baseline is evaluated by the first call and stored by the second; its state satisfies the invariant |
| `Scheduler.DecidedRows` | analyser/scheduler/scheduler.go:160-169 | the rows stored for a candidate add to the committed rows exactly the trims it adds to the state, none after a rollback |
| `SchedulerProps.RoundDecided` | analyser/scheduler/helpers.go:98-108 | for every recorded round: its run scores the alerts of its own evaluation call and is committed if and only if each rate that the flows give a meaning has risen by at most the allowed increase; a commit makes it the accepted version with its fresh rules trimmed, a rollback leaves everything accepted as it was, and the next id is reused exactly when the halved factor is at the floor |
| `SchedulerProps.VerdictExactly` | analyser/scheduler/helpers.go:98-108 | the decision on an evaluation of any alerts: accepted if and only if there are no malicious flows or the miss rate is at most the accepted one plus the allowance, and the same for all flows and the false-positive rate |
| `SchedulerProps.FactorsHalve` | analyser/scheduler/scheduler.go:115-179 | the factor of a round is the configured one halved once for each rollback before it, rounds are seven calls apart, and no round follows a rollback that brought the halved factor to 0.001 or below |
| `SchedulerProps.StrategyStops` | analyser/scheduler/scheduler.go:115-179 | a strategy stops if and only if its rounds are used up, or its last round was a rollback whose halved factor is at most 0.001, or the next call finds it naming no rule that is still enabled; its stopping time is fixed in each case |
| `SchedulerProps.SafeCommits` | analyser/scheduler/scheduler.go:65-113 | the SAFE phase that has something to trim records one committed run whatever its scores, scored by the fourth call after the consultations |
| `Scheduler.BlocksAppended` | analyser/scheduler/scheduler.go:160-165 | the stored rows of two stretches of runs are, one after the other, the rows of both |
| `Scheduler.CommitKeeps` | analyser/scheduler/scheduler.go:150-170 | a commit whose evaluation was accepted keeps the whole invariant in the three cloned databases |
| `Scheduler.CommitAnyKeeps` | analyser/scheduler/scheduler.go:80-113 | a commit without a decision keeps the parts of the invariant about ids, trims and databases |
| `Scheduler.RollbackKeeps` | analyser/scheduler/scheduler.go:171-177 | a rollback keeps the invariant: the clone into the next id touches nothing accepted |
| `Scheduler.TouchedKeeps` | analyser/scheduler/scheduler.go:82-84 | a clone that reached only some of the databases before a failure keeps the invariant |
| `Scheduler.StartedKeeps` | analyser/scheduler/scheduler.go:50-63 | the state after the baseline run satisfies the invariant |
| `Scheduler.CloneRulesForRun` | analyser/sql/rules_clone.go:12-19 | every database is cloned or untouched, in order up to the first clone that fails; without one all are cloned |
| `Scheduler.Execute` | analyser/scheduler/helpers.go:57-74 | consults the strategies of the type in order up to the first that fails; without one it returns their decisions one strategy after another, signed with its name and type |
| `Scheduler.FunctionsByType` | analyser/scheduler/helpers.go:88-96 | the strategies of a type, in registration order |
| `Scheduler.OfTypeInOrder` | analyser/scheduler/helpers.go:88-96 | exactly the strategies registered with the type, in the order of registration |
| `Scheduler.ExecutedPart` | analyser/scheduler/helpers.go:57-74 | behind the answers of the strategies before it stands each strategy's answer to its own consultation, every decision signed with its name and type |
| `Scheduler.SortTrimmedRules` | analyser/scheduler/helpers.go:116-126 | the committed trims are already in report order, so the unstable sort returns them unchanged |
| `Scheduler.AnalyserStore.InsertRunResult` | analyser/scheduler/scheduler.go:163-165 | appends the run to the store or leaves it alone |
| `Scheduler.AnalyserStore.InsertTrimDecisions` | analyser/scheduler/scheduler.go:160-162 | appends one row per trimmed rule with the run's id and verdict, all of them or none; without rules it cannot fail |
| `SchedulerState.CommitRuns` | analyser/scheduler/scheduler.go:152-177 | a commit keeps ids stepping, committed ids strictly increasing and the accepted version the last committed run |
| `SchedulerState.RollbackRuns` | analyser/scheduler/scheduler.go:152-177 | a rollback keeps them too, with the next id reused after a floor stop |
| `SchedulerState.CommitDb` | analyser/scheduler/scheduler.go:137-169 | in a cloned database the new version enables the baseline's rules minus all committed trims |
| `SchedulerState.CommitRates` | analyser/scheduler/scheduler.go:150-170 | each accepted candidate moves a rate by at most the configured increase |
| `SchedulerProps.EnabledConserved` | analyser/scheduler/scheduler.go:50-184 | enabled rules of the accepted version plus trimmed rules make up the baseline's, and databases that start equal stay equal |
| `SchedulerProps.TrimSetsDisjoint` | analyser/scheduler/scheduler.go:108-168 | no rule is trimmed twice over the whole run |
| `SchedulerProps.ReportOrder` | analyser/scheduler/helpers.go:116-126 | the committed trims are ordered by run, then generator id, then signature id |
| `SchedulerProps.IdsNondecreasing` | analyser/scheduler/scheduler.go:115-179 | run ids never decrease and repeat exactly over floor stops |
| `SchedulerProps.AcceptedNeverOverwritten` | analyser/scheduler/scheduler.go:137-177 | committed ids are at most the accepted id, which is below the next one |
| `SchedulerProps.RollbacksShrink` | analyser/scheduler/scheduler.go:115-179 | along the rounds of a strategy that answers from the rows of the accepted version: as long as rounds are rolled back, each tries to trim a subset of what the earlier ones tried, from the same accepted version |
| `SchedulerProps.RollbackLeaves` | analyser/scheduler/scheduler.go:171-177 | a recorded round that was rolled back leaves the accepted version and the trims as they were |
| `SchedulerProps.RateDrift` | analyser/scheduler/helpers.go:98-108 | after k commits each rate is within k allowed increases of the starting run's, exactly under the stated condition |
| `Cases.RateDriftFails` | analyser/config.go:65-67 | without malicious flows and with any negative allowance, which the configuration accepts, the bound is broken after one commit |
| `SchedulerProps.RecomputeFinalRun` | server/api/queries.go:234-239 | the largest committed id in the store, or zero |
| `SchedulerProps.RecomputedIsFinal` | server/api/queries.go:234-239 | it is the accepted id if and only if no older stored run has a larger committed id |
| `Cases.StaleRunShows` | server/api/queries.go:234-239 | a committed run 5 left over in the store is taken for the final one of a run that accepted 0 |
| `Server.SelectedStrategies` | server/api/jobs.go:620-663 | fails exactly on an unknown name; otherwise the selected strategies in built-in order, with all, none and disabled names applied in order |
| `Server.SelectionExactly` | server/api/jobs.go:541-577 | a name is selected if and only if it is not disabled and, with no enabled names, is known, otherwise some enabled entry is it, or is "all" and it is known, and no later entry is "none" |
| `Server.PickedInOrder` | server/api/jobs.go:578-584 | the result is exactly the strategies with selected names, in built-in order |
| `Server.ReadEnabled` | server/api/jobs.go:627-649 | the enabled names read left to right |
| `Server.SelectionWellNamed` | server/api/jobs.go:526-537 | in every selection a name's prefix tells the strategy's type |
| `Server.ExpectedAnalysisRuns` | server/api/jobs.go:594-618 | the estimate is one run, one more with any SAFE strategy, and the configured rounds, 4 by default, for each ITER strategy; that is the scheduler's run budget; 18 for a bad selection |
| `RuleStore.RuleDB.CloneRulesInDB` | analyser/sql/rules_clone.go:21-57 | the target version becomes a copy of the source version with the decided rules disabled; a failed transaction changes nothing |
| `RuleStore.CloneFrame` | analyser/sql/rules_clone.go:34-57 | no other version changes |
| `RuleStore.CloneEnabled` | analyser/sql/rules_clone.go:34-57 | the clone enables what its source enables minus the disabled rules and agrees in every other column |
| `Trim.AggregateAndEnrich` | analyser/sql/trim.go:11-58 | one entry per enabled rule that some decision names, built from its decisions in order, in ascending rule order |
| `Trim.EntryExists` | analyser/sql/trim.go:19-43 | a rule has an entry if and only if it is enabled and named |
| `Trim.EntryTexts` | analyser/sql/trim.go:38-43 | an entry lists each non-empty reason and function name of its rule's decisions once |
| `Trim.TextsInOrder` | analyser/sql/trim.go:38-39 | a further decision only appends to an entry's reasons and function names, so they stand in the order in which they were first given |
| `Trim.EntryFields` | analyser/sql/trim.go:26-36 | revision, source file and message come from the first decision that names the rule, with the rule's row as the fallback for a zero revision or a blank text |
| `Trim.EntryMetrics` | analyser/sql/trim.go:40-42 | an entry has a metric if and only if some decision naming its rule gives it, and then the one given last |
| `Trim.AscendingSize` | analyser/sql/trim.go:44-58 | entries have pairwise different rules |
| `Trim.AscendingOrder` | analyser/sql/trim.go:50-56 | entries are ordered by generator id, then signature id |
| `Trim.AggregationMonotone` | analyser/sql/trim.go:19-58 | more decisions over the same enabled rules trim no less |
| `Strategies.LimitInRange` | analyser/iter/helpers.go:15-27 | the scaled limit is between 1 and the size for a positive fraction and factor |
| `Strategies.LimitExact` | analyser/iter/helpers.go:15-27 | for a positive size and a fraction and factor above 0 and at most 1, the limit is the least number that is at least their product |
| `Strategies.ProposalIsScaled` | analyser/iter/helpers.go:5-27 | a proposal is a prefix of the ranking of exactly that length, none without a positive factor, a factor above 1 counting as 1 |
| `Strategies.LimitMonotone` | analyser/iter/helpers.go:5-27 | the limit grows with the factor |
| `Strategies.HighCostRules` | analyser/iter/high_cost_rules.go:29-72 | proposes the first fifth of the ranked rows, scaled by the factor and rounded up, of the experiment's when the real run has none |
| `Strategies.HighFPLowUtilization` | analyser/iter/high_fp_low_utilization.go:28-53 | proposes the first three tenths of the ranked rows, scaled by the factor and rounded up |
| `Strategies.LowYieldHotRules` | analyser/iter/low_yield_hot_rules.go:40-82 | joins the hot rules with the low-yield statistics in rank order and proposes the first fifth, scaled by the factor and rounded up |
| `Strategies.JoinedFrom` | analyser/iter/low_yield_hot_rules.go:116-152 | every proposed rule has a low-yield row |
| `Strategies.JoinedInOrder` | analyser/iter/low_yield_hot_rules.go:116-152 | the joined rows are the statistics of exactly the hot rules that have any, in the rank order of these |
| `Strategies.StatMapLast` | analyser/iter/low_yield_hot_rules.go:40-82 | a rule has statistics if and only if some row is about it, and then those of the last such row |
| `Strategies.ProposalCost` | analyser/iter/high_fp_low_utilization.go:66-71 | deleting an n-rule proposal misses at most n more malicious flows and adds no false positive |
| `Strategies.HalvedProposalIsPrefix` | analyser/iter/helpers.go:5-27 | with half the factor a ranked strategy proposes a prefix of what it proposed |
| `Strategies.RollbackShrinksTrim` | analyser/scheduler/scheduler.go:167-176 | for one table and one list of rows: the trim aggregated with half the factor is a subset of the rolled-back one, whatever the clone of the rolled-back round did |
| `ProtocolOverlap.LowCoverageProtocolRules` | analyser/iter/protocol_alert_overlap.go:122-166 | ranks the group and returns the rules behind its covering prefix, under the stated conditions |
| `ProtocolOverlap.CoveringPrefix` | analyser/iter/protocol_alert_overlap.go:145-154 | the shortest prefix that covers four fifths of the alerted flows |
| `ProtocolOverlap.LowCoverageMeaning` | analyser/iter/protocol_alert_overlap.go:122-166 | the returned rules are exactly the rest, hold at most a fifth of the total, are at least half the group, and none has more malicious flows than a kept one |
| `ProtocolOverlap.LowCoverageExactly` | analyser/iter/protocol_alert_overlap.go:122-166 | the ranking is by malicious flows, flows and utilization, highest first, then by signature id; a group has a result if and only if it has four rules and three flows and the prefix that just covers four fifths of the flows is at most half of it; the result is the rest, each marked with the group's flows and the length of the prefix |
| `ProtocolOverlap.CandidatesInOrder` | analyser/iter/protocol_alert_overlap.go:51-62 | candidates are ranked by the flows of their group, highest first, then by their own flows, utilization and signature id, lowest first |
| `ProtocolOverlap.LowCoverageUnique` | analyser/iter/protocol_alert_overlap.go:126-137 | without a tie across the end of the covering prefix the result is the same for every sort, in some order |
| `ProtocolOverlap.ProtocolAlertOverlap` | analyser/iter/protocol_alert_overlap.go:35-82 | proposes the first quarter, scaled by the factor and rounded up, of a ranking of exactly the low-coverage rules of all groups |
| `ProtocolOverlap.OverlapShrinks` | analyser/iter/protocol_alert_overlap.go:35-82 | for groups in any order, with any sorts, no tie across the end of a group's covering prefix and none across the cut: the proposal with half the factor is part of the earlier one |
| `ProtocolOverlap.ProposalExactly` | analyser/iter/protocol_alert_overlap.go:35-82 | for any candidates and factor: all sorts propose the same decisions if and only if no two candidates with different decisions tie across the cut |
| `ProtocolOverlap.SettledExactly` | analyser/iter/protocol_alert_overlap.go:122-166 | all sorts of a group give the same low-coverage rules if and only if no sort that gives any has different rows tied across the end of its covering prefix |
| `ProtocolOverlap.TieUnsettles` | analyser/iter/protocol_alert_overlap.go:122-166 | such a tie gives another sort with another result |
| `Cases.GroupTieCase` | analyser/iter/protocol_alert_overlap.go:126-166 | four rules, two of them with one signature id under two generator ids, whose result depends on the sort |
| `Cases.CandidateTieCase` | analyser/iter/protocol_alert_overlap.go:35-82 | two tied candidates: with half the factor another sort proposes the rule that was not tried |
| `Cuts.CutExactly` | analyser/iter/protocol_alert_overlap.go:35-82 | the first n images of a sorted list are the same for every sort of it if and only if no two entries with different images tie across position n |
| `Cuts.CutSame` | analyser/iter/protocol_alert_overlap.go:35-82 | without such a tie any two sorts have the same first n images |
| `Keys.TupleKeyInjective` | analyser/sql/flow_parse.go:10-12 | for addresses inside which no field could be a port, keys are equal exactly for equal tuples |
| `Keys.TupleKeyCollides` | analyser/sql/flow_parse.go:10-12 | two different tuples with one key |
| `TupleKeys.SharedExactly` | analyser/sql/flow_parse.go:10-12 | a tuple shares its key with a different one if and only if the key has four other bars with decimal numbers between the first two and the last two and no lower case letter behind them |
| `TupleKeys.ReadsOwn` | analyser/sql/flow_parse.go:10-12 | a key read at the tuple's own bars gives the tuple back |
| `TupleKeys.WritesBack` | analyser/sql/flow_parse.go:10-12 | every reading of a key is the own reading of a tuple with that key |
| `Keys.RuleKeyInjective` | analyser/sql/trim.go:60-62 | rule keys are equal exactly for equal rules |
| `Keys.TrimSpaceMeaning` | analyser/sql/trim.go:38-39 | trimming takes white space off both ends, and all of it |
| `FlowMatch.BuildIndex` | analyser/sql/flow_load.go:61-69 | under every key the index lists, ascending and without repeats, the flows with that key in either direction |
| `FlowMatch.PositionsAscend` | analyser/sql/flow_load.go:61-69 | an index list is strictly ascending and holds exactly the flows with its key |
| `FlowMatch.BestCandidate` | analyser/sql/flow_match.go:33-47 | among the candidates containing the instant, the latest start, lowest number first |
| `FlowMatch.MatchAlertToFlow` | analyser/sql/flow_match.go:19-48 | the indexed match is the specified one, for alerts with and without a parsable endpoint |
| `FlowMatch.MatchRefinesScan` | analyser/sql/flow_match.go:19-48 | for addresses inside which no field could be a port, the indexed match is what a scan of all flows gives: the lowest-numbered flow with the latest start among those with the alert's endpoints in either direction, its protocol by name or number, and an interval that contains its time, ends included; none exactly when the scan finds none |
| `FlowMatch.MatchUnique` | analyser/sql/flow_match.go:19-48 | that description determines the flow |
| `FlowMatch.MatchAlertsToFlows` | analyser/sql/flow_match.go:5-17 | the matched alerts in order, and the number of distinct texts under which the unmatched ones are recorded |
| `FlowMatch.MatchedInOrder` | analyser/sql/flow_match.go:5-17 | the matches are those of exactly the alerts that have one, in the order of the alerts |
| `FlowMatch.UnmatchedKeyInjective` | analyser/sql/flow_parse.go:87-89 | for endpoints without the separator those texts are equal exactly for alerts that agree in rule, endpoints and time |
| `FlowMatch.UnmatchedKeyShared` | analyser/sql/flow_parse.go:87-89 | an alert shares its text with one that differs in what is shown if and only if its endpoints or its time contain the separator |
| `Evaluation.EvaluateAlerts` | analyser/sql/eval.go:51-86 | every counter is the cardinality of its set of flows and every rate their ratio, zero over zero being zero |
| `Evaluation.CountFlows` | analyser/sql/eval.go:62-78 | the counts of benign, malicious, false-positive, detected and missed flows |
| `Evaluation.DetectedPlusMissed` | analyser/sql/eval.go:62-84 | detected and missed flows make up the malicious ones; rates lie between 0 and 1 |
| `Evaluation.BuildRuleFPStats` | analyser/sql/rule_fp.go:101-130 | each rule's counters are the cardinalities of the distinct flows its alerts match; exactly the alerting rules have an entry |
| `Evaluation.OneAlert` | analyser/sql/rule_fp.go:103-128 | one more alert updates one rule's counters, and counts a flow only once |
| `Evaluation.UnmatchedCount` | analyser/sql/rule_fp.go:101-130 | a rule's unmatched counter is the number of its alerts that match no flow |
| `Evaluation.RulesMakeUpAlerted` | analyser/sql/rule_fp.go:101-130 | the rules' flow sets together are exactly the evaluated alerted set |
| `Evaluation.RatesAddUp` | analyser/sql/rule_fp.go:16-68 | a rule's false-positive rate and utilization add up to at most one, and to one exactly when all its flows are labelled |
| `Evaluation.DeletionCost` | analyser/sql/eval.go:51-86 | deleting all alerts of a set of rules raises the missed flows by at most the sum of the rules' malicious flows and adds no false positive |
| `Evaluation.CostBoundsUnion` | analyser/sql/rule_fp.go:101-130 | the malicious flows of several rules are at most the sum of their counters |
| `Evaluation.LowYieldCost` | analyser/iter/low_yield_hot_rules.go:84-114 | rules with at most one malicious flow each cost at most one missed flow each |
| `FlowbitsText.ParseFlowbits` | analyser/safe/orphan_flowbits.go:76-114 | what a rule provides and needs, as collected from the options of its text |
| `FlowbitsText.FlowbitNames` | analyser/safe/orphan_flowbits.go:116-132 | the trimmed, non-empty fields of an option's arguments |
| `Flowbits.NamesFree` | analyser/safe/orphan_flowbits.go:116-132 | no name contains one of the ten separators |
| `FlowbitsText.AppendUniqueString` | analyser/safe/orphan_flowbits.go:134-141 | appends a value unless it is there |
| `FlowbitsText.ScanRendered` | analyser/safe/orphan_flowbits.go:80-91 | scanning a text written from options gives back exactly their values, whatever stands between them |
| `FlowbitsText.OptionParts` | analyser/safe/orphan_flowbits.go:91-100 | splitting at commas and joining again separates the operation from everything behind the first comma |
| `FlowbitsText.FieldsOfJoined` | analyser/safe/orphan_flowbits.go:116-125 | names joined by a separator are split into the same names |
| `FlowbitsText.CollectMeaning` | analyser/safe/orphan_flowbits.go:101-110 | a rule provides exactly the names of its set and toggle options and needs exactly those of its isset options, each listed once |
| `Flowbits.OrphanFlowbits` | analyser/safe/orphan_flowbits.go:26-74 | one decision, with the missing bits in its reason, for each rule that needs a bit no enabled rule provides, in order |
| `Flowbits.OrphansInOrder` | analyser/safe/orphan_flowbits.go:52-74 | decisions about exactly the rules that need a bit nobody provides, one for each, in order, its reason listing the missing bits once each |
| `Flowbits.MissingMeaning` | analyser/safe/orphan_flowbits.go:61-66 | the missing bits are the needed ones that are not provided |
| `Flowbits.NamesAgree` | wrap/snort/src/ips_options/ips_flowbits.cc:369-413 | for plainly written names the strategy and the engine read the same names up to letter case |
| `Flowbits.DeadExactly` | wrap/snort/src/ips_options/ips_flowbits.cc:232-295 | some bits among the provided ones meet all isset options of a rule if and only if none of them is unmeetable |
| `Flowbits.OrphanVersusDead` | analyser/safe/orphan_flowbits.go:59-73 | every dead rule is removed; among rules without alternatives exactly the dead ones are |
| `Flowbits.RemovalUnnoticed` | wrap/snort/src/detection/fp_create.cc:203-327 | over every trace, for options the engine and the strategy read alike, when removed rules are dead: set bits stay among the provided ones, no removed rule fires, and without them the same rules fire and the same bits remain |
| `Flowbits.ConjunctiveRemoval` | analyser/safe/orphan_flowbits.go:26-74 | for such rules without alternatives, from a flow without bits, removal changes no firing and no bit |
| `Flowbits.LiveOrphanIsNoticed` | analyser/safe/orphan_flowbits.go:59-73 | for an orphan without isnotset options: not dead if and only if its removal changes the firings in some state among the provided bits, reached by a flow or not |
| `Flowbits.OfferedIsSet` | analyser/safe/orphan_flowbits.go:101-105 | a bit is provided by a rule's text exactly when one of the engine's set options names it, up to letter case |
| `Flowbits.NeededIsTested` | analyser/safe/orphan_flowbits.go:106-110 | a bit is needed by a rule's text exactly when one of the engine's isset options names it, up to letter case |
| `FlowbitsWritten.WrittenReads` | wrap/snort/src/ips_options/ips_flowbits.cc:369-413 | for every rule written from options with plain names, whatever stands between them, the options the engine loads are those the strategy finds in the text |
| `FlowbitsWritten.OptionRead` | analyser/safe/orphan_flowbits.go:90-100 | the strategy reads a written option's operation and its names in lower case |
| `FlowbitsWritten.WrittenRemoval` | analyser/safe/orphan_flowbits.go:26-74 | the promise of the strategy for written rules: without alternatives, over every trace of a flow that starts without bits, removing the orphans changes no firing and no bit |
| `FlowbitsWritten.AlternativeIsLost` | analyser/safe/orphan_flowbits.go:116-132 | a concrete pair of written rules where the removed one fires |
| `FlowbitsReach.UnnoticedExactly` | analyser/safe/orphan_flowbits.go:26-74 | for any rules: removing the orphans changes no firing and no bit on any trace from a flow without bits if and only if no orphan passes its tests in any reachable state |
| `FlowbitsReach.ReachableExactly` | wrap/snort/src/ips_options/ips_flowbits.cc:232-295 | for any rules: the computed states are exactly those at the end of a trace from a flow without bits |
| `FlowbitsReach.TopDecides` | analyser/safe/orphan_flowbits.go:26-74 | for rules that neither clear a bit nor test for a missing one, no orphan passes in any reachable state if and only if none passes on the saturated bits |
| `FlowbitsReach.ReachedExactly` | wrap/snort/src/ips_options/ips_flowbits.cc:232-295 | for rules that neither clear a bit nor test for a missing one, the saturated bits are exactly those that some flow starting without bits comes to have |
| `FlowbitsReach.Saturate` | wrap/snort/src/ips_options/ips_flowbits.cc:232-295 | for such rules, sweeping until nothing changes ends in bits that no sweep changes |
| `FlowbitsReach.LiveOrphanShows` | analyser/safe/orphan_flowbits.go:59-73 | for any rules: an orphan that passes its tests in a state some trace from a flow without bits leads to fires there, and its removal shows |
| `Checksum.InCksumVec` | wrap/snort/libdaq/example/decode.h:88-116 | the loops compute the specified checksum with the accumulator's 32-bit wrap |
| `Checksum.AddPiece` | wrap/snort/libdaq/example/decode.h:92-109 | one piece adds its 16-bit words, the odd byte padded, modulo 2^32 |
| `Checksum.Fold` | wrap/snort/libdaq/example/decode.h:111-115 | the fold loop ends in the 16-bit representative of the sum modulo 65535 |
| `Checksum.FoldStep` | wrap/snort/libdaq/example/decode.h:111-113 | a fold step decreases the sum and keeps it modulo 65535 |
| `Checksum.OnesSumIsFoldedSum` | wrap/snort/libdaq/example/decode.h:88-116 | the one's-complement sum of sections 1 and 2 of RFC 1071 is the folded integer sum |
| `Checksum.VecSumIsSumOfConcat` | wrap/snort/libdaq/example/decode.h:92-109 | pieces of even length, except the last, sum like their concatenation |
| `Checksum.CksumVecIsReference` | wrap/snort/libdaq/example/decode.h:88-116 | up to 131,074 bytes the checksum is the RFC 1071 checksum of the concatenated pieces |
| `Checksum.WrapExactly` | wrap/snort/libdaq/example/decode.h:88-116 | for pieces of even length, except the last, it is that checksum if and only if the accumulator did not wrap, or wrapped a multiple of 65535 times with a remainder |
| `Checksum.ChecksumExactly` | wrap/snort/libdaq/example/decode.h:88-116 | for any pieces of any length: it is that checksum if and only if the wraps plus 255 times the misplaced words is a multiple of 65535, and the accumulator is not left at zero by a wrap |
| `Checksum.OddPiecesExactly` | wrap/snort/libdaq/example/decode.h:88-116 | for any pieces of at most 65,537 words: if and only if the misplaced words add up to a multiple of 257 |
| `Checksum.LengthBoundIsTight` | wrap/snort/libdaq/example/decode.h:88-116 | at 131,075 bytes all ones give a wrong checksum |
| `Checksum.OddPieceDiffers` | wrap/snort/libdaq/example/decode.h:98-108 | for an odd piece followed by another, up to 131,073 bytes on a host of either byte order: right if and only if the words of the second add up to a multiple of 257 |
| `Checksum.OddPieceCase` | wrap/snort/libdaq/example/decode.h:98-108 | pieces of one and two bytes give a wrong checksum on hosts of either byte order |
| `Checksum.StoredChecksumVerifies` | wrap/snort/libdaq/example/decode.h:88-116 | stored in a zeroed aligned field, the checksum makes the buffer check to zero |
| `Checksum.ByteOrderIndependence` | wrap/snort/libdaq/example/decode.h:88-116 | section 2(B) of RFC 1071: hosts of either byte order produce the same bytes and agree on zero |
| `Decoder.PacketDecoder.DecodeIcmp` | wrap/snort/libdaq/example/decode.h:173-200 | outcome and record are the specified ones, with every read inside the packet |
| `Decoder.PacketDecoder.DecodeIcmp6` | wrap/snort/libdaq/example/decode.h:202-228 | the same for ICMPv6 |
| `Decoder.PacketDecoder.DecodeTcpOpts` | wrap/snort/libdaq/example/decode.h:230-291 | the option walk ends, reads inside its bytes and marks the options seen |
| `Decoder.PacketDecoder.DecodeTcp` | wrap/snort/libdaq/example/decode.h:293-341 | outcome and record are the specified ones, with every read inside the packet; the specification accepts exactly the segments of `DecoderAccepts.TcpExactly` |
| `Decoder.PacketDecoder.DecodeUdp` | wrap/snort/libdaq/example/decode.h:343-386 | the same for UDP |
| `Decoder.PacketDecoder.DecodeIp6` | wrap/snort/libdaq/example/decode.h:388-455 | the same for IPv6 with its extension headers |
| `Decoder.PacketDecoder.DecodeIp` | wrap/snort/libdaq/example/decode.h:457-512 | the same for IPv4 |
| `Decoder.PacketDecoder.DecodeSnap` | wrap/snort/libdaq/example/decode.h:539-554 | the same for SNAP headers |
| `Decoder.PacketDecoder.DecodeEth` | wrap/snort/libdaq/example/decode.h:556-607 | the same for Ethernet with VLAN tags |
| `Decoder.PacketDecoder.DecodeRaw` | wrap/snort/libdaq/example/decode.h:609-619 | the same for raw IP |
| `Decoder.PacketDecoder.TransportChecksum` | wrap/snort/libdaq/example/decode.h:118-164 | the checksum over the pseudo-header of the network layer and the segment |
| `Decoder.PacketDecoder.UpdatePayloadChecksumOffsets` | wrap/snort/libdaq/example/decode.h:166-171 | the payload offset moves, the checksum offset only without an error |
| `DecoderProps.IcmpSound` | wrap/snort/libdaq/example/decode.h:173-200 | ordered layer offsets, checksum offset at most the payload's; a success with checksums enforced has no error and equal offsets; a tolerated error leaves the checksum offset at the first bad header |
| `DecoderProps.Icmp6Sound` | wrap/snort/libdaq/example/decode.h:202-228 | the same for ICMPv6 |
| `DecoderProps.TcpSound` | wrap/snort/libdaq/example/decode.h:293-341 | the same for TCP |
| `DecoderProps.UdpSound` | wrap/snort/libdaq/example/decode.h:343-386 | the same for UDP |
| `DecoderProps.Ip6ChainSound` | wrap/snort/libdaq/example/decode.h:411-455 | the same for every extension chain |
| `DecoderProps.Ip6Sound` | wrap/snort/libdaq/example/decode.h:388-455 | the same for IPv6 packets |
| `DecoderProps.IpSound` | wrap/snort/libdaq/example/decode.h:457-512 | the same for IPv4 packets |
| `DecoderProps.EthSound` | wrap/snort/libdaq/example/decode.h:556-607 | the same for every frame of at most 63,488 bytes |
| `DecoderProps.RawSound` | wrap/snort/libdaq/example/decode.h:609-619 | the same for every raw packet of at most 63,488 bytes |
| `DecoderMeaning.TransportSumIsReference` | wrap/snort/libdaq/example/decode.h:118-164 | the transport checksum is the RFC 1071 checksum of pseudo-header and segment |
| `DecoderMeaning.IcmpMeaning` | wrap/snort/libdaq/example/decode.h:173-200 | what an accepted ICMP message says about the bytes, its checksum verdict included |
| `DecoderMeaning.Icmp6Meaning` | wrap/snort/libdaq/example/decode.h:202-228 | the same for ICMPv6 with the pseudo-header of section 8.1 of RFC 8200 |
| `DecoderMeaning.TcpMeaning` | wrap/snort/libdaq/example/decode.h:293-341 | the same for TCP with its header length and data flag |
| `DecoderMeaning.UdpMeaning` | wrap/snort/libdaq/example/decode.h:343-386 | the same for UDP with its length field |
| `DecoderMeaning.OptionsMeaning` | wrap/snort/libdaq/example/decode.h:230-291 | the walk over the options follows section 3.1 of RFC 9293 hop by hop, each hop well formed with its required length; the options are accepted if and only if it reaches the end or an end-of-options byte, otherwise it stands at a malformed one; each mark is set if and only if it was before or some hop has that kind |
| `DecoderMeaning.OptionsAccepted` | wrap/snort/libdaq/example/decode.h:230-291 | accepted if and only if some walk of well-formed options ends the option bytes; for that walk the marks are the kinds met |
| `DecoderMeaning.Ip4Meaning` | wrap/snort/libdaq/example/decode.h:457-512 | an accepted IPv4 packet: header and lengths, checksum verdicts, and its transport header |
| `DecoderMeaning.Ip6ChainMeaning` | wrap/snort/libdaq/example/decode.h:411-455 | an accepted chain is a sequence of extension headers of section 4 of RFC 8200 that leads to the transport header or the end |
| `DecoderMeaning.PayloadPastEnd` | wrap/snort/libdaq/example/decode.h:425-455 | a packet accepted with its payload offset behind its last byte |
| `DecoderBounds.EthPayloadBound` | wrap/snort/libdaq/example/decode.h:556-607 | for every accepted frame: an IPv6 payload lies inside the packet if and only if no header of the chain announces more than is there; any other payload does |
| `DecoderBounds.RawPayloadBound` | wrap/snort/libdaq/example/decode.h:609-619 | the same for every accepted raw packet |
| `DecoderBounds.Ip6Payload` | wrap/snort/libdaq/example/decode.h:388-455 | the same for every accepted IPv6 packet, both for the bytes received and for the announced length |
| `DecoderBounds.ChainPayload` | wrap/snort/libdaq/example/decode.h:411-455 | the same for every accepted chain of extension headers and any limit |
| `DecoderBounds.Ip4Payload` | wrap/snort/libdaq/example/decode.h:457-512 | an accepted IPv4 packet's payload lies between its header and its announced length |
| `DecoderAccepts.TcpExactly` | wrap/snort/libdaq/example/decode.h:293-341 | a segment is accepted if and only if it has 20 bytes, its header length is at least 20 and at most the segment's, the RFC 1071 checksum of pseudo-header and segment is zero or ignored, and its option bytes are a complete chain of options |
| `DecoderAccepts.UdpExactly` | wrap/snort/libdaq/example/decode.h:343-386 | accepted if and only if it has 8 bytes, its length field is its length, and the checksum is zero or ignored |
| `DecoderAccepts.IcmpExactly` | wrap/snort/libdaq/example/decode.h:173-200 | accepted if and only if it has 8 bytes and its checksum is zero or ignored |
| `DecoderAccepts.Icmp6Exactly` | wrap/snort/libdaq/example/decode.h:202-228 | the same with the IPv6 pseudo-header |
| `DecoderAccepts.Ip4Exactly` | wrap/snort/libdaq/example/decode.h:457-512 | accepted if and only if version, header length, total length and header checksum are right and a TCP, UDP or ICMP payload is accepted; any other payload is |
| `DecoderAccepts.Ip6Exactly` | wrap/snort/libdaq/example/decode.h:388-455 | accepted if and only if there are 40 bytes of version 6 and some chain of extension headers within the announced length leads to an accepted TCP, UDP or ICMPv6 header or to the end |
| `DecoderAccepts.RawExactly` | wrap/snort/libdaq/example/decode.h:609-619 | every raw packet of at most 63,488 bytes: accepted if and only if it is a good packet of one of the two versions |
| `DecoderFrames.EthExactly` | wrap/snort/libdaq/example/decode.h:525-607 | every frame of at most 63,488 bytes: accepted if and only if its link layer, with SNAP headers and tags of the ethertypes 0x8100, 0x88A8, 0x9100, 0x9200 and 0x9300, leads to an ARP header, a good IP packet, or a type that is not looked into |
| `DecoderFrames.FrameRecord` | wrap/snort/libdaq/example/decode.h:556-607 | the record of an accepted frame: the Ethernet header at 0, the number of tags, the innermost one, the tag flags, and an ARP header |
| `DecoderFrames.TagsDecode` | wrap/snort/libdaq/example/decode.h:574-588 | the tag loop follows the tags to the first type that announces none and counts them |
| `IcmpReply.ForgeIcmpReply` | wrap/snort/libdaq/example/daqtest.c:381-446 | the buffer written is the specified reply |
| `IcmpReply.ReplyAnswers` | wrap/snort/libdaq/example/daqtest.c:381-446 | swapped addresses, echo-reply type, same identifier, sequence and data, and both checksums verify |
| `IcmpReply.RequestShape` | wrap/snort/libdaq/example/daqtest.c:381-395 | a decoded echo request with a 20-byte header has the layout the reply is built from |
| `IcmpReply.ReplyDecodes` | wrap/snort/libdaq/example/daqtest.c:381-446 | the reply to every such request decodes, framed or raw, with both checksums valid and the layers where the request's were |
| `IcmpReply.FramedReplyDecodes` | wrap/snort/libdaq/example/decode.h:556-607 | the same for frames with any number of VLAN tags |
| `Windows.MergeWindows` | misc/malicious_extractor/flow.go:48-63 | sorting and merging in place leaves the specified merge of a sorted permutation in the prefix, the write position never overtaking the read position |
| `Windows.MergeOne` | misc/malicious_extractor/flow.go:51-60 | one iteration in place: the merged prefix absorbs the next window and the windows behind it stay |
| `Windows.MergeCovers` | misc/malicious_extractor/flow.go:51-60 | merging keeps exactly the covered instants, for any windows |
| `Windows.MergeShape` | misc/malicious_extractor/flow.go:51-60 | the merged windows are separated, and with increasing ends when no window ends before it starts |
| `Windows.SearchExact` | misc/malicious_extractor/flow.go:41-46 | the binary search never answers yes wrongly, and is exact on separated windows |
| `Windows.QueryExact` | misc/malicious_extractor/flow.go:41-63 | a query on merged windows is true exactly when some original window contains the instant |
| `Windows.QuerySound` | misc/malicious_extractor/flow.go:41-63 | a positive answer is right for any windows |
| `Windows.QueryConditionIsTight` | misc/malicious_extractor/flow.go:41-63 | any window ending more than one unit before its start gives a wrong answer beside some good window |
| `Windows.HarmlessExactly` | misc/malicious_extractor/flow.go:41-63 | beside all lists of good windows every query is answered right if and only if the window's start is at most one past its end |
| `Windows.CoverDetermines` | misc/malicious_extractor/flow.go:51-60 | separated windows are determined by the instants they cover |
| `Windows.MergeIgnoresTies` | misc/malicious_extractor/flow.go:50-60 | the merged list depends only on the multiset of windows |
| `Windows.TiesConditionIsTight` | misc/malicious_extractor/flow.go:50-60 | any window ending before its start makes the order of equal starts show beside some good window |
| `Windows.TiesHiddenExactly` | misc/malicious_extractor/flow.go:50-60 | beside all lists of good windows the merge is the same for every sort if and only if the window's start is at most its end |
| `Windows.MergeIdempotent` | misc/malicious_extractor/flow.go:48-63 | merging merged windows changes nothing |
| `FlowIndex.MaliciousIndex.AddFlowWindow` | misc/malicious_extractor/csv_index.go:130-136 | the window is recorded under the key and its reverse |
| `FlowIndex.MaliciousIndex.MergeIndexWindows` | misc/malicious_extractor/flow.go:48-63 | every key's list is replaced by its merge |
| `FlowIndex.MaliciousIndex.Lookup` | misc/malicious_extractor/flow.go:41-46 | a hit means that a recorded flow of the key or its reverse contains the instant; for windows with start at most end + 1 a miss means there is none |
| `FlowIndex.RecordedBothWays` | misc/malicious_extractor/csv_index.go:130-136 | after any series of insertions a key and its reverse hold the same list |
| `FlowIndex.RecordedWindows` | misc/malicious_extractor/csv_index.go:130-136 | that list holds exactly the windows inserted for either direction |
| `FlowIndex.AnswerIsMarked` | misc/malicious_extractor/flow.go:41-63 | answers after merging are right, and equal for both directions |
| `MsgPool.MessagePool.CreateMessagePool` | wrap/snort/daqs/daq_hext.c:117-161 | succeeds exactly when every buffer can be allocated; then all descriptors are free; after a failure exactly those allocated are set up |
| `MsgPool.MessagePool.MsgReceive` | wrap/snort/daqs/daq_hext.c:729-771 | hands out the first free descriptors in order, each filled with its own message that was read successfully and not interrupted, none of them outstanding before; the buffer shortage occurs only on an empty free list, an interrupt is answered once, and any other status is the reader's; a read that fails may have written into the first free descriptor and into no other |
| `MsgPool.MessagePool.MsgFinalize` | wrap/snort/daqs/daq_hext.c:773-788 | puts an outstanding descriptor at the head of the free list and counts its verdict, an unknown one as a pass |
| `MsgPool.MessagePool.Fill` | wrap/snort/daqs/daq_hext.c:369-397 | stores at most snaplen bytes, in order |
| `MsgPool.MessagePool.ResetStats` | wrap/snort/daqs/daq_hext.c:704-708 | restarts the count at what is outstanding |
| `MsgPool.MessagePool.Serve` | wrap/snort/daqs/daq_file.c:396-455 | any run of receives and finalizes keeps free and outstanding descriptors a partition, and verdicts plus outstanding grow by exactly what was received |
| `MsgPool.ChainUnique` | wrap/snort/daqs/daq_file.c:104-148 | the links from a head spell one finite list |
| `MsgPool.OkTake` | wrap/snort/daqs/daq_hext.c:760-763 | unlinking the head keeps the pool's invariant; the head is null exactly on an empty list |
| `MsgPool.OkPut` | wrap/snort/daqs/daq_hext.c:778-785 | pushing an outstanding descriptor keeps it |
| `MsgPool.OkGrow` | wrap/snort/daqs/daq_hext.c:153-157 | setting up one more descriptor keeps it |
| `MsgPool.FilledAt` | wrap/snort/daqs/daq_hext.c:753-765 | each descriptor handed out holds its own message |
| `MsgPool.FilledOther` | wrap/snort/daqs/daq_hext.c:753-765 | no other buffer is touched |
| `Tailer.AlertTailer.ImportLine` | sql/alerts/store.go:255-267 | an empty or invalid line changes nothing, an alert joins the batch, a full batch is inserted |
| `Tailer.AlertTailer.InsertBatch` | sql/alerts/store.go:243-253 | a batch is inserted whole, or kept whole on a failure |
| `Tailer.AlertTailer.ImportLines` | sql/alerts/store.go:238-271 | the lines up to one that is too long are imported; counts what was inserted and reports the long line |
| `Tailer.AlertTailer.ReadAvailable` | sql/alerts/store.go:197-232 | imports the complete lines behind the offset, on the final read all bytes, restarts after truncation, and moves the offset unless a line was too long |
| `Tailer.AlertTailer.Tail` | sql/alerts/store.go:135-145 | one read per tick and a final one |
| `Tailer.NothingDropped` | sql/alerts/store.go:238-271 | at every point of an import, whatever inserts fail, stored plus batch are the alerts parsed so far |
| `Tailer.ImportStores` | sql/alerts/store.go:238-271 | an import stores a prefix of its alerts, all of them if and only if its last insert did not fail |
| `Tailer.ParsedInOrder` | sql/alerts/store.go:246-258 | the alerts are what exactly the lines that are not blank and parse give after trimming, in order |
| `Tailer.BatchesOf256` | sql/alerts/store.go:255-264 | while no insert fails, a batch is inserted with every 256th alert |
| `Tailer.LinesMeaning` | sql/alerts/store.go:238-247 | no line contains a newline, and with newlines behind them the lines are the text, whose last newline may be missing |
| `Tailer.ReadMeaning` | sql/alerts/store.go:197-232 | one read of any file, truncated or not: it starts at the offset, or at 0 when the file is shorter; it takes everything up to the last newline, on the final read all; it stores a prefix of the alerts before the first line that is too long, all of them if and only if its last insert did not fail; the offset ends behind what was taken, or where it started after such a line |
| `Tailer.LinesOfAppended` | sql/alerts/store.go:215-222 | cutting a text behind a newline cuts its list of lines |
| `Tailer.PollsConsume` | sql/alerts/store.go:197-232 | after any polls of a growing file exactly the complete lines up to the offset have been consumed, once and in order: the reads split their alerts among them, the table gains a prefix of each read's alerts in turn, and all of them if and only if no read ended on a failed insert |
| `Tailer.ReadsSplit` | sql/alerts/store.go:197-232 | the alerts of the reads, one after another, are the alerts of the lines up to the offset |
| `Tailer.PollsKeepPrefixes` | sql/alerts/store.go:197-253 | for any contents, truncated and with lines too long included: the table is what it was, followed by a prefix of each read's alerts in turn |
| `Tailer.ExactlyOnce` | sql/alerts/store.go:115-232 | after any polls and a final read, every line behind the starting offset has been consumed once and in order: the reads split its alerts among them, the table gains a prefix of each read's alerts in turn, and all of them if and only if no read ended on a failed insert |
| `Tailer.LostBatchCase` | sql/alerts/store.go:243-271 | while every insert fails, a read to the end of the file stores nothing and moves the offset |
| `Tailer.LongLineSticks` | sql/alerts/store.go:226-231 | a complete line that is too long stops the offset however the file grows |
| `Tailer.LongLineArrives` | sql/alerts/store.go:226-231 | the same for a line that arrives during the polls: the offset stays from the poll that finds it complete on |
| `Tailer.ReachesEndExactly` | sql/alerts/store.go:135-232 | for any polls of a growing file and a final read: the offset comes to the end of the file if and only if no line behind the starting offset is too long, ended or not |
| `Tailer.PollsFit` | sql/alerts/store.go:197-232 | what any polls have consumed are complete lines none of which is too long |
| `Tailer.LongLineRepeats` | sql/alerts/store.go:226-231 | two reads then store the alerts before that line twice |
| `MainThread.Safe` | wrap/snort/src/main.cc:171-346 | for every interleaving: a command's count is the number of references workers hold plus those leaked, no command is destroyed twice or while held, none is touched afterwards, the number of pigs with an analyzer is `swine` and never negative, and a free pig is found whenever asked for |
| `MainThread.RunKeeps` | wrap/snort/src/main.cc:171-346 | every run keeps the protocol's invariant |
| `MainThread.StepKeeps` | wrap/snort/src/main.cc:171-346 | every single step of any thread keeps it |
| `MainThread.AnalyzerStepKeeps` | wrap/snort/src/main/analyzer.cc:813-876 | the packet threads' steps keep it, a retry that fails again included |
| `MainThread.GiveKeeps` | wrap/snort/src/main.cc:231-249 | queuing a command to a running pig keeps it |
| `MainThread.ReapKeeps` | wrap/snort/src/main.cc:251-286 | reaping a completed command keeps it |
| `MainThread.OrphanKeeps` | wrap/snort/src/main.cc:937-943 | deleting an orphan keeps it |
| `MainThread.StopKeeps` | wrap/snort/src/main.cc:200-229 | stopping a pig keeps it, and `swine` was positive |
| `MainThread.PrepKeeps` | wrap/snort/src/main.cc:1235-1245 | preparing a pig keeps it, and there was a free one |
| `MainThread.InitialInv` | wrap/snort/src/main.cc:1138-1155 | both starting states satisfy it |
| `MainThread.BalancedPutAll` | wrap/snort/src/main.cc:217-226 | reaping queues takes each reference off the books once |
| `MainThread.LeakedExactly` | wrap/snort/src/main.cc:214-228 | nothing leaks in a run if and only if no analyzer is stopped with uncompleted commands |
| `MainThread.FirstInFirstOut` | wrap/snort/src/main/analyzer.cc:800-840 | in every run, until an analyzer is stopped: what it had queued and what was queued to it since is what it took, in this order, followed by what is still queued |
| `MainThread.AllDestroyed` | wrap/snort/src/main.cc:200-286 | once nothing is queued, every command has been destroyed exactly once if and only if nothing leaked |
| `MainThread.DeferredLeaks` | wrap/snort/src/main.cc:214-228 | a run whose only command is never destroyed |
| `MainThread.Herd.GetLazyPig` | wrap/snort/src/main.cc:295-303 | the first pig without an analyzer; the loop never runs off the array |
| `MainThread.Herd.QueueCommand` | wrap/snort/src/main.cc:231-249 | a reference and a queue entry for a running pig; otherwise nothing, or an orphan |
| `MainThread.Herd.BroadcastCommand` | wrap/snort/src/main.cc:329-346 | undisturbed, the protocol's broadcast steps in order: exactly the pigs with an analyzer and a thread get the command, each at the end of its queue, it has one reference for each of them, and it is orphaned exactly when there are none; nothing else changes |
| `MainThread.Herd.ReapCommands` | wrap/snort/src/main.cc:267-286 | undisturbed, the do-while loop reaps all completed commands of a pig |
| `MainThread.Herd.ReapOrphans` | wrap/snort/src/main.cc:937-943 | all orphans are destroyed |
| `MainThread.Herd.StopPig` | wrap/snort/src/main.cc:200-229 | the reaping loops and the deletion are the protocol's stop step |
| `Sorting.SortSlice` | misc/malicious_extractor/flow.go:50-50 | a sorted permutation, for any total preorder |
| `Sorting.SortUnique` | analyser/scheduler/helpers.go:116-126 | without ties the sorted permutation is unique |

## Left out

- SQLite, files, HTTP, processes, signals and timers: tables are maps or sequences, Snort and the strategies are oracles.
- Regular expressions, JSON and time layouts: parsed values are inputs, and the tailer's line parser is a parameter.
- Float64 rounding: rates, factors and limits are real numbers.
- Wrap-around of 64-bit counters and times.
- Reasons, metrics and log messages, except the missing bits in an orphan's reason.
- Case mapping outside ASCII in protocol names and rule texts.
- Alert rows of a reused run id: the alerts seen under an id are whatever the world returns at that time.
- Packets longer than 63,488 bytes, where a 16-bit offset could wrap.
- Reading of hext lines and commands in `wrap/snort/daqs/daq_hext.c`: a read is a status and the bytes offered.
- Waiting for the alert file to appear: the tailer starts with an open file.
- The order in which the detection engine visits rules, detection filters and event queues: a trace is any sequence of rules whose other options match.
- Rules whose flowbits the engine rejects, and flowbits texts inside quoted content.
- How the engine's rule parser cuts a rule into options: a written flowbits option is its operation, a comma and its names, without padding.
- Main-thread handling of privileges, pauses and state-change notifications: the start of a pig is a step of its own, taken once for each analyzer.
- MainThread.Herd.BroadcastCommand: states the loop without interference; interleavings are covered by the steps in MainThread.Safe.
- MainThread.Herd.ReapCommands: states the loop without interference; interleavings are covered by the steps in MainThread.Safe.
- `replace_icmp_data`, packet printing, the ARP reply and the rest of `daqtest.c`.
- The deprecated analyser, the front end, scripts, configuration loading and the remaining strategies.
