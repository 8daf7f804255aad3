# Verification of the test harness, batching transport, pipeline suites and config loader

This project models the hard core of the repository in Dafny and proves what it promises, over
every input, every run and every reachable state.

| component | source | modules |
|---|---|---|
| Property-test runner and shrinker | `crates/harness/src/{runner,outcome,rng}.rs` | `Rng`, `Outcome`, `Driver`, `Replay`, `Shrink`, `Endurance`, `Mix`, `RunnerModel`, `EnduranceReplay` |
| Batching JSON-RPC transport | `crates/cosmwasm/src/transport.rs` | `Route`, `Transport`, `Batch` |
| Pipeline suites | `crates/harness-cli/src/{cli,registry}.rs`, `crates/harness-config/src/validate.rs` | `Validate`, `Pipeline`, `Handoff`, `RegistryModel` |
| Config loader stages | `crates/harness-config/src/{interpolate,merge}.rs`, `crates/config/src/lib.rs` | `Document`, `Tables`, `Interpolate`, `Merge` |

**How it is laid out.** Each imperative piece appears twice. A function on values says what a whole
run does (`Driver.Drive`, `Endurance.Endure`, `Transport.Apply`, `Pipeline.RunSuite`,
`Interpolate.Interpolated`, `Merge.Merged`); the theorems are about these. A class or a method with
loops does the same in place, as the source does, and is proved equal to that function
(`RunnerModel.Runner`, `Batch.BatchHttpTransport`, `RegistryModel.Registry`,
`Interpolate.InterpolateString`, `Merge.ConfigDocument`).

**The runner.** A harness is a record of deterministic functions over one `State`, the live context
together with the model world. The generator is a stream of draws in range. Replaying a recorded
history reproduces its run; denser checking fails no later; the shrinker returns a non-empty
order-preserving part of the failing history that still fails the same way, is one-minimal when
drops free nothing (as when failure is monotone), and needs at most `3n - 2 + floor(log2 n)` replays.

**The transport.** Everything between two await points is one event: a call arrives, a leader's
timer ticks, a POST finishes, a leader leaves, a call returns, or a call future is dropped. The
invariant of `Transport.Inv` holds in every reachable state under any interleaving.

**The suites.** What a profile does to a world is a parameter, so the theorems hold for every
harness. The validator and the runtime are joined by `Handoff`: which of the suites the validator
accepts really hand a donor's world to its heir.

**The config loader.** Strings are interpolated by a character scanner that is proved equal to a
left-to-right recursive meaning, and documents are merged table by table.

## What turned out otherwise

- The validator accepts suites whose handoff fails. The session slot holds one world, so a second
  donor running before the first heir overwrites it. `Handoff.CrossedSuiteLosesAWorld` gives a
  validated suite of four phases where the first heir starts from the wrong world and the second
  finds nothing; `Handoff.HandoffWorksIffNonInterleaved` gives the exact condition on the suite.
- The validator requires single-case ends of a handoff, but a case count given on the command line
  or in the environment (`crates/harness-cli/src/cli.rs:561-565`) overrides the validated one: any
  count other than one makes a slot user fail at run time
  (`Handoff.SlotUserIsSingleCase`, `Handoff.MultiCaseSlotUserIsRefused`).
- A failed endurance run is shrunk against the failure of its re-driven history, and a re-drive
  tolerates nothing: what is shown need not fail as the report says. On
  `EnduranceReplay.ToleratedOutageHidesTheBug` a tolerated outage comes before a bug; the report says
  bug, and the shown history fails with the outage. `EnduranceReplay.EnduranceShownFailsAsReportedIff`
  gives the exact condition, for every way such a run can fail, when advancing blocks leaves the
  state alone; `EnduranceReplay.AdvancedBlocksAreNotRedriven` shows that this is needed.
- In an endurance run a step whose operation meets a tolerated infrastructure failure is not checked,
  even when the cadence calls for it; `Endurance.EnduranceAccounting` counts the checks made.
- A run that ended because nothing was drawable is shown with its whole history, at which nothing
  fails: `RunnerModel.UndrawableHistoryIsShownWhole`.
- Shrinking need not end one-minimal, even within budget, when the failure is not monotone:
  `RunnerModel.ShrinkingStopsShort` gives a harness of five states on which four operations shrink
  to two although the last one alone fails alike. The source's own words are "near-minimal".
- The comment at `crates/harness/src/runner.rs:1393-1396` says that shrinking a sequence from which
  nothing can be removed costs O(n log n) replays. `Shrink.FutileSearchCost` gives the exact cost,
  and `Shrink.TotalCostBound` its linear bound.
- A leader cancelled over a queue strands it: those calls are neither failed nor served until
  another call is accepted (`Transport.DroppedLeaderStrandsTheQueue` is the smallest run,
  `Transport.StrandedUntilNextCall` the general fact). The exact condition is on the cancellations of
  leaders: none over queued calls (`Transport.StrandedIffLeaderDroppedOverQueue`), none over POSTs
  under way (`Transport.RepliesLostIffLeaderDroppedOverFlights`), and for full service neither
  (`Transport.ClearFlagMeansAllServed`).
- A literal ending in `$` is misread when the spelling of what follows starts with `{` or `${`, a
  `${VAR}` reference above all, because that pair or triple is read as an opening or an escape.
  These are the only templates that are misread: `Interpolate.ReadAsMeantIffWritable`.
- Replaying a run that ended because no operation kind was drawable passes: the failure is not the
  failure of an operation. `Replay.ReplayReproduces` states the exception.

## Model

| member | source | states |
|---|---|---|
| Rng.WeightedIsExact | crates/harness/src/rng.rs:57-71 | of the `total` equally likely picks, exactly `weights[i]` select bucket `i` |
| Rng.BucketIsInterval | crates/harness/src/rng.rs:62-69 | bucket `i` owns exactly the half-open interval of picks that starts at the sum of the weights before it |
| Rng.DrawnBucketHasWeight | crates/harness/src/rng.rs:57-71 | while some weight is non-zero, the drawn index is in range and its weight is non-zero |
| Rng.Generator.Weighted | crates/harness/src/rng.rs:57-71 | the subtraction loop draws the interval's bucket, never underflows, never reaches its fallback, and leaves the stream untouched when nothing has weight |
| Rng.SubSeedRecoversIndex | crates/harness/src/rng.rs:93-95 | the case index can be computed back from a sub-seed: cancel the base seed, multiply by the inverse of the odd constant modulo 2^64 |
| Rng.SubSeedInjective | crates/harness/src/rng.rs:93-95 | two case indices with the same sub-seed of one base seed are equal |
| Rng.GoldenInvertible | crates/harness/src/rng.rs:94 | wrapping multiplication by the constant is undone by wrapping multiplication by its inverse |
| Outcome.RecordEntry | crates/harness/src/outcome.rs:217-241 | recording a check changes the tally of the checked name only, by one in the outcome's column, and puts a skip's reason behind the earlier ones |
| Outcome.SkipCountIsReasonCount | crates/harness/src/outcome.rs:225-246 | when every skip left a reason, the summed skip tallies equal the number of stored reasons |
| Outcome.RecordKeepsSkipsExplained | crates/harness/src/outcome.rs:217-236 | every recording keeps, for every name, as many reasons as skips |
| Outcome.CoverageRecorder.RecordHeld | crates/harness/src/outcome.rs:218-220 | the in-place update is the held record of the tally table |
| Outcome.CoverageRecorder.RecordSkipped | crates/harness/src/outcome.rs:225-231 | the in-place update counts the skip and appends the reason behind the earlier ones |
| Outcome.CoverageRecorder.RecordViolated | crates/harness/src/outcome.rs:234-236 | the in-place update is the violated record of the tally table |
| Outcome.CoverageRecorder.TotalSkipped | crates/harness/src/outcome.rs:244-246 | the loop over the table returns the sum of all skip tallies, whatever the order |
| Driver.DrawnKindHasWeight | crates/harness/src/runner.rs:1164-1179 | a generated operation comes from a kind whose static and dynamic weight are both non-zero, generated after the kind draw |
| Mix.MixIsRefusedIff | crates/harness/src/runner.rs:336-358 | a mix is refused exactly when none of its kinds has weight; kinds without a weight of their own weigh 1 |
| Mix.DrawIsFair | crates/harness/src/runner.rs:1155-1180 | a draw from a mix ends with the budget, is refused exactly when every share is zero, and otherwise generates from the pair in whose share the pick falls; a share is pair weight times dynamic weight, saturated, and a pair with a zero weight has none |
| Mix.ShareIsExact | crates/harness/src/rng.rs:57-71 | of the sum of the shares, exactly as many picks fall to a pair as its share says |
| Mix.RunDrawsFromMix | crates/harness/src/runner.rs:383-424 | every operation of a generated run was drawn fairly from the pairs of the mix the caller gave, and there are at most as many as asked for |
| Mix.EnduranceDrawsFromMix | crates/harness/src/runner.rs:501-540 | the same for every operation of an endurance run |
| Replay.HistoryGrows | crates/harness/src/runner.rs:1191-1229 | a run extends the history it was given by one operation per step and never exceeds the source's size |
| Replay.FixedRun | crates/harness/src/runner.rs:1031-1066 | a fixed list leaves the generator alone, never runs dry, and a passing run has driven all of it |
| Replay.ReplayReproduces | crates/harness/src/runner.rs:764-766 | a run's history re-driven as a fixed list at the same cadence gives the same state, steps, coverage and failure, except after an undrawable kind, where it passes |
| Replay.ProperPrefixesPass | crates/harness/src/runner.rs:1191-1229 | every proper prefix of a recorded history passes when driven on its own |
| Replay.SweepFindsTheFirst | crates/harness/src/runner.rs:1234-1262 | a sweep checks the invariants in turn, each on the state the one before left; it fails with the name and detail of the first violated one and stops there, or passes when none is |
| Replay.FixedListFailsFirst | crates/harness/src/runner.rs:1191-1334 | a fixed list fails exactly at the step, and with the failure, that its harness gives when read operation by operation: an error of its own kind, or the first violation at a step the cadence calls for |
| Replay.ScenarioFailsFirst | crates/harness/src/runner.rs:702-759 | the same for a scenario, with a verdict other than the expected one told by its step number, and checks where step and cadence both call for them |
| Prelude.DecimalReadsBack | crates/harness/src/runner.rs:735-743 | step numbers and indices are written in digits without leading zeros that read back as the number |
| Replay.ReportTellsTheRun | crates/harness/src/runner.rs:1071-1123 | every report has one step per recorded operation and lists every invariant; it has a failure exactly when the run did not pass, at the last step, on the last operation, with the whole history |
| Replay.ScenarioAgrees | crates/harness/src/runner.rs:682-691 | the scenario driver on any-verdict checked steps is the fixed driver at cadence 1 |
| Replay.DenserCheckingFailsNoLater | crates/harness/src/runner.rs:1211-1227 | with checks that do not change the state, a list that fails at some step under cadence `b` fails no later under a cadence that divides `b` |
| Replay.RecordedFailureReplaysAtCadenceOne | crates/harness/src/runner.rs:764-766 | `replay` fails, no later, on every recorded operation or invariant failure of a run at any cadence |
| Replay.CoverageAccounting | crates/harness/src/runner.rs:1211-1262 | without a failing step every invariant name totals its multiplicity times `floor(n/k)` with no violation; a failing run shows one violation, under the failure's name, or none if an operation failed |
| Replay.ReportedSkipsAreReasons | crates/harness/src/runner.rs:1096-1123 | on every exit of the sequence driver the report's skip count is the number of stored skip reasons |
| Replay.ScenarioSkipsAreReasons | crates/harness/src/runner.rs:702-759 | the same for every exit of the scenario driver, whatever its steps expect |
| Endurance.EnduranceSkipsAreReasons | crates/harness/src/runner.rs:511-623 | the same for every exit of the endurance loop, final sweep included |
| RunnerModel.EmptyMixSkipsAreReasons | crates/harness/src/runner.rs:320-330 | the same for the remaining exit, a mix that can never draw |
| Shrink.StuckStaysStuck | crates/harness/src/runner.rs:922-944 | when dropping a later operation frees no earlier one, the operations before index `i` that could not be dropped stay so after dropping `i`: why one visit per index suffices |
| Shrink.MonotoneFreesNothing | crates/harness/src/runner.rs:922-944 | a failure that every larger part of the original shares is of that kind |
| Shrink.WindowCostBound | crates/harness/src/runner.rs:884-919 | the window passes from size `s` down cost at most `log2 s + 1` plus `(n - 1)(2s - 1) / s` candidates |
| Shrink.TotalCostBound | crates/harness/src/runner.rs:884-944 | both passes together need at most `3n - 2 + floor(log2 n)` candidates |
| Shrink.FutileSearchCost | crates/harness/src/runner.rs:884-944 | when no shorter part fails, the search replays exactly one candidate per window of every halved size plus one per operation, and drops nothing |
| Shrink.WindowsKeep | crates/harness/src/runner.rs:887-917 | one window pass keeps a failing part of the original, replays at most `ceil(len / size)` candidates, and runs out only with a smaller budget |
| Shrink.HalvingKeeps | crates/harness/src/runner.rs:884-919 | the halving window passes keep a failing part of the original within their summed cost |
| Shrink.SinglesMinimize | crates/harness/src/runner.rs:921-944 | the single-operation pass keeps a failing part of the original, replays at most one candidate per operation, and ends one-minimal when drops free nothing and the budget lasted |
| Shrink.MinimizeIsSound | crates/harness/src/runner.rs:880-945 | for every predicate and every limit: the result is a non-empty order-preserving failing part, replays stay within the limit and within `3n - 2 + floor(log2 n)`, a limit above that is never exhausted, and a failure whose drops free nothing, such as a monotone one, ends one-minimal |
| Shrink.JaggedSearchStopsShort | crates/harness/src/runner.rs:880-945 | for every predicate with these verdicts on four operations, the search ends with budget to spare where one more operation can be dropped |
| Endurance.ToleranceIsSlidingWindow | crates/harness/src/runner.rs:544-572 | the loop fails on a step exactly when that step is the first that is fatal or completes `max + 1` consecutive infrastructure failures; steps never exceed `max_ops` |
| Endurance.EveryOrdinaryRunIsSwept | crates/harness/src/runner.rs:519-619 | a run that did not fail on a step, run dry or fail to advance left its loop at the clock, the flag or the budget, and survived exactly if every invariant, checked in turn from there, holds; otherwise it failed with the first that does not |
| Endurance.EnduranceAccounting | crates/harness/src/runner.rs:541-619 | a surviving run checked every name its multiplicity times per due step whose operation did not fail, and once more at the end, without a violation; a failed one shows the one violation it reports |
| Endurance.AllGoodChecksDue | crates/harness/src/runner.rs:541-555 | when no operation failed, those due steps are `floor(n/k)` |
| Endurance.PacingAdvancesAndDelays | crates/harness/src/runner.rs:574-606 | after a tolerated step the base number of blocks plus a draw up to the jitter is advanced, then the delay is drawn in whole milliseconds; a failed advance ends the run before that |
| Endurance.ReportTellsTheRun | crates/harness/src/runner.rs:511-623 | the report of an endurance run: steps, history, last operation and failure as the run ended, every invariant listed |
| RunnerModel.Runner.Apply | crates/harness/src/runner.rs:1275-1314 | applying moves the state and maps each harness error to its failure kind |
| RunnerModel.Runner.CheckAll | crates/harness/src/runner.rs:1234-1262 | the loop over the invariants is the recursive sweep: every outcome recorded, the first violation ends it |
| RunnerModel.Runner.TakeStep | crates/harness/src/runner.rs:1320-1334 | apply, then sweep if due and the operation did not fail |
| RunnerModel.Runner.NextOp | crates/harness/src/runner.rs:1148-1183 | the draw and the generator after it, for both kinds of source |
| RunnerModel.Runner.DriveSource | crates/harness/src/runner.rs:1191-1229 | the driver loop ends in the report, state and generator of the specified run |
| RunnerModel.Runner.RunWith | crates/harness/src/runner.rs:383-424 | a mix that can never draw is reported at step 0 with nothing changed; otherwise the specified generated run; a reported history was drawn fairly from the pairs of the mix |
| RunnerModel.Runner.RunFixed | crates/harness/src/runner.rs:1031-1066 | the specified fixed run, with the generator unchanged |
| RunnerModel.Runner.ReplayHistory | crates/harness/src/runner.rs:764-766 | a replay is the fixed run at cadence 1 |
| RunnerModel.Runner.RunSteps | crates/harness/src/runner.rs:702-759 | the scenario loop is the specified scenario run: expectations, per-step checks and cadence |
| RunnerModel.Runner.RunScenario | crates/harness/src/runner.rs:682-691 | the scenario loop on a plain list reports exactly what the fixed driver at cadence 1 would |
| RunnerModel.Runner.RunEndurance | crates/harness/src/runner.rs:460-623 | the endurance loop with its streak counter is the specified endurance run, final sweep included |
| RunnerModel.Runner.PaceLap | crates/harness/src/runner.rs:574-606 | pacing draws block jitter then delay jitter, and stops at a failed block advance |
| RunnerModel.Runner.TryCandidate | crates/harness/src/runner.rs:951-983 | no verdict once the budget is used up; otherwise one unit is spent and the candidate, re-driven from the rebuilt start, is accepted exactly for the same bug detail, the same invariant name, or any infrastructure failure when that is looked for |
| RunnerModel.Runner.DropWindows | crates/harness/src/runner.rs:887-918 | the loop over one window size makes exactly the specified pass: same candidates, same budget, same result |
| RunnerModel.Runner.DropSingles | crates/harness/src/runner.rs:921-945 | the single-operation loop makes exactly the specified pass, trying the same index again after a drop |
| RunnerModel.Runner.ShrinkInner | crates/harness/src/runner.rs:858-945 | a passing input comes back unchanged at no cost; a failing one is searched exactly as `Shrink.Minimize` does against its own re-driven failure; the generator is untouched |
| RunnerModel.ShrinkingIsSound | crates/harness/src/runner.rs:858-983 | for every harness and every limit: a non-empty order-preserving part that re-drives to the same failure, both replay bounds, and one-minimality when drops free nothing, as for monotone failures |
| RunnerModel.ShrinkingSearchesForTheSameFailure | crates/harness/src/runner.rs:858-983 | the search accepts a candidate exactly when it re-drives to a bug with an equal detail, to an invariant failure of the same name whatever its detail, or to any infrastructure failure if that is the reference |
| RunnerModel.ShownFailureIsTheSame | crates/harness/src/runner.rs:1382-1391 | what shrinking shows re-drives to the very bug the whole history fails with, to the same invariant, or again to an infrastructure failure |
| RunnerModel.Runner.RunAndShrink | crates/harness/src/runner.rs:1003-1028 | a passing run is reported as it is; a failing one is reported as the re-drive, from a rebuilt start, of exactly the shrunk history, and shows that history |
| RunnerModel.ShrunkReportKeepsFailure | crates/harness/src/runner.rs:1003-1028 | when rebuilds give the starting state, that report fails the same way as the original run, on a non-empty order-preserving part of the operations |
| RunnerModel.ShrinkingStopsShort | crates/harness/src/runner.rs:880-945 | a harness of five states and four operations, not monotone, on which shrinking ends unexhausted at two operations although one of them alone fails the same way |
| RunnerModel.MaybeShrink | crates/harness-cli/src/registry.rs:627-683 | shrinking happens exactly for enabled, failed, non-inherited, unpatched runs, and replaces nothing but the failure's history, by the shrunk one |
| RunnerModel.ShownHistoryFailsAsReported | crates/harness-cli/src/registry.rs:660-683 | from run to report: the history shown for a generated run that failed at a step is a non-empty part of what was run and fails as reported; with a limit of `3n - 2 + floor(log2 n)` and drops that free nothing it is one-minimal |
| RunnerModel.UndrawableHistoryIsShownWhole | crates/harness-cli/src/registry.rs:660-683 | a run that ended undrawable is shown with its whole history, unshrunk, and that history re-drives to a pass |
| RunnerModel.ShownFailsAlikeIff | crates/harness-cli/src/registry.rs:660-683 | for any history and any failure, what shrinking shows fails like it if and only if the whole history does; a passing history is shown whole at no cost |
| EnduranceReplay.EnduranceHistoryRedriven | crates/harness/src/runner.rs:541-584 | the history of an endurance run that advances quietly re-drives to a pass if every step was good, to the reported failure if the fatal step was the only other, and else to an infrastructure failure |
| EnduranceReplay.EnduranceReportReproducesIff | crates/harness-cli/src/registry.rs:1019-1026 | for every failed endurance run that advances quietly, the whole history re-drives to the reported failure if and only if `ReportReproduces`, which is read off the grades and the ending |
| EnduranceReplay.EnduranceShownFailsAsReportedIff | crates/harness-cli/src/registry.rs:1019-1026 | the same for the shrunk history that is shown; when all grades are good and no step was fatal it is the whole history |
| EnduranceReplay.ToleratedOutageHidesTheBug | crates/harness-cli/src/registry.rs:1019-1026 | a two-step run with one tolerated outage reports a bug, and its history, whole or shrunk, fails with the outage instead |
| EnduranceReplay.AdvancedBlocksAreNotRedriven | crates/harness/src/runner.rs:574-584 | a two-step run whose bug only appears after blocks advanced: every earlier step is good, and its history re-drives to a pass |
| RunnerModel.DefaultLimitSuffices | crates/harness/src/runner.rs:1393-1397 | the default limit is never exhausted on up to 84 operations |
| Route.EveryCallAnsweredOnce | crates/cosmwasm/src/transport.rs:315-355 | whatever the response holds, each call of the chunk is sent exactly one result |
| Route.SuccessesPerId | crates/cosmwasm/src/transport.rs:334-345 | for each id the number of successes is the smaller of its count among calls and among response elements |
| Route.EachCallGetsItsFirstElement | crates/cosmwasm/src/transport.rs:334-345 | with distinct request ids each call gets the first element carrying its id, or an error if there is none, despite `swap_remove` |
| Route.ResponseOrderIsIrrelevant | crates/cosmwasm/src/transport.rs:334-345 | with distinct ids on both sides, permuting the response changes neither who succeeds nor what they receive |
| Route.UnansweredLearnTheOrphanError | crates/cosmwasm/src/transport.rs:330-354 | every unanswered call is sent the message of the first error element for which no call was left, counting calls and elements of its id, as the error of the whole response; without one, that its own id has no entry; ids may repeat |
| Route.NotJsonFailsEveryone | crates/cosmwasm/src/transport.rs:316-325 | a body that is not JSON tells every call of the chunk so |
| Route.RouteResponse | crates/cosmwasm/src/transport.rs:315-355 | the loop over elements and shrinking chunk sends exactly what the specification says, in order; every call that fails is told that the body was not JSON, the first unowned error, or that its own id has no entry |
| Transport.ExactlyOnePlace | crates/cosmwasm/src/transport.rs:193-257 | each accepted call is queued, in flight or settled: in exactly one of these, exactly once |
| Transport.EventConserves | crates/cosmwasm/src/transport.rs:193-299 | every event keeps the multiset of accepted calls over queue, flushes and settlements |
| Transport.FlushSettlesItsChunk | crates/cosmwasm/src/transport.rs:247-256 | a finished POST, answered or failed, settles each call of its chunk once |
| Transport.FailedPostFailsEveryone | crates/cosmwasm/src/transport.rs:249-255 | a failed POST settles every call of its chunk with that failure |
| Transport.EventKeepsLeader | crates/cosmwasm/src/transport.rs:263-288 | every event keeps: at most one call leads, the flag is set exactly then, the leader is still waiting and not cancelled, and it owns every flush |
| Transport.EventKeepsReturns | crates/cosmwasm/src/transport.rs:289-296 | every event keeps: a call that returned returned what its channel was settled with |
| Transport.EventKeepsArrivals | crates/cosmwasm/src/transport.rs:219-228 | every event keeps: posted chunks followed by the queue are the accepted calls in arrival order |
| Transport.EventKeepsChunks | crates/cosmwasm/src/transport.rs:177-228 | every event keeps: no posted or in-flight chunk is empty or larger than the batch size |
| Transport.RunKeepsInv | crates/cosmwasm/src/transport.rs:193-299 | the whole invariant holds after every run of calls, ticks, answers, departures, returns and cancellations |
| Transport.DepartingLeaderIsAnswered | crates/cosmwasm/src/transport.rs:209-217 | a leader that leaves its loop uncancelled finds its own answer already sent and can return it |
| Transport.StrandedIffLeaderDroppedOverQueue | crates/cosmwasm/src/transport.rs:260-288 | along a run the queue is never left without a leader if and only if every dropped leader is dropped with nothing queued |
| Transport.RepliesLostIffLeaderDroppedOverFlights | crates/cosmwasm/src/transport.rs:289-296 | after a run every settlement is a reply if and only if every dropped leader is dropped with no POST under way |
| Transport.ClearFlagMeansAllServed | crates/cosmwasm/src/transport.rs:209-217 | at every point of a run a clear flag means that queue and in-flight are empty and every accepted call was sent its one reply, if and only if no leader is dropped over queued calls or POSTs under way |
| Transport.DroppedLeaderStrandsTheQueue | crates/cosmwasm/src/transport.rs:260-269 | the smallest stranding runs: a leader dropped before its first tick leaves its own call, and another caller still waiting, in a queue without a leader |
| Transport.StrandedQueueWaitsForNextCall | crates/cosmwasm/src/transport.rs:260-288 | with the flag clear, only an accepted call changes queue or leadership: it joins the stranded queue and leads |
| Transport.StrandedUntilNextCall | crates/cosmwasm/src/transport.rs:260-288 | however long a run without accepted calls is, a stranded queue stays as it is, without a leader and without a settlement |
| Transport.CancelledLeaderDropsInFlight | crates/cosmwasm/src/transport.rs:289-296 | cancelling the leader settles exactly the in-flight calls as cancelled and leaves queue and other outcomes as they were |
| Transport.DroppedCallReturnsCancelled | crates/cosmwasm/src/transport.rs:289-296 | a caller whose POST went down with its leader returns that the flush was cancelled |
| Transport.ServiceIsFirstInFirstOut | crates/cosmwasm/src/transport.rs:218-228 | a call with `p` calls ahead is posted at tick `floor(p / max) + 1`, at its place in that chunk, whatever else the run does |
| Transport.PostsAreCeiling | crates/cosmwasm/src/transport.rs:218-228 | without new arrivals, POSTs made plus `ceil(queued / max)` stays constant along a run |
| Transport.LeaderDrainsQueue | crates/cosmwasm/src/transport.rs:201-229 | a leader left alone empties `n` queued calls in exactly `ceil(n / max)` ticks and POSTs |
| Transport.LeaderServesEveryone | crates/cosmwasm/src/transport.rs:193-230 | from every reachable state with a leader, its ticks and answers alone settle every accepted call and clear the flag |
| Batch.BatchHttpTransport.WithPoster | crates/cosmwasm/src/transport.rs:177-186 | a new transport is idle and its batch size is the requested one, at least one |
| Batch.BatchHttpTransport.Call | crates/cosmwasm/src/transport.rs:272-288 | an envelope without an id is refused; otherwise the call is queued and leads exactly if the flag was clear |
| Batch.BatchHttpTransport.OnTick | crates/cosmwasm/src/transport.rs:218-228 | the tick drains at most one batch from the front of the queue into one POST |
| Batch.BatchHttpTransport.OnPostDone | crates/cosmwasm/src/transport.rs:247-256 | the finished POST leaves the in-flight list and settles its chunk |
| Batch.BatchHttpTransport.PollWithoutTick | crates/cosmwasm/src/transport.rs:204-217 | the leader leaves, clearing the flag, exactly when nothing is queued and none of its POSTs is under way |
| Batch.BatchHttpTransport.OnCancel | crates/cosmwasm/src/transport.rs:260-296 | a dropped call is abandoned; a dropped leader also loses its POSTs and the flag |
| Validate.ValidateSuitePhaseStructure | crates/harness-config/src/validate.rs:67-146 | accepts exactly the valid pipelines, and otherwise names the first defect that the three passes meet |
| Validate.FirstDefectIsUnique | crates/harness-config/src/validate.rs:67-146 | a suite has only one first defect, so the contract determines the error |
| Validate.CheckUnique | crates/harness-config/src/validate.rs:72-81 | refuses exactly a repeated phase profile, naming the first repetition |
| Validate.CheckNeeds | crates/harness-config/src/validate.rs:83-96 | refuses exactly a need that no earlier phase declares, naming the first such phase and its first such need |
| Validate.CheckInherits | crates/harness-config/src/validate.rs:98-144 | refuses exactly wrong arity, a multi-case end or a shared donor, naming the first phase refused and the first reason in that order |
| Validate.LegacySuitesAreValid | crates/harness-config/src/validate.rs:34-45 | a legacy profile list becomes phases that pass the structure check exactly when no name repeats |
| Validate.NormalizedSuite | crates/harness-config/src/validate.rs:27-49 | a legacy list becomes, name by name and in order, fresh phases without needs or params; any other suite stays as it is |
| Validate.RunConfig.NormalizeSuitePhases | crates/harness-config/src/validate.rs:23-55 | succeeds exactly when no suite sets both lists and every normalized suite is valid; then every suite is normalized in place; an error names the first suite the failing pass refuses and its first defect |
| Validate.RunConfig.ValidateSuites | crates/harness-config/src/validate.rs:164-176 | refuses exactly a phase whose profile does not exist, naming it and its suite |
| Pipeline.CombineCodes | crates/harness-cli/src/cli.rs:778-786 | the loop computes the fold; over codes 0 to 3 it returns 3 if there is one, else 1, else 2, else 0 |
| Pipeline.CombineIsWorst | crates/harness-cli/src/cli.rs:766-786 | the folded code is 0 or one of the codes, and none is more severe |
| Pipeline.CombineIgnoresOrder | crates/harness-cli/src/cli.rs:766-786 | over codes 0 to 3 the fold is independent of order, and 0 exactly when all are |
| Pipeline.CombineIsSeverest | crates/harness-cli/src/cli.rs:760-786 | over codes 0 to 3 the fold is 3 if 3 occurs, else 1 if 1 occurs, else 2 if 2 occurs, else 0 |
| Pipeline.FirstGravestWins | crates/harness-cli/src/cli.rs:766-786 | for any codes, the first that is not 0, 1 or 2 is the result |
| Pipeline.FuzzReportsFirstFailure | crates/harness-cli/src/registry.rs:897-921 | a fuzz phase reports the failure of its first failing case, with all earlier ones passed, or a pass once every case passed |
| Pipeline.FuzzSeedsDistinct | crates/harness-cli/src/registry.rs:712 | no two cases of a fuzz phase get the same seed |
| Pipeline.TurnKeeps | crates/harness-cli/src/cli.rs:845-974 | each phase's turn keeps: outcomes listed under the phases reached, passed phases have their needs passed earlier, skipped ones have no code, and the code is the fold of those that ran |
| Pipeline.GatingIsTransitive | crates/harness-cli/src/cli.rs:857-867 | over a whole run of a suite with unique profiles, a phase that passed has every directly and indirectly needed phase passed before it |
| Pipeline.SuiteCodeIsWorst | crates/harness-cli/src/cli.rs:845-974 | the suite's code is the worst of the phases that ran, in whatever order they are folded, and 0 exactly when none failed |
| Pipeline.SuiteCodeMeans | crates/harness-cli/src/cli.rs:733-786 | the code of a suite is 3 if some phase was a usage error, else 1 if some phase reported a bug or a violated invariant, else 2 if some phase met an infrastructure failure, else 0 |
| Pipeline.SkippedIffNeedUnmet | crates/harness-cli/src/cli.rs:857-867 | over a whole run a phase is skipped if and only if one of its needs has not passed before it |
| Pipeline.SuiteEndsWhere | crates/harness-cli/src/cli.rs:845-974 | a run goes through all phases unless a stop is requested or, when so configured, a phase fails, and then ends right there |
| Handoff.HeirStartsFromDonorsWorld | crates/harness-cli/src/registry.rs:737-763 | in a validated suite an inheriting phase that reaches its start begins from exactly its donor's ending world, the slot never being empty then, if no phase between the two uses the slot |
| Handoff.HeirContinuesDonor | crates/harness-cli/src/registry.rs:942-968 | under the same hypothesis an heir that passed ended where its profile leads from its donor's ending world, with only its own patch in between |
| Handoff.EveryReportIsDriven | crates/harness-cli/src/registry.rs:848-1121 | over a whole run, every phase that reports a pass or a failure reports what driving its profile gave, at its own seed, from the world it took or was set up with after its own patch, or over its fuzz cases in turn |
| Handoff.RefusedBeforeItIsDriven | crates/harness-cli/src/registry.rs:813-1121 | what a phase is refused for and in which order, from an unknown harness to a failed export |
| Handoff.SlotUserIsSingleCase | crates/harness-config/src/validate.rs:57-65 | in a validated suite a fuzz phase that uses the slot resolves to one case if and only if no outside override gives another case count |
| Handoff.EveryStashTakenAtMostOnce | crates/harness-cli/src/registry.rs:755-761 | over every run, each inherited world is the ending world of one passed earlier phase, and no stash is taken twice |
| Handoff.HandoffWorksIffNonInterleaved | crates/harness-cli/src/cli.rs:882-890 | in a validated suite whose phases succeed, every heir starts from its donor's world if and only if no slot user lies between any donor and its heir |
| Handoff.HeirTakesDonorsWorldIff | crates/harness-cli/src/registry.rs:755-761 | on every run, whatever fails, an heir that reaches its start takes its passed donor's ending world if and only if no phase strictly between them took from the slot or stashed into it |
| Handoff.CrossedHandoffIsLost | crates/harness-cli/src/registry.rs:965-968 | on every run, a slot user that passed between donor and heir puts the donor's world out of the heir's reach |
| Handoff.CrossedIsValid | crates/harness-config/src/validate.rs:98-144 | a two-donor crossed suite passes the validator although its handoffs interleave |
| Handoff.CrossedSuiteLosesAWorld | crates/harness-cli/src/registry.rs:1104-1106 | in that suite the first heir starts from the second donor's world, the second heir finds the slot empty and fails, and the suite's code is 3 |
| RegistryModel.Registry.ObtainStartState | crates/harness-cli/src/registry.rs:737-763 | a fresh phase is set up and leaves the slot alone; an inheriting one empties the slot or fails on an empty one |
| RegistryModel.Registry.RunSingleWorld | crates/harness-cli/src/registry.rs:942-979 | obtain, patch, drive, export and stash in the specified order, refusals included |
| RegistryModel.Registry.RunFuzzCases | crates/harness-cli/src/registry.rs:901-921 | the case loop returns what the specified case run returns |
| RegistryModel.Registry.RunProfile | crates/harness-cli/src/registry.rs:795-896 | the per-mode branches and the single-case handoff rule of a phase, on the slot and the result |
| RegistryModel.Registry.RunSelected | crates/harness-cli/src/cli.rs:821-974 | the loop over the phases with gating, stash wiring and stop rules is the specified suite run, from whatever the slot held before, and its code tells usage errors from bugs from outages from passes |
| Interpolate.InterpolateString | crates/harness-config/src/interpolate.rs:77-159 | the index-based scanner computes the left-to-right meaning, errors included |
| Interpolate.FindClose | crates/harness-config/src/interpolate.rs:103-112 | the inner scan finds the first closing brace or the end |
| Interpolate.EscapedTextIsLiteral | crates/harness-config/src/interpolate.rs:86-155 | escaped text is read back verbatim before anything that does not take its final `$` |
| Interpolate.EscapeRoundTrip | crates/harness-config/src/interpolate.rs:77-159 | interpolating any string with every `${` escaped gives the string back, under any variables |
| Interpolate.PlainTextUnchanged | crates/harness-config/src/interpolate.rs:86-91 | a string without `${` passes through unchanged |
| Interpolate.UnterminatedIsRefused | crates/harness-config/src/interpolate.rs:102-118 | a reference that is never closed is refused, whatever text comes before it |
| Interpolate.EmptyNameIsRefused | crates/harness-config/src/interpolate.rs:120-134 | a reference without a name is refused, with or without a fallback |
| Interpolate.InterpolationIsMeaning | crates/harness-config/src/interpolate.rs:77-159 | interpolating the spelling of a template gives its meaning: each reference replaced once by value or fallback, substituted text never scanned again, the first unresolved name the error |
| Interpolate.ReadAsMeantIffWritable | crates/harness-config/src/interpolate.rs:93-155 | a template is read as it is meant under all variables if and only if no literal ends in a `$` before a spelling that starts with `{` or `${` |
| Interpolate.DollarBeforeReferenceIsMisread | crates/harness-config/src/interpolate.rs:93-99 | a template with a literal ending in `$` right before a reference is read differently from what it means under some variables |
| Interpolate.DollarBeforeReferenceEscapesIt | crates/harness-config/src/interpolate.rs:93-99 | a `$` directly before a reference turns the reference into literal text |
| Interpolate.InterpolateDocument | crates/harness-config/src/interpolate.rs:43-73 | the walk replaces exactly the strings, or reports the error of the first string without a meaning, with its path: items in order, entries in whatever order tables list them |
| Interpolate.ErrorIffUnresolved | crates/harness-config/src/interpolate.rs:43-73 | the walk fails exactly when some string has no meaning, whatever the listing |
| Interpolate.ErrorNamesItsString | crates/harness-config/src/interpolate.rs:43-73 | every error names the way, as in `a.b[0].c`, to a string of the document that raises it |
| Interpolate.EscapeDocumentRoundTrip | crates/harness-config/src/interpolate.rs:43-73 | interpolating an escaped document never fails and gives the document back |
| Tables.FillDefaults | crates/harness-config/src/merge.rs:122-131 | exactly the defaults the profile does not set are copied in, and listed in the order of the defaults |
| Tables.StripKeys | crates/harness-config/src/merge.rs:133-145 | exactly the unwanted ones of the given keys are removed, and listed in the given order |
| Tables.MergeEnvTables | crates/harness-config/src/merge.rs:177-196 | own, top-level and colliding keys get their own, top-level and hook values |
| Merge.MergeTargetsEntry | crates/config/src/lib.rs:39-56 | `targets` tables merge label by label, the incoming label winning; anything else is replaced |
| Merge.TargetsMergeByLabel | crates/config/src/lib.rs:39-56 | in a merged `targets` table every label holds the incoming entry if there is one, else the slot's; any other collision replaces the slot |
| Merge.TargetsHookAbsorbs | crates/config/src/lib.rs:39-56 | merging again what the hook produced, or the slot's own value, changes nothing |
| Merge.Precedence | crates/harness-config/src/merge.rs:120-145 | apart from `env`, a key holds the profile's own value, else the default if it applies to the effective mode, else nothing |
| Merge.DefaultsReachTheirModes | crates/harness-config/src/merge.rs:38-84 | which defaults reach a profile that does not set the key, mode by mode and key by key |
| Merge.EnvPrecedence | crates/harness-config/src/merge.rs:147-166 | each env key holds the hook's value where both tables have it, else the one that is there; an empty env is removed |
| Merge.MergeKeepsTheRest | crates/harness-config/src/merge.rs:95-113 | beside the profiles, merging only takes the defaults away, and no profile comes or goes |
| Merge.MergedProfileComesFrom | crates/harness-config/src/merge.rs:100-145 | in the merged document every entry of a profile apart from `env` is the profile's own if it set the key, and otherwise comes from the document's `defaults` |
| Merge.MergedEnvComesFrom | crates/harness-config/src/merge.rs:106-196 | in the merged document the `env` of a profile is its own table, or else the one of `defaults`, laid over the document's `env`, the hook deciding where both have a key; it is there only if it is not empty |
| Merge.MergeIsIdempotent | crates/harness-config/src/merge.rs:95-171 | merging an already merged document changes nothing and warns nothing, for every absorbing hook |
| Merge.MergeProfile | crates/harness-config/src/merge.rs:115-167 | one profile: fails exactly when it or its env is not a table, else its merged table and a warning per stripped key, in the order of the defaults |
| Merge.MergeProfiles | crates/harness-config/src/merge.rs:114-168 | the loop over the profiles merges every one and collects the warnings in profile-then-key order, or reports the first profile, as listed, that does not fit |
| Merge.WarningsAreDue | crates/harness-config/src/merge.rs:133-145 | a warning is given exactly for a default key that a profile does not set and its effective mode has no use for |
| Merge.WarningsAreInOrder | crates/harness-config/src/merge.rs:93-94 | warnings come profile by profile and, within a profile, in the order of the defaults |
| Merge.ConfigDocument.MergeInPlace | crates/harness-config/src/merge.rs:95-171 | the document is rewritten to its merged form with the defaults consumed, and the warnings come in profile-then-key order; otherwise the error is the first that the merge meets |

## Left out

- Chain providers, signing, contract handles, HTTP, clap parsing, logging, file and report writing, and proc macros: no logic of the kind proved here.
- The JSON report write and the exit code it can add after the loop, replay artifacts, and `select_phases`: plumbing around the suite run.
- Artifact replay: an artifact's steps default to expecting acceptance, so nothing is claimed about its reproducing a failure.
- `Stats` and `OpStat`: timing diagnostics that no result depends on.
- Asynchrony: in the runner and the registry every await is a plain call. In the transport it is the interleaving of events.
- Context and model world are one `State` (`World` in the suites), and a harness is deterministic; a harness that reads a clock is not covered.
- `rebuild` in the shrinker yields one fixed starting state, since every rebuild uses the same seed.
- Wall clock and stop flag of the endurance loop: one parameter read once per turn. Heartbeats and the sleeps themselves are not modelled; the draws for them are.
- Integer widths: kind weights saturate at 32 bits and seeds wrap at 64 bits as in the source; counters and block counts are unbounded.
- ChaCha8: the generator is an arbitrary stream of draws in range.
- Shrink.MinimizeIsSound: one-minimality is stated for an unexhausted budget and failures whose drops free nothing, which includes all monotone ones; `RunnerModel.ShrinkingStopsShort` shows that something of the kind is needed.
- EnduranceReplay.EnduranceReportReproducesIff: for runs in which advancing blocks leaves the state alone (the default of the source's `Harness::advance` does nothing). A harness whose blocks matter decides by itself where a re-drive without them ends.
- Route.EachCallGetsItsFirstElement: for distinct request ids, as the transport's callers provide; repeated ids are covered by `SuccessesPerId` and `EveryCallAnsweredOnce`.
- Ids, JSON texts and error texts in the transport are abstract values, an absent or null element id is one case, and the bare-or-array spelling of a POST body is not modelled.
- A POST future is one event when it finishes; tick spacing and the delay behaviour of the timer are not modelled.
- Interpolate.InterpolationIsMeaning: for references that can be written, that is names that are not empty and hold neither `}` nor `:-`, and fallbacks without `}`; among these templates `ReadAsMeantIffWritable` gives the exact condition.
- Interpolate.InterpolateDocument: documents are values, so overwriting leaves in place is not captured. The order of a table's entries is a parameter, fixed for a table at a path, because `crates/harness-config/src/value.rs` promises none.
- Merge.ConfigDocument.MergeInPlace: nested tables are values, and the texts of warnings and errors are constructors.
- Merge.MergeIsIdempotent: a hook that does not absorb its own result (one that appends, say) is outside the claim; both hooks of the repository are inside it (`ReplaceHookAbsorbs`, `TargetsHookAbsorbs`).
- Per-profile mode checks, chain checks, typed deserialization and the wallet rules of the config crate: independent single-branch checks.
- Reading a profile in the suite model: options that override a profile other than the case count are folded into the environment's functions.
