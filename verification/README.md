# Symphony's orchestrator, modelled and verified

Symphony polls issue trackers, claims issues, runs one worker per issue, and retries, reconciles or cancels them.
This project models that logic in Dafny 4.11 and proves what it promises over all inputs and all runs.
`dafny verify dfyconfig.toml` checks the whole of it.

## What is modelled

**The claim, dispatch and retry machine** (`Domain`, `Model`, `Capacity`, `State`, `Scheduler`, `Runs`, `Limits`,
`Greedy`, `Effects`, `Service`, `Accounting`, `Ranking`, `Retry`). It is told twice. `Model` is a transition system
over plain values: the running table, the retry table, the registry of worker tasks and the statistics, with one action
for each thing the loop does to one issue. An action carries what the loop was told when it took it (the tracker's answer, the
candidates, the configuration) and is only enabled if that is a reason for it: a worker is cancelled only on a verdict,
a retry dropped only if no candidate is its issue, a worker started only for an eligible issue with a machine for it.
The system has none of the claim indexes, because what is claimed follows from the tables.
`State.OrchestratorState` and `Service.ServiceLoop` are the program's own mutable objects, indexes included, with the
program's own methods. Each method is proved against the transition system: `ServiceLoop.Valid` says that the indexes
hold exactly what the tables say and that everything the loop has done so far is a run of the transition system. What
the actions of a tick carry is what the trackers answered in that tick (`Effects.StepsGoBy` in the contract of `Tick`).
`Runs`, `Limits` and `Accounting` then prove properties of all runs, so they hold of the loop.
A contract often names a function of the model. What such a function comes to is then stated without it, in the terms of
its inputs, by a lemma that mostly ends in `Meaning`.

**The refresh button** (`Refresh`). Any number of HTTP handlers, each in its own program position, interleave their
atomic loads, exchanges, swaps and sends with one consumer.

**Names, paths, quoting and framing** (`Names`, `Paths`, `Quoting`, `Utf8`, `Framing`), **cursor pagination**
(`Pagination`) and **reloading configurations** (`Reload`).

The environment is a parameter or left open: clocks, what the trackers answer, whether a workspace can be prepared,
what a workflow file holds, the order of messages. Three facts about it are assumed. Tracker issue ids have no colon.
The sources are known when the service starts (`Reload` proves that they stay distinct and never change). Counters of
generations and clocks do not reach their largest value, except where the program saturates.

## Findings

Two properties a reader might expect do not hold as stated. Each has an exact condition and a concrete input.

- *A stray abort leaks a claim.* An operator may abort a worker by naming the default source although it is not
  configured, with another source's whole key as issue id (`3:foo1` for issue `1` of source `foo`). The worker is
  ended and the issue forgotten, but the tracker id `1` stays claimed for ever and the issue is never dispatched
  again. The claimed tracker ids are exactly those of live issues if and only if no abort so far was stray
  (`Service.ServiceLoop.IndexesAreExact`, `Runs.LeakExactly`, `Runs.LeakIsForever`, `Runs.LeakExample`). A caller can
  see it beforehand: the command's source is not configured.
- *A workspace can lie inside another.* The default source's workspace of an issue named `source-61` is the directory
  that holds the workspaces of source `a`. This happens exactly when a default-source identifier sanitises to another
  source's namespace (`Paths.AncestorExactly`, `Paths.AncestorExample`), so never for GitHub's `owner/repo#n`.

## Model

| member | source | states |
|---|---|---|
| `Model.StepKeepsInv` | src/service.rs:814-1267 | whatever the loop does next, and whichever messages of dead workers arrive: every live issue stands under its own key, no two live issues share a tracker id or workspace, running and waiting issues are disjoint, worker tasks agree with running entries in key, generation and target, generations are issued and distinct |
| `Model.DispatchKeepsInv` | src/service.rs:970-1097 | starting a worker, or failing to for want of a workspace, keeps all of that, for fresh issues and for retries whose issue was renamed meanwhile |
| `Model.DispatchShape` | src/service.rs:970-1097 | when a dispatch is reached no task and no live entry stands under the key, so neither the guard nor the assertions there can fire |
| `Model.AbortKeepsInv` | src/service.rs:1216-1248 | an operator's abort keeps the invariant even when it names the worker through an unconfigured source |
| `Model.StrayIsAlias` | src/service.rs:1216-1248 | an abort through an unconfigured source hits a worker only as the default source with another source's whole key, colon included, as issue id |
| `Model.RetryAfterExitMeaning` | src/orchestrator/state.rs:306-329 | the retry a worker leaves is of the same issue, machine and workspace; due a second after a normal exit, with attempt 1 and no error; otherwise with the next attempt and the reason, after min(10000 * 2^(attempt-1), cap) more milliseconds; no time exceeds the largest one |
| `Model.PostponedMeaning` | src/service.rs:882-897 | a retry put off keeps everything but attempt, error and time, which are those of one more failed attempt |
| `Model.ExitMeaning` | src/orchestrator/state.rs:291-330 | when a worker ends its entry and task are gone, its issue waits with that retry, its history stays, and no other issue is touched |
| `Model.ReleaseMeaning` | src/orchestrator/state.rs:336-351 | when an issue is forgotten nothing is left of it in any table, and no other issue is touched |
| `Model.DispatchMeaning` | src/service.rs:970-1097 | a dispatch puts under the key a worker of the next generation with exactly the issue, attempt, target and path it was given, or, without a workspace, the retry of a failed attempt; no other issue is touched |
| `Model.EventMeaning` | src/orchestrator/state.rs:205-250 | a report adds to each total what it rose since the last report of the same thread and turn, or since zero for a new one, and a falling report adds nothing; the session takes the ids, the report and the time of the event |
| `State.OrchestratorState.constructor` | src/orchestrator/state.rs:45-61 | a new state is empty and its indexes are exact |
| `State.OrchestratorState.ClaimCheckIsExact` | src/orchestrator/state.rs:147-154 | three lookups in hand-kept indexes refuse an issue exactly when a live issue has its key, its tracker id or its workspace, or its id is leaked |
| `State.OrchestratorState.ReleaseTrackerIssueIdIfUnowned` | src/orchestrator/state.rs:602-614 | an id leaves the index exactly when no running or waiting issue has it |
| `State.OrchestratorState.ReleaseWorkspaceKeyIfUnowned` | src/orchestrator/state.rs:616-628 | a workspace leaves the index exactly when no running or waiting issue has it, whatever their identifiers are now |
| `State.OrchestratorState.ClaimRunningOnTargetForSource` | src/orchestrator/state.rs:84-131 | the issue runs in place of whatever stood under its key, displaced workspaces are given up, all indexes stay exact |
| `State.OrchestratorState.SetRunningGeneration` | src/orchestrator/state.rs:173-179 | gives a generation to a running entry and says whether there was one |
| `State.OrchestratorState.WorkerExitByKey` | src/orchestrator/state.rs:291-330 | the issue moves from running to waiting with the right attempt, time, error and old workspace; only a normal exit counts as completed; no running entry means no change |
| `State.OrchestratorState.RequeueRetry` | src/orchestrator/state.rs:581-600 | putting a retry back restores exact indexes, whether or not its claims had been given up |
| `State.OrchestratorState.ReleaseRetryClaim` | src/orchestrator/state.rs:587-592 | after a retry was taken from its table, giving up its claims makes the indexes exact again and changes no table |
| `State.OrchestratorState.ReleaseForSource` | src/orchestrator/state.rs:336-351 | the issue's worker, retry and history are forgotten, indexes stay exact, and an id stays behind only when it differs from the one named |
| `State.OrchestratorState.ReconcileRunningIssueForSource` | src/orchestrator/state.rs:362-392 | the decision and the updated entry for each of: not running, missing, terminal, inactive, active; what the entry owns does not change with a rename |
| `State.DecideMeaning` | src/orchestrator/state.rs:362-392 | which decision is made when: not running, missing, terminal, neither terminal nor active, active |
| `State.OrchestratorState.ApplyCodexEvent` | src/orchestrator/state.rs:196-265 | session, totals and history change as the transition system says; an event of an issue that is not running changes nothing |
| `State.OrchestratorState.RunningStateCounts` | src/orchestrator/state.rs:133-141 | the count of every lower-case state is the number of running issues in it |
| `State.OrchestratorState.RunningIssueIdsForSource` | src/orchestrator/state.rs:156-162 | exactly the ids of the source's running issues |
| `Scheduler.EligibilityIsExact` | src/orchestrator/scheduler.rs:75-123 | the scheduler finds no reason against an issue exactly when the tables, asked directly, say it may be worked on now |
| `Capacity.EligibleMeaning` | src/orchestrator/scheduler.rs:75-123 | an issue is eligible exactly when it is complete, in an active and not a terminal state whatever their case, its key, id and workspace belong to no live issue and its id is not leaked, the source has room in all and in the issue's state, and, if it is still to do, every blocker is known and in a terminal state |
| `Capacity.BlockedMeaning` | src/orchestrator/scheduler.rs:99-109 | an issue is blocked exactly when its state is "todo" in any case and some blocker has an unknown or no terminal state |
| `Domain.StatesMeaning` | src/config.rs:631-645 | active and terminal states are recognised whatever the case of their letters, and a running issue goes on exactly in an active state that is not terminal |
| `Names.LowerCaseMeaning` | src/config.rs:1959-1961 | two names have one lower-case form exactly when they differ at most in the case of letters from A to Z |
| `Domain.FindIssueIsFirst` | src/service.rs:920-924 | the issue found is the first candidate with the id |
| `Capacity.FirstFreeHostMeaning` | src/service.rs:255-267 | the host selected is the first in configuration order with room, and there is none only if all are full |
| `Capacity.SelectedTargetHasRoom` | src/service.rs:255-267 | the local machine is selected exactly when no hosts are configured, and a selected host is configured and below its limit |
| `Capacity.SameHost` | src/service.rs:217-226 | a host has one count whatever the case its name is written in |
| `Capacity.HostCountMeaning` | src/service.rs:217-226 | the count of a host is the number of workers on it, whatever the case their entries write it in |
| `Capacity.StaysBlocked` | src/service.rs:744-768 | as others are dispatched, a candidate that could not be dispatched never becomes dispatchable |
| `Capacity.DispatchCounts` | src/service.rs:970-1097 | one dispatch raises the running count, one state's count and one host's count by one at most, and no other |
| `Capacity.DispatchWithinLimits` | src/service.rs:724-768 | dispatching only where there is room keeps every count at or below the larger of its value at the start of the pass and the limits in force |
| `Runs.ReachableInv` | src/service.rs:329-430 | the invariant holds in every state of every run |
| `Runs.ExclusiveOwnership` | src/orchestrator/state.rs:147-154 | at no point of any run do two live issues, running or waiting, of any sources, share a tracker id or a workspace |
| `Runs.WorkersInStep` | src/service.rs:228-248 | before a forced shutdown exactly the running issues have a task, of the same generation and target, and no waiting issue has one |
| `Runs.TasksAfter` | src/service.rs:199-248 | a step either only removes tasks or adds one with the next generation |
| `Runs.RetiredForGood` | src/service.rs:1171-1189 | a generation whose worker is gone never has a task again |
| `Runs.GoneMeansRetired` | src/service.rs:1171-1189 | whenever a task leaves the registry its generation is retired |
| `Runs.RetiredMessagesAreIgnored` | src/service.rs:1099-1134 | events and outcomes of a retired generation, in any order and however late, change nothing |
| `Runs.GenerationsRise` | src/service.rs:199-205 | generations never fall and rise strictly with every worker started, so none is given twice |
| `Runs.StalledExactly` | src/orchestrator/state.rs:398-420 | in any run a running worker may be ended as stalled exactly when a timeout is set and its last sign of life, its start or the last event of its conversation, is older |
| `Runs.SomeSign` | src/orchestrator/state.rs:398-420 | every running worker has such a last sign |
| `Runs.DrainOnlyShrinks` | src/service.rs:720-722 | from a drain until the next resume no worker is started and the running issues only become fewer |
| `Runs.LeavesExactly` | src/service.rs:835-968 | an issue stops being live exactly when its worker is cancelled and the tracker's answer, asked by its source, lacks it or has it terminal or inactive; or its retry is due and none of its source's candidates is its issue; or its worker reports a terminal state; or a stray abort hits it |
| `Runs.NothingIsLost` | src/service.rs:835-968 | in any run, an issue that was live and no longer is was given up in between by one action, and for one of these reasons |
| `Runs.LeakExactly` | src/orchestrator/state.rs:336-351 | in any run no tracker id is claimed without a live issue if and only if no abort so far was stray |
| `Runs.LeakIsForever` | src/orchestrator/state.rs:336-351 | a leaked id stays claimed in every later state and its issue is never dispatched again |
| `Runs.LeakExample` | src/service.rs:1216-1248 | a two-step run that leaks an id |
| `Limits.DispatchFindsRoom` | src/service.rs:744-768 | every worker, fresh or retried, is started with room left for the service, its state and its host, and never locally beside configured hosts unless it continues there |
| `Limits.NeverOverLimits` | src/service.rs:724-768 | in no state of any run do more workers run, or more on any one host, than the largest limit under which one of them was started, whatever stale messages and operator commands came between |
| `Greedy.GlobalLimit` | src/service.rs:724-728 | the limit of a pass is the smallest of the sources' limits, and 0 without sources |
| `Greedy.CandidatesOfRuns` | src/service.rs:729-734 | every candidate of every source is offered, labelled with its own source |
| `Greedy.SortedFromRuns` | src/service.rs:735-742 | sorting changes only the order of what is offered |
| `Greedy.StaysUndispatchable` | src/service.rs:744-768 | after a candidate is dispatched neither it nor any candidate before it can be |
| `Greedy.NoPriorityInversion` | src/service.rs:735-768 | in the state in which a candidate is dispatched, no candidate that comes strictly before it could have been: none of a numerically smaller priority, at equal priority no older one, then none of a smaller source or identifier |
| `Greedy.GreedyHasNoInversion` | src/service.rs:735-768 | the same for every dispatch of a pass and every candidate at once, as the contract of the pass promises it |
| `Greedy.CandidatesOfOnce` | src/service.rs:729-734 | each candidate of each source is offered once: the list is all of them, run by run, in their order |
| `Model.OutcomeKeepsInv` | src/service.rs:1107-1169 | an outcome, current or stale, terminal or not, keeps the invariant |
| `Effects.AddressedIssue` | src/service.rs:846-855 | an issue addressed by source and tracker id is the one that runs under the key made of them |
| `Effects.WorkerMatches` | src/service.rs:211-215 | a current message names a running issue of a configured source whose own id and key belong together |
| `Effects.FreshMayDispatch` | src/service.rs:744-768 | a candidate that passes the checks of the loop meets every condition of a dispatch and finds room under all limits |
| `Effects.AbortResultMeaning` | src/service.rs:1216-1226 | an abort is stale exactly when the issue runs with another generation and finds nothing exactly when it does not run |
| `Effects.EndedOneMore` | src/service.rs:814-833 | ending one more stalled worker changes no other issue |
| `Effects.JudgedOneMore` | src/service.rs:846-879 | judging one more running issue changes no other issue |
| `Effects.FateSettles` | src/service.rs:912-967 | a due retry is dropped, left as it was, running with its attempt number, or waiting for the next attempt, and no other issue is touched |
| `Effects.RetryMayDispatch` | src/service.rs:925-952 | a retry is dispatched only with room under every limit and, after a normal exit, only on its recorded machine |
| `Effects.RetryFateMeaning` | src/service.rs:912-967 | a due retry without a candidate for its issue is dropped; with one it waits if and only if the limit is reached, the issue is not eligible once its own claim is set aside, or no machine takes it; otherwise its issue is dispatched with its attempt number |
| `Effects.RetryTargetMeaning` | src/service.rs:935-952 | after a normal exit there is no machine exactly when the recorded one is a host without room, and otherwise it is the recorded one; after a failure there is none exactly when hosts are configured and all are full, and otherwise it is the local one or the first host with room |
| `Effects.OneMoreTurn` | src/service.rs:899-968 | when one more retry is decided, every retry decided before keeps what became of it |
| `Effects.TurnsStay` | src/service.rs:770-781 | what the pass over one source decided stays decided while the passes over other sources follow |
| `Effects.RetryWithinLimits` | src/service.rs:899-968 | settling a retry, whichever way, keeps every count within the limits of the pass |
| `Effects.PicksGoBy` | src/service.rs:729-768 | every fresh dispatch of a pass is of a candidate a tracker gave, under that source's configuration |
| `Effects.PassKeepsIssue` | src/service.rs:770-781 | after a whole pass over the retries an issue is still live, running or waiting, unless its own source took part and does not list it |
| `Effects.VerdictOf` | src/service.rs:846-879 | each reconciliation decision is the one step the tracker's answer allows, refreshing or cancelling |
| `Effects.RunsOfMeaning` | src/service.rs:647-681 | the runs are exactly those of the polls that gave candidates, in their order, whatever became of the refresh |
| `Effects.EventMessageMeaning` | src/service.rs:1099-1105 | an event of the current worker changes its session, the totals and its history, whose last entry it becomes, and nothing else; any other event changes nothing |
| `Effects.OutcomeMessageMeaning` | src/service.rs:1107-1169 | the outcome of the current worker leaves nothing of the issue if terminal, and otherwise its retry with the backoff cap in force for its own source; any other outcome changes nothing |
| `Effects.ControlMessageMeaning` | src/service.rs:1201-1267 | drain and resume set the mode and nothing else; a promoted retry is due now and otherwise as it was; an abort of the current worker leaves its issue waiting if the named source is configured, and otherwise leaves nothing but its claimed id; an abort of any other worker changes nothing |
| `Service.WorkerRegistry.AllocateGeneration` | src/service.rs:199-205 | hands out the next number |
| `Service.WorkerRegistry.Insert` | src/service.rs:228-248 | the asserted absence of a task is a precondition, met at the only call |
| `Service.WorkerRegistry.AbortWorker` | src/service.rs:1171-1177 | the task, if any, is gone and no other |
| `Service.WorkerRegistry.AwaitWorker` | src/service.rs:1179-1189 | only a task of the given generation is taken; otherwise nothing changes |
| `Service.ServiceLoop.constructor` | src/service.rs:286-300 | the loop starts in the initial state with an empty trace |
| `Service.ServiceLoop.Reached` | src/service.rs:329-430 | the loop's objects are always in a state the transition system reaches, with its invariant |
| `Service.ServiceLoop.IndexesAreExact` | src/orchestrator/state.rs:45-61 | at any moment the program's claimed keys and workspaces are exactly those of running and waiting issues, and its claimed tracker ids are exactly theirs if and only if no abort so far was stray |
| `Service.ServiceLoop.ReconcileStalled` | src/service.rs:814-833 | exactly the source's entries silent for longer than the timeout are ended and left to a retry; every other issue is as before |
| `Service.ServiceLoop.ReconcileIssue` | src/service.rs:847-878 | one issue is brought up to date, or its worker is ended and it is forgotten, as the tracker's answer demands |
| `Service.ServiceLoop.ReconcileTrackerStates` | src/service.rs:835-880 | every polled running issue is either up to date and still active or gone; every other issue is as before |
| `Service.ServiceLoop.RescheduleDueRetriesAfterFetchError` | src/service.rs:882-897 | exactly the source's due retries move to a later attempt, with the backoff of that attempt |
| `Service.ServiceLoop.ApplyWorkerEvent` | src/service.rs:1099-1105 | takes the step of the transition system for that message, stale ones included |
| `Service.ServiceLoop.ApplyWorkerOutcome` | src/service.rs:1107-1169 | a current worker's issue is forgotten after a terminal outcome and otherwise waits with the backoff cap of its own source; a running entry and a configuration are always found |
| `Service.ServiceLoop.AbortByOperator` | src/service.rs:1216-1248 | fenced by generation; the reply and the new state in every case |
| `Service.ServiceLoop.PromoteByOperator` | src/service.rs:1249-1265 | the retry becomes due now, or nothing is found and nothing changes |
| `Service.ServiceLoop.ApplyServiceControl` | src/service.rs:1201-1267 | the reply to each command and the one action it amounts to |
| `Service.ServiceLoop.DispatchIssue` | src/service.rs:970-1097 | whether the workspace can be prepared or not, the result is one dispatch step from the state before the retry was taken |
| `Service.ServiceLoop.StartWorker` | src/service.rs:1040-1096 | claim, generation and registration add up to one step; the entry's generation is always found |
| `Service.ServiceLoop.FailStart` | src/service.rs:989-1039 | a failed workspace leaves the issue waiting for the next attempt and no task |
| `Service.ServiceLoop.Offer` | src/service.rs:744-768 | a candidate is dispatched if and only if it can be, when none before it can |
| `Service.ServiceLoop.DispatchFresh` | src/service.rs:744-768 | each candidate dispatched is the first dispatchable one at that moment; at the end the limit is reached or nothing is dispatchable; all counts keep within the limits |
| `Service.ServiceLoop.CollectCandidates` | src/service.rs:729-734 | the two nested loops list every candidate of every run |
| `Service.ServiceLoop.RetryOne` | src/service.rs:912-967 | a due retry is dropped exactly when no candidate is its issue; otherwise nothing happens exactly when the limit is reached, its issue is not eligible, or no machine takes it; otherwise its first matching candidate is dispatched in one step with its attempt number, on the recorded machine after a normal exit and on the first with room after a failure |
| `Service.ServiceLoop.DispatchDueRetries` | src/service.rs:899-968 | every due retry of the source has its turn in the pass: one that still waits had to, in a state of the pass that is named, and any other was dropped or dispatched by a step of the pass; everything else is as before, all counts keep within the limits |
| `Service.ServiceLoop.DispatchRuns` | src/service.rs:713-782 | draining changes nothing; otherwise ranked candidates of all sources first, greedily, to the end and never one before another that comes strictly before it and could be dispatched; then source by source every due retry has its turn and nothing else is touched, with every count at most the larger of its start and the limits of the pass |
| `Service.ServiceLoop.DispatchRetries` | src/service.rs:770-781 | the chain of states, one source after another, in each of which exactly the due retries of that source are settled, every one of them for the reason that held at its turn |
| `Service.ServiceLoop.PlanPolls` | src/service.rs:592-622 | source by source, stalled workers are ended before the ids to ask about are noted |
| `Service.ServiceLoop.ApplyPolls` | src/service.rs:652-680 | answer by answer: verdicts are carried out, retries put off when candidates are missing, and exactly the sources that gave candidates are passed on, in their order, whether or not the refresh of running issues failed |
| `Service.ServiceLoop.Tick` | src/service.rs:583-683 | a tick is planning for every source, then every answer carried out, then one dispatch pass with its order, its settled retries and its limits, or none while draining; every cancellation, drop, dispatch and postponement goes by what a tracker answered in this tick |
| `Service.ServiceLoop.ApplyMessage` | src/service.rs:387-430 | one message is at most one step |
| `Service.ServiceLoop.GracefulShutdown` | src/service.rs:1269-1303 | draining is set, messages of workers are taken one by one while any runs and time is left, and what then still runs is killed in one last step; no task is left |
| `Service.ServiceLoop.RunUntilShutdown` | src/service.rs:329-449 | the whole run is round after round a tick and then one message, each as promised above, and then the shutdown; no task is left |
| `Accounting.HistoryIsLastEvents` | src/orchestrator/state.rs:254-261 | an issue's history is the last 32 summaries recorded for it since it was last forgotten |
| `Accounting.TotalsTelescope` | src/orchestrator/state.rs:225-243 | each global total is the sum, over all maximal runs of reports with one thread and turn in one running entry, of the positive steps from zero |
| `Accounting.TotalsNeverDecrease` | src/orchestrator/state.rs:225-243 | no global total ever decreases |
| `Accounting.GrowingTotals` | src/orchestrator/state.rs:225-243 | when reports never decrease, each total is the sum of the segments' last reports |
| `Accounting.AttemptsCountFailures` | src/orchestrator/state.rs:306-316 | without a normal exit since its fresh dispatch, an issue's attempt number is its failed attempts plus failed retry polls, up to the largest 32-bit number |
| `Ranking.CompareTextIsByteOrder` | src/service.rs:784-812 | comparing identifiers character by character orders them as comparing their UTF-8 bytes does |
| `Ranking.RankIsTotalPreorder` | src/service.rs:784-812 | the order across sources is reflexive, total and transitive |
| `Ranking.RankTies` | src/service.rs:784-812 | candidates tie only in priority, creation time, source and identifier together |
| `Ranking.RankMeaning` | src/service.rs:784-812 | strictly before means: the numerically smaller priority, any before none; at equal priority the earlier creation time, any before none; then the smaller source id and the smaller identifier in the order of UTF-8 bytes; and the same without the source for the single-source comparator |
| `Utf8.CompareBytesMeaning` | src/service.rs:784-812 | one list of bytes is smaller exactly when at the first difference it ends or has the smaller byte, and equal only to itself |
| `Ranking.AgreesWithinSource` | src/orchestrator/scheduler.rs:22-41 | within one source the two comparators give the same answer for every two candidates |
| `Ranking.SortRanks` | src/service.rs:735-742 | sorting ranks the candidates and neither loses nor invents one |
| `Retry.FailureDelayClosedForm` | src/orchestrator/retry.rs:1-6 | despite clamping and saturation the delay is min(10000 * 2^(max(attempt,1)-1), cap) over unbounded integers, for every 32-bit attempt and 64-bit cap |
| `Retry.FailureDelayMonotone` | src/orchestrator/retry.rs:1-6 | later attempts never wait less, and never longer than the cap |
| `Refresh.StepKeepsCooldown` | src/observability/http.rs:728-754 | each atomic step of any handler keeps the word equal to the last accepted time and every handler's view of it old but true |
| `Refresh.AcceptedRequestsAreSpaced` | src/observability/http.rs:728-754 | in the order of the exchanges, accepted requests are a cooldown apart however stale a handler's clock |
| `Refresh.RefusedExactly` | src/observability/http.rs:728-754 | a request is refused if and only if its clock is less than a cooldown after the last request accepted before its load, and is told the milliseconds until that cooldown ends, or a whole cooldown if its clock is behind; not refused, it is admitted exactly when nobody was accepted since its load, and otherwise loads again |
| `Refresh.FirstTry` | src/observability/http.rs:728-754 | the same from the moment the clock is read to the exchange, however long that takes and whatever other handlers do in between |
| `Refresh.FlagDecides` | src/observability/http.rs:661-677 | a request joins a pending poll exactly when the flag is set at its first look or at its swap, goes on otherwise, and is never refused but by the cooldown |
| `Refresh.WordGrowsWithoutAba` | src/observability/http.rs:728-754 | the shared word strictly grows with every success, and nothing was accepted between that handler's load and its exchange |
| `Refresh.StepKeepsToken` | src/observability/http.rs:661-677 | the flag is set exactly when one token exists: a handler about to send, a message in the channel, or the consumer before it clears the flag |
| `Refresh.TokenIsUnique` | src/service.rs:421-426 | the channel never holds two messages, the draining loop never finds one, and a set flag means a wake-up is on its way |
| `Refresh.AnsweredMeansPending` | src/observability/http.rs:661-677 | a request is answered as queued, accepted or coalesced, only while the flag is set |
| `Refresh.NoLostRefresh` | src/observability/http.rs:661-677 | from any moment the flag is set, the service cannot rest with it clear before it has started another poll |
| `Names.KeyCollision` | src/orchestrator/state.rs:642-648 | two issues share a key exactly when they are the same or one is a default-source id spelling the other's whole key |
| `Names.SourceIssueKeyInjective` | src/orchestrator/state.rs:642-648 | on ids without a colon the key determines source and issue |
| `Names.SanitizeWorkspaceKey` | src/workspace.rs:921-938 | the result is one ordinary path segment of the allowed characters, whatever the identifier |
| `Names.SanitizeMeaning` | src/workspace.rs:921-938 | character by character, what may stand in a name stays and anything else becomes an underscore; only the empty text and the two dot segments are replaced whole |
| `Names.SanitizeIdempotent` | src/workspace.rs:921-938 | a key sanitises to itself |
| `Names.SourceWorkspaceNamespace` | src/workspace.rs:896-905 | the loop spells the hexadecimal of the id's UTF-8 bytes |
| `Names.NamespaceInjective` | src/workspace.rs:892-905 | different source ids have different namespaces |
| `Names.SourceWorkspaceKeyInjective` | src/workspace.rs:940-947 | workspaces coincide exactly for one source and identifiers that sanitise alike |
| `Paths.NormalizeAbsolutePath` | src/config.rs:1963-1983 | the push and pop loop computes the path that walking the components from the root reaches |
| `Paths.NormalizedRender` | src/config.rs:1963-1983 | normalising the text of a normalised path changes nothing |
| `Paths.NormalizedSegment` | src/config.rs:1963-1983 | one more segment behind any absolute text: an empty one or "." changes nothing, ".." goes to the parent, any other goes down; with the root this fixes what every absolute text normalises to |
| `Paths.RootHasNoParent` | src/config.rs:1972-1976 | "/" and "/.." are both the root |
| `Paths.DownAndUp` | src/config.rs:1972-1976 | a segment followed by ".." leads back to where it began |
| `Paths.ClimbsUp` | src/config.rs:1972-1976 | the text of a path followed by k times "/.." is the path without its last min(k, length) parts |
| `Paths.GoesDown` | src/config.rs:1977 | ordinary segments behind any absolute text are appended |
| `Paths.RelativeFromCurrent` | src/config.rs:1964-1970 | a relative text names what lies below the current directory |
| `Paths.ClimbingOut` | src/workspace.rs:949-961 | a path that climbs out of the root and goes down again is inside exactly when it comes back through the very directories it left and goes on, so entering any other directory is refused |
| `Paths.EnsureContained` | src/workspace.rs:949-961 | relative paths are taken from the current directory, whose error is passed on; otherwise it passes exactly when the normalised path is strictly below the normalised root, and a path that climbs from the root and goes down again passes exactly when it comes back through the same directories and goes on |
| `Paths.WorkspacePathForSourceIdentifier` | src/workspace.rs:45-54 | for every source and identifier the path is the root extended by the key's segments, strictly inside, and the containment check passes |
| `Paths.AncestorExactly` | src/workspace.rs:940-947 | one workspace is an ancestor of another exactly when a default-source identifier sanitises to the other's namespace |
| `Paths.SanitizedNamesAreNotAncestors` | src/workspace.rs:921-947 | an identifier with a sanitised character never names an ancestor of another workspace |
| `Paths.GitHubIdentifierIsSanitized` | src/tracker/github.rs:1214 | every GitHub identifier has one |
| `Paths.AncestorExample` | src/workspace.rs:940-947 | a concrete pair of nested workspaces |
| `Quoting.QuoteRoundTrip` | src/workspace.rs:762-764 | a POSIX shell reads either quoting of any NUL-free text as exactly one word, the text itself |
| `Quoting.CommandLineRoundTrip` | src/agent/codex.rs:1140-1142 | quoted texts separated by blanks read back as that list, so no text leaks into the next |
| `Quoting.RemoteCommandRoundTrip` | src/agent/codex.rs:1120-1138 | for any non-empty workspace and any command the launch line reads as exactly two commands joined by &&: `cd` to that workspace, and `bash` with that command as one argument; an empty workspace is an error |
| `Utf8.BoundaryIsPrefixEnd` | src/orchestrator/state.rs:635-638 | a byte position is a character boundary exactly when a prefix of the text ends there |
| `Utf8.BoundaryWithinThree` | src/orchestrator/state.rs:635-638 | within three bytes below any position there is a boundary |
| `Utf8.FittingCharsIsLongest` | src/orchestrator/state.rs:630-640 | no longer prefix of whole characters fits the budget |
| `Utf8.LastBoundary` | src/orchestrator/state.rs:635-638 | the backward search stops within three steps at the end of the longest prefix that fits |
| `Utf8.BoundedRecentEventMessage` | src/orchestrator/state.rs:630-640 | a message that fits is kept, a longer one is its longest valid prefix that leaves room for the mark |
| `Utf8.TruncateEventSummary` | src/agent/codex.rs:1413-1424 | the same for summaries with the three-byte ellipsis |
| `Utf8.BoundedFits` | src/agent/codex.rs:1413-1424 | a text within the limit is kept; a longer one becomes a prefix of it and the mark, within the limit, and no longer prefix would fit |
| `Framing.LineReader.ReadLine` | src/agent/codex.rs:792-842 | the next line depends only on the bytes, not on how they were cut into buffers; refused exactly when its payload is over the limit |
| `Framing.LineEndInBuffer` | src/agent/codex.rs:811-815 | the newline found in a buffer is the line's end, and a buffer without one lies wholly inside the line |
| `Framing.ReadAll` | src/agent/codex.rs:792-842 | reading to the end yields the stream's lines up to the first that is too long |
| `Framing.WithinLimitMeaning` | src/agent/codex.rs:815-837 | reading fails exactly when some line is too long, and then every earlier line was delivered |
| `Framing.LinesUnique` | src/agent/codex.rs:792-842 | any newline-free lines that spell a stream are its lines |
| `Framing.LinesSpell` | src/agent/codex.rs:792-842 | the lines, each with its newline, spell the stream; a last one without newline is kept |
| `Framing.LinesHaveNoNewlines` | src/agent/codex.rs:811-820 | no line contains a newline |
| `Pagination.AppendPages` | src/tracker/github.rs:547-598 | success is the whole chain of pages once and in order, at most 1000 with the embedded first; failure means there is no such chain |
| `Pagination.SelectItems` | src/tracker/github.rs:450-457 | succeeds exactly when every item can be read, and then gives, in order, exactly the wanted issues among them, each at a position of its own |
| `Pagination.SelectedMeaning` | src/tracker/github.rs:450-457 | the selection is a subsequence of the items: every selected issue is wanted and stands at its place, and no wanted issue is passed over |
| `Pagination.TrimMeaning` | src/tracker/github.rs:1308-1317 | state names are compared without the white space at both ends, all of it and nothing else |
| `Pagination.FetchProjectIssuesForStates` | src/tracker/github.rs:438-482 | all issues of all pages whose state is one of those asked for, but for case and white space around it, in order and each once, or an error, never a part; no states ask for nothing |
| `Pagination.CompleteChainUnique` | src/tracker/github.rs:667-723 | a server offers at most one complete chain from a first page |
| `Pagination.DeadEnd` | src/tracker/github.rs:771-808 | a page that promises more without a cursor, or whose next page fails, is on no complete chain |
| `Pagination.Loop` | src/tracker/github.rs:790-797 | a cursor repeated at once means there is no complete chain |
| `Pagination.CursorsDistinct` | src/tracker/github.rs:667-723 | the cursors of a complete chain are pairwise distinct, so a longer cycle is never complete either |
| `Reload.ConfigReloader.ReloadNow` | src/config.rs:963-975 | the source id never changes; on any error, and on another source id, the last good configuration stays |
| `Reload.ConfigReloader.ReloadIfChanged` | src/config.rs:977-984 | exactly a known unchanged time skips; otherwise it is an error if and only if the file does not load or names another source, and which one; configuration and time change exactly with a reload |
| `Reload.Verdict` | src/config.rs:963-984 | when a look at a file skips, when it is an error and which one, as conditions on the file, its time and the source id |
| `Reload.ValidateUniqueSourceIds` | src/config.rs:1104-1135 | accepted exactly when neither an id nor a namespace is shared, and the error says which |
| `Reload.DistinctIdsSuffice` | src/config.rs:1123-1132 | namespaces are distinct exactly when ids are, so the second error never happens |
| `Reload.ConfigSetReloader.Open` | src/config.rs:1008-1021 | succeeds exactly when every named workflow loads and no two sources share an id, and then holds one reloader for each; the error is that of the first workflow that does not load, or a duplicate id |
| `Reload.ConfigSetReloader.constructor` | src/config.rs:1013-1017 | one reloader for each configuration already found distinct |
| `Reload.ConfigSetReloader.ReloadIfChanged` | src/config.rs:1085-1094 | over any reload the list of source ids is unchanged; every source's result is that of its own file and time, and exactly a reload gives it its new configuration and time |
| `Reload.CurrentFits` | src/service.rs:329-356 | the configurations in force always cover exactly the sources the service was started with |

## Left out

- Spawning processes, hooks, SSH transport, git, creating and removing workspaces: foreign calls; preparing a workspace succeeds or fails, nondeterministically.
- Pruning workspaces and checking symbolic links (`src/workspace.rs:595-750`, `971-1039`): they depend on the file system.
- HTTP routing, authentication, JSON and dashboard responses, snapshots, poll health, logging, the command line.
- Parsing YAML, JSON and Liquid, configuration defaults and validation: only the reload rules are modelled.
- `is_single_graphql_operation` in `src/agent/codex.rs`: approximate by design, so there is no clean statement to prove.
- `schedule_retry_now` and its variants (`src/orchestrator/state.rs:542-579`): no caller outside tests.
- Tables are maps without an order. Where the program goes through a sorted table the model goes through it in any order, so what is proved holds for the program's order.
- Of the statistics, `session_id`, process id, turn count, rate limits, last message and runtime seconds.
- Clocks are inputs. They do not run backwards where the program reads twice in one operation, and arithmetic on generations does not overflow.
- Cancelling a read half-way (`read_message_before` in `src/agent/codex.rs`): framing is proved for completed reads.
- Liveness of requeued retries: they keep their past due time, so the loop wakes at once; only safety and conservation are claimed.
- Memory orderings of the atomics: handlers interleave step by step, each atomic operation taking effect at once.
- Paths are POSIX; Windows prefixes and the remote-path variants are not modelled. Of the scripts sent to remote hosts only the launch line of Codex is read; workspace scripts use control structures the reader does not know.
- Limits.NeverOverLimits: covers the service and each host but no single state, because a tracker may move running issues into a state at any time; for states the limits hold within a pass.
- `Vec::sort_by` is modelled as a stable insertion sort on values, not in place.
- Server answers to pagination are a fixed function from cursor to page; a project that changes during a fetch is not modelled.
- `fetch_issue_states_by_ids` (`src/tracker/github.rs:932`) asks for all ids in one query; its answer is an input of reconciliation.
