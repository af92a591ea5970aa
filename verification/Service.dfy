/**
  The service loop. It owns the orchestrator's state and the registry of worker tasks and is the only one to change
  them. Beside the program's own data it keeps, for the proof only, the trace of actions it has taken: what the
  loop does to its indexes, tables and registry is a run of the transition system.
*/
module Service {
  import opened Prelude
  import opened Names
  import opened Domain
  import opened Model
  import opened Capacity
  import opened Ranking
  import opened State
  import opened Scheduler
  import opened Runs
  import opened Greedy
  import opened Effects
  import Retry

  class WorkerRegistry {
    var nextGeneration: nat
    var tasks: map<string, WorkerTask>

    constructor ()
      ensures nextGeneration == 0 && tasks == map[]
    {
      nextGeneration, tasks := 0, map[];
    }

    method AllocateGeneration() returns (generation: nat)
      modifies this`nextGeneration
      ensures nextGeneration == old(nextGeneration) + 1 == generation
    {
      nextGeneration := nextGeneration + 1;
      generation := nextGeneration;
    }

    /** The program asserts that no task is registered under the key; here that is what callers must show. */
    method Insert(key: string, generation: nat, target: ExecutionTarget)
      requires key !in tasks
      modifies this`tasks
      ensures tasks == old(tasks)[key := WorkerTask(generation, target)]
    {
      tasks := tasks[key := WorkerTask(generation, target)];
    }

    /** Ends the task at `key`, if there is one. */
    method AbortWorker(key: string)
      modifies this`tasks
      ensures tasks == old(tasks) - {key}
    {
      tasks := tasks - {key};
    }

    /** Waits for the task at `key` if it is of this generation; otherwise the message is stale. */
    method AwaitWorker(key: string, generation: nat) returns (current: bool)
      modifies this`tasks
      ensures current <==> key in old(tasks) && old(tasks)[key].generation == generation
      ensures tasks == if current then old(tasks) - {key} else old(tasks)
    {
      current := key in tasks && tasks[key].generation == generation;
      if current {
        tasks := tasks - {key};
      }
    }
  }

  class ServiceLoop {
    const state: OrchestratorState
    const workers: WorkerRegistry
    ghost const sources: set<string>
    ghost var stopped: bool
    ghost var trace: Trace

    ghost function View(): Svc
      reads this, state, workers
    {
      Seen(state.Claims(), workers.tasks, workers.nextGeneration, stopped)
    }

    /** The trace so far ends in `s`. */
    ghost predicate Traced(s: Svc)
      reads this
    {
      IsTrace(sources, trace) && Final(sources, trace) == s
    }

    ghost predicate Valid()
      reads this, state, workers
    {
      state.sources == sources && state.Valid() && Traced(View())
    }

    constructor (ghost sources: set<string>)
      ensures Valid() && fresh(state) && fresh(workers)
      ensures this.sources == sources && trace == [] && !stopped && View() == Initial(sources)
    {
      this.sources := sources;
      state := new OrchestratorState(sources);
      workers := new WorkerRegistry();
      stopped := false;
      trace := [];
    }

    /** The loop is always in a state the transition system reaches. */
    lemma Reached()
      requires Valid()
      ensures Inv(View()) && View().sources == sources
    {
      hide Inv, IsTrace, Sound;
      ReachableInv(sources, trace, |trace|);
    }

    /**
      The three indexes, read off the program's own fields: claimed keys and workspaces are those of running and
      waiting issues, and so are the claimed tracker ids if and only if no abort so far was stray.
    */
    lemma IndexesAreExact()
      requires Valid()
      ensures state.claimed == state.running.Keys + state.retryAttempts.Keys
      ensures state.claimedWorkspaceKeys == WorkspaceKeys(View()) && IssueIds(View()) <= state.claimedIssueIds
      ensures state.claimedIssueIds == IssueIds(View()) <==>
              forall i :: 0 <= i < |trace| ==> !IsStray(StateAt(sources, trace, i), trace[i].action)
    {
      hide Inv, IsTrace, IsStray, ClaimsInv;
      IndexesSeen(state.Claims(), View(), state.claimed, state.claimedIssueIds, state.claimedWorkspaceKeys);
      LeakExactly(sources, trace, |trace|);
    }

    ghost method Record(s: Svc, a: Action)
      requires Traced(s) && Enabled(s, a) && View() == Apply(s, a)
      modifies this`trace
      ensures Traced(View()) && trace == old(trace) + [Step(a, View())]
    {
      hide Enabled, Apply, IsTrace;
      assert Follows(s, Step(a, View()));
      TraceExtends(sources, trace, Step(a, View()));
      trace := trace + [Step(a, View())];
    }

    // ---- Messages of workers

    method ApplyWorkerEvent(key: string, generation: nat, event: CodexEvent)
      requires Valid() && !stopped
      modifies this`trace, state, workers
      ensures Valid() && View() == Apply(old(View()), Event(key, generation, event))
      ensures trace == old(trace) + [Step(Event(key, generation, event), View())]
              && state.draining == old(state.draining)
    {
      hide Sound, IsTrace, ObservedEvent, Enabled, Apply;
      ghost var s := View();
      EventSeen(state.Claims(), s, key, generation, event);
      if key in workers.tasks && workers.tasks[key].generation == generation {
        state.ApplyCodexEvent(key, event);
      }
      Record(s, Event(key, generation, event));
    }

    // ---- Reconciliation

    /** After the task at `key`, alone, was removed since `s`: the issue waits for its next attempt. */
    method LeaveToRetry(key: string, reason: WorkerExitReason, cap: nat, nowMs: nat, ghost s: Svc, ghost a: Action)
      requires state.sources == sources && state.Valid() && Traced(s) && !stopped
      requires key in s.running && View() == s.(tasks := s.tasks - {key})
      requires Enabled(s, a) && Apply(s, a) == Exit(s, key, reason, cap, nowMs)
      modifies this`trace, state, workers
      ensures Valid() && View() == Exit(s, key, reason, cap, nowMs) && state.draining == old(state.draining)
      ensures trace == old(trace) + [Step(a, View())]
    {
      hide Sound, IsTrace, Exit, Enabled, Apply;
      ExitSeen(state.Claims(), s, key, reason, cap, nowMs);
      ExitKeepsDraining(s, key, reason, cap, nowMs);
      var _ := state.WorkerExitByKey(key, reason, cap, nowMs);
      Record(s, a);
    }

    /** After the task of an issue, alone, was removed since `s`: the issue is forgotten. */
    method ForgetIssue(sourceId: string, id: string, ghost s: Svc, ghost a: Action)
      requires state.sources == sources && state.Valid() && Traced(s) && !stopped
      requires View() == s.(tasks := s.tasks - {SourceIssueKey(sourceId, id)})
      requires Enabled(s, a)
      requires var key := SourceIssueKey(sourceId, id);
               Apply(s, a) == Release(s, key).(leaked := s.leaked + OwnedId(s, key) - {id})
      modifies this`trace, state, workers
      ensures Valid() && View() == Apply(s, a) && state.draining == old(state.draining)
      ensures trace == old(trace) + [Step(a, View())]
    {
      hide Sound, IsTrace, Enabled, Apply, OwnedId, SourceIssueKey;
      assert OwnedId(state.Claims(), SourceIssueKey(sourceId, id)) == OwnedId(s, SourceIssueKey(sourceId, id)) by {
        OwnedIdSeen(state.Claims(), s, SourceIssueKey(sourceId, id));
      }
      state.ReleaseForSource(sourceId, id);
      Record(s, a);
    }

    method EndStalled(key: string, config: Config, nowUtc: int, nowMs: nat)
      requires Valid() && !stopped && key in state.running && IsStalled(state.running[key], config, nowUtc)
      modifies this`trace, state, workers
      ensures Valid() && state.draining == old(state.draining)
      ensures View() == Exit(old(View()), key, Stalled("codex stalled"), config.maxRetryBackoffMs, nowMs)
      ensures trace == old(trace) + [Step(Stall(key, config, nowUtc, nowMs), View())]
    {
      hide Sound, IsTrace, Exit;
      ghost var s := View();
      workers.AbortWorker(key);
      LeaveToRetry(key, Stalled("codex stalled"), config.maxRetryBackoffMs, nowMs, s,
                   Stall(key, config, nowUtc, nowMs));
    }

    /** Every issue of the source that was silent for too long is put back to wait; nothing else changes. */
    method ReconcileStalled(config: Config, nowUtc: int, nowMs: nat, ghost answer: Answer)
      requires Valid() && !stopped && answer.config == config
      modifies this`trace, state, workers
      ensures Valid() && old(trace) <= trace && state.draining == old(state.draining)
      ensures EndedAt(old(View()), View(), StalledKeys(old(View()), config, nowUtc), Stalled("codex stalled"),
                      config.maxRetryBackoffMs, nowMs)
      ensures StepsGoBy(trace, old(|trace|), [answer])
    {
      hide Sound, IsTrace, Inv, EndedAt, GoesByOne, SourceIssueKey, KeysOf, IsStalled, Exit,
           OrchestratorState.StalledIssueIdsForSource;
      ghost var s := View();
      var reason, cap := Stalled("codex stalled"), config.maxRetryBackoffMs;
      Reached();
      var ids := state.StalledIssueIdsForSource(config.sourceId, config, nowUtc);
      StalledIds(s, state, config, nowUtc);
      ghost var done: set<string> := {};
      assert EndedAt(s, s, {}, reason, cap, nowMs) by { EndedNowhere(s, reason, cap, nowMs); }
      while ids != {}
        invariant Valid() && old(trace) <= trace && state.draining == old(state.draining)
        invariant forall id :: id in ids ==> ':' !in id
        invariant KeysOf(config.sourceId, ids) == StalledKeys(s, config, nowUtc) - done
                  && done <= StalledKeys(s, config, nowUtc)
        invariant EndedAt(s, View(), done, reason, cap, nowMs)
        invariant StepsGoBy(trace, old(|trace|), [answer])
        decreases |ids|
      {
        var id :| id in ids;
        var key := SourceIssueKey(config.sourceId, id);
        assert key in KeysOf(config.sourceId, ids) by { KeyOfMember(config.sourceId, ids, id); }
        KeysOfLess(config.sourceId, ids, id);
        EndedOneMore(s, View(), done, key, reason, cap, nowMs);
        StillStalled(s, View(), done, key, config, nowUtc, nowMs);
        ids := ids - {id};
        ghost var before := trace;
        EndStalled(key, config, nowUtc, nowMs);
        OneStepGoesBy(before, trace, answer);
        StepsExtend(before, trace, old(|trace|), [answer]);
        done := done + {key};
      }
      KeysOfNothing(config.sourceId);
      assert done == StalledKeys(s, config, nowUtc);
    }

    /** Ends the worker of an issue whose entry, alone, was brought up to date since `s`, and forgets the issue. */
    method CancelIssue(sourceId: string, id: string, ghost s: Svc, ghost a: Action)
      requires Enabled(s, a) && Apply(s, a) == Release(s, SourceIssueKey(sourceId, id))
      requires var key := SourceIssueKey(sourceId, id);
               && key in s.running && key in state.running && state.running[key].issue.id == id && id !in s.leaked
               && View() == s.(running := s.running[key := state.running[key]])
      requires state.sources == sources && state.Valid() && Traced(s) && !stopped
      modifies this`trace, state, workers
      ensures Valid() && trace == old(trace) + [Step(a, View())] && state.draining == old(state.draining)
      ensures View() == Release(s, SourceIssueKey(sourceId, id))
    {
      hide Sound, IsTrace, Release, SourceIssueKey, OwnedId, Enabled, Apply;
      var key := SourceIssueKey(sourceId, id);
      ghost var c := state.Claims().(running := s.running);
      CancelSeen(c, s, key, state.running[key], id);
      assert state.Claims() == c.(running := c.running[key := state.running[key]]);
      ReleaseKeepsDraining(s, key);
      workers.AbortWorker(key);
      state.ReleaseForSource(sourceId, id);
      Record(s, a);
    }

    /** Brings one running issue in line with the tracker's answer. */
    method ReconcileIssue(config: Config, id: string, refreshed: seq<Issue>, ghost answer: Answer)
      requires Valid() && !stopped && ':' !in id && answer.config == config && answer.refreshed == Some(refreshed)
      modifies this`trace, state, workers
      ensures Valid() && old(trace) <= trace && state.draining == old(state.draining)
      ensures View() == Reconciled(old(View()), config, id, FindIssue(refreshed, id))
      ensures StepsGoBy(trace, old(|trace|), [answer])
    {
      hide Sound, IsTrace, Inv, Release, SourceIssueKey, Config.MayGoOn, Enabled, Apply, FindIssue, Reconciled, Decide;
      ghost var s := View();
      var key := SourceIssueKey(config.sourceId, id);
      Reached();
      VerdictOf(s, config, id, refreshed);
      var latest := FindIssue(refreshed, id);
      var decision := state.ReconcileRunningIssueForSource(config.sourceId, id, latest, config);
      if decision.CancelTerminal? || decision.CancelNonActive? || decision.MissingFromTracker? {
        CancelIssue(config.sourceId, id, s, Cancel(key, config, refreshed));
        OneStepGoesBy(old(trace), trace, answer);
      } else if decision.RefreshedActive? {
        Record(s, RefreshIssue(key, config, refreshed));
        OneStepGoesBy(old(trace), trace, answer);
      }
    }

    /** Carries out the tracker's verdict on the issues polled for, as far as they run. */
    method ReconcileTrackerStates(config: Config, ids: set<string>, refreshed: seq<Issue>, ghost answer: Answer)
      requires Valid() && !stopped && forall id :: id in ids ==> ':' !in id
      requires answer.config == config && answer.refreshed == Some(refreshed)
      modifies this`trace, state, workers
      ensures Valid() && old(trace) <= trace && state.draining == old(state.draining)
      ensures JudgedAt(old(View()), View(), Polled(old(View()), config, ids), config, refreshed)
      ensures StepsGoBy(trace, old(|trace|), [answer])
    {
      hide Sound, IsTrace, Inv, JudgedAt, GoesByOne, Polled, SourceIssueKey, Reconciled, FindIssue;
      ghost var s := View();
      var left := ids;
      JudgedNowhere(s, config, refreshed);
      assert ids - left == {};
      while left != {}
        invariant Valid() && old(trace) <= trace && state.draining == old(state.draining)
        invariant left <= ids && JudgedAt(s, View(), Polled(s, config, ids - left), config, refreshed)
        invariant StepsGoBy(trace, old(|trace|), [answer])
        decreases |left|
      {
        var id :| id in left;
        Reached();
        JudgedOneMore(s, View(), ids - left, config, id, refreshed);
        assert ids - (left - {id}) == ids - left + {id};
        left := left - {id};
        ghost var before := trace;
        ReconcileIssue(config, id, refreshed, answer);
        StepsExtend(before, trace, old(|trace|), [answer]);
      }
      assert ids - {} == ids;
    }

    method PostponeRetry(key: string, cap: nat, nowMs: nat)
      requires Valid() && !stopped && key in state.retryAttempts && state.retryAttempts[key].dueAt <= nowMs
      modifies this`trace, state, workers
      ensures Valid() && trace == old(trace) + [Step(Postpone(key, cap, nowMs), View())]
              && state.draining == old(state.draining)
      ensures var s := old(View());
              View() == s.(retries := s.retries[key := PostponedRetry(s.retries[key], cap, nowMs)])
    {
      hide Sound, IsTrace;
      ghost var s := View();
      SoundTables(state.Claims(), state.claimed, state.claimedIssueIds, state.claimedWorkspaceKeys);
      var retry := state.retryAttempts[key];
      var attempt := SaturatingAdd(retry.attempt, 1, U32_MAX);
      state.UpdateRetry(key, retry.(attempt := attempt, error := Some("retry poll failed"),
                                    dueAt := Retry.FailureRetryDueAtMs(attempt, cap, nowMs)));
      Record(s, Postpone(key, cap, nowMs));
    }

    /** When the candidates cannot be fetched, every due retry of the source is put off and counts as an attempt. */
    method RescheduleDueRetriesAfterFetchError(config: Config, nowMs: nat, ghost answer: Answer)
      requires Valid() && !stopped && answer.config == config && answer.candidates == None
      modifies this`trace, state, workers
      ensures Valid() && old(trace) <= trace && state.draining == old(state.draining)
      ensures PostponedAt(old(View()), View(), old(state.DueRetryKeysForSource(config.sourceId, nowMs)),
                          config.maxRetryBackoffMs, nowMs)
      ensures StepsGoBy(trace, old(|trace|), [answer])
    {
      hide Sound, IsTrace, PostponedRetry, PostponedAt, GoesByOne, Apply, Enabled;
      ghost var s := View();
      PostponedNowhere(s, config.maxRetryBackoffMs, nowMs);
      var due := state.DueRetryKeysForSource(config.sourceId, nowMs);
      var left := due;
      assert due - left == {};
      while left != {}
        invariant Valid() && old(trace) <= trace && state.draining == old(state.draining)
        invariant left <= due && PostponedAt(s, View(), due - left, config.maxRetryBackoffMs, nowMs)
        invariant StepsGoBy(trace, old(|trace|), [answer])
        decreases |left|
      {
        var key :| key in left;
        var later: nat :| later >= nowMs;
        PostponedOneMore(s, View(), due - left, key, config.maxRetryBackoffMs, nowMs, later);
        assert due - (left - {key}) == due - left + {key};
        ghost var before := trace;
        PostponeRetry(key, config.maxRetryBackoffMs, later);
        OneStepGoesBy(before, trace, answer);
        StepsExtend(before, trace, old(|trace|), [answer]);
        left := left - {key};
      }
      assert due - left == due;
    }

    // ---- Outcomes

    /** A worker's outcome: its issue is forgotten when it reached a terminal state, and otherwise waits. */
    method ApplyWorkerOutcome(
        configs: seq<Config>, key: string, generation: nat, reason: WorkerExitReason, terminal: bool, nowMs: nat)
      requires Valid() && !stopped && ConfigsFit(sources, configs)
      modifies this`trace, state, workers
      ensures Valid() && old(trace) <= trace && state.draining == old(state.draining)
      ensures var a := OutcomeAction(old(View()), configs, key, generation, reason, terminal, nowMs);
              Enabled(old(View()), a) && View() == Apply(old(View()), a)
    {
      hide Sound, IsTrace, Inv, Release, Exit, SourceIssueKey, FindConfig, Enabled, Apply, OwnedId, Matches;
      ghost var s := View();
      ghost var a := OutcomeAction(s, configs, key, generation, reason, terminal, nowMs);
      var config := if key in state.running then FindConfig(configs, state.running[key].sourceId) else None;
      OutcomeApplies(s, key, generation, reason, terminal, a.cap, nowMs);
      Reached();
      WorkerMatches(s, key, generation);
      var current := workers.AwaitWorker(key, generation);
      if !current {
        return;
      }
      var entry := state.running[key];
      if terminal {
        ReleaseOwn(s, key);
        ForgetIssue(entry.sourceId, entry.issue.id, s, a);
      } else {
        LeaveToRetry(key, reason, config.value.maxRetryBackoffMs, nowMs, s, a);
      }
    }

    // ---- Operator commands

    /** Ends the worker the operator names by its issue and generation. */
    method AbortByOperator(configs: seq<Config>, sourceId: string, issueId: string, generation: nat, nowMs: nat)
      returns (r: ControlResult)
      requires Valid() && !stopped && ConfigsFit(sources, configs)
      modifies this`trace, state, workers
      ensures Valid() && old(trace) <= trace && state.draining == old(state.draining)
      ensures r == AbortResult(old(View()), SourceIssueKey(sourceId, issueId), generation)
      ensures var a := Abort(sourceId, issueId, generation, CapFor(configs, sourceId), nowMs);
              Enabled(old(View()), a) && View() == Apply(old(View()), a)
    {
      hide Sound, IsTrace, Inv, Release, Exit, SourceIssueKey, FindConfig, Enabled, Apply, OwnedId;
      ghost var s := View();
      var key := SourceIssueKey(sourceId, issueId);
      var config := FindConfig(configs, sourceId);
      ghost var a := Abort(sourceId, issueId, generation, CapFor(configs, sourceId), nowMs);
      Reached();
      AbortApplies(s, a);
      if key !in workers.tasks {
        return if key in state.running then Stale else NotFound;
      }
      if workers.tasks[key].generation != generation {
        return Stale;
      }
      workers.AbortWorker(key);
      if config.Some? {
        LeaveToRetry(key, Failed("worker aborted by operator"), config.value.maxRetryBackoffMs, nowMs, s, a);
      } else {
        ForgetIssue(sourceId, issueId, s, a);
      }
      r := Applied(state.draining);
    }

    method PromoteByOperator(sourceId: string, issueId: string, nowMs: nat) returns (r: ControlResult)
      requires Valid() && !stopped
      modifies this`trace, state, workers
      ensures Valid() && old(trace) <= trace && state.draining == old(state.draining)
      ensures var a := Promote(SourceIssueKey(sourceId, issueId), nowMs);
              Enabled(old(View()), a) && View() == Apply(old(View()), a)
      ensures r == if SourceIssueKey(sourceId, issueId) in old(state.retryAttempts) then Applied(state.draining)
              else NotFound
    {
      hide Sound, IsTrace, SourceIssueKey;
      ghost var s := View();
      var key := SourceIssueKey(sourceId, issueId);
      if key !in state.retryAttempts {
        return NotFound;
      }
      SoundTables(state.Claims(), state.claimed, state.claimedIssueIds, state.claimedWorkspaceKeys);
      state.UpdateRetry(key, state.retryAttempts[key].(dueAt := nowMs));
      Record(s, Promote(key, nowMs));
      r := Applied(state.draining);
    }

    method SetDraining(draining: bool)
      requires Valid() && !stopped
      modifies this`trace, state, workers
      ensures Valid() && trace == old(trace) + [Step(Action.SetDraining(draining), View())]
      ensures View() == old(View()).(draining := draining)
    {
      hide Sound, IsTrace;
      ghost var s := View();
      state.draining := draining;
      StatisticsSound(old(state.Claims()), state.Claims(), state.claimed, state.claimedIssueIds,
                      state.claimedWorkspaceKeys);
      Record(s, Action.SetDraining(draining));
    }

    method ApplyServiceControl(configs: seq<Config>, control: Control, nowMs: nat) returns (r: ControlResult)
      requires Valid() && !stopped && ConfigsFit(sources, configs)
      modifies this`trace, state, workers
      ensures Valid() && old(trace) <= trace
      ensures var a := ControlAction(configs, control, nowMs);
              Enabled(old(View()), a) && View() == Apply(old(View()), a)
      ensures state.draining == match control case Drain => true case Resume => false case _ => old(state.draining)
      ensures r == match control
                   case Drain => Applied(true)
                   case Resume => Applied(false)
                   case AbortWorkerCommand(sourceId, issueId, generation) =>
                     AbortResult(old(View()), SourceIssueKey(sourceId, issueId), generation)
                   case PromoteRetry(sourceId, issueId) =>
                     if SourceIssueKey(sourceId, issueId) in old(state.retryAttempts) then Applied(state.draining)
                     else NotFound
    {
      hide Sound, IsTrace, Inv, SourceIssueKey, CapFor, ConfigsFit;
      match control
      case Drain =>
        SetDraining(true);
        r := Applied(true);
      case Resume =>
        SetDraining(false);
        r := Applied(false);
      case AbortWorkerCommand(sourceId, issueId, generation) =>
        r := AbortByOperator(configs, sourceId, issueId, generation, nowMs);
      case PromoteRetry(sourceId, issueId) =>
        r := PromoteByOperator(sourceId, issueId, nowMs);
    }

    // ---- Dispatching

    /** Claims the issue for a worker that is not started yet; `before` still has the issue's retry. */
    method Claim(
        config: Config, issue: Issue, attempt: Option<nat>, target: ExecutionTarget, path: string, startedAt: int,
        ghost before: Svc, ghost a: Action)
      requires state.sources == sources && state.Valid() && Inv(before) && before.sources == sources
      requires a.Dispatch? && a.config == config && a.issue == issue && Enabled(before, a)
      requires View() == WithoutRetry(before, SourceIssueKey(config.sourceId, issue.id))
      modifies state
      ensures state.Valid()
      ensures state.Claims() == WithRunning(old(state.Claims()), SourceIssueKey(config.sourceId, issue.id),
                                            ClaimedEntry(config.sourceId, issue, attempt, target, path, startedAt, 0))
    {
      hide Sound, Inv, SourceIssueKey, SourceWorkspaceKey, ClaimedEntry, Enabled, IssueIds, WorkspaceKeys;
      ghost var c := state.Claims();
      DispatchFreesKey(before, a);
      ClaimsFree(c, View(), SourceIssueKey(config.sourceId, issue.id), config.sourceId, issue);
      state.ClaimRunningOnTargetForSource(config.sourceId, issue, attempt, target, path, startedAt);
    }

    /** Claims the issue and, its workspace having failed, at once leaves it to a retry. */
    method FailStart(
        config: Config, issue: Issue, attempt: Option<nat>, target: ExecutionTarget, startedAt: int, error: string,
        nowMs: nat, ghost before: Svc)
      returns (ghost a: Action)
      requires state.sources == sources && state.Valid() && Traced(before) && !stopped
      requires MayDispatch(before, config, issue, attempt, target, nowMs)
      requires View() == WithoutRetry(before, SourceIssueKey(config.sourceId, issue.id))
      modifies this`trace, state, workers
      ensures a == Dispatch(config, issue, attempt, target, startedAt, Broken(error), nowMs)
      ensures Enabled(before, a) && Valid() && View() == Apply(before, a) && trace == old(trace) + [Step(a, View())]
    {
      hide Sound, IsTrace, Inv, SourceIssueKey, SourceWorkspaceKey, ClaimedEntry, Enabled, Apply, Exit, MayDispatch;
      a := Dispatch(config, issue, attempt, target, startedAt, Broken(error), nowMs);
      var key := SourceIssueKey(config.sourceId, issue.id);
      ghost var base, c := View(), state.Claims();
      ReachableInv(sources, trace, |trace|);
      MayDispatchLater(before, a, nowMs);
      FailedStartSeen(c, before, base, a);
      Claim(config, issue, attempt, target, "", startedAt, before, a);
      var _ := state.WorkerExitByKey(key, Failed(error), config.maxRetryBackoffMs, nowMs);
      Record(before, a);
    }

    /** Gives the entry at `key` its generation, which the program asserts it finds, and registers the task. */
    method Launch(key: string, target: ExecutionTarget)
      requires state.Valid() && key in state.running && key !in workers.tasks
      modifies state, workers
      ensures state.Valid()
      ensures var generation := old(workers.nextGeneration) + 1;
              View() == Seen(WithRunning(old(state.Claims()), key, old(state.running)[key].(generation := generation)),
                             old(workers.tasks)[key := WorkerTask(generation, target)], generation, stopped)
    {
      hide Sound;
      var generation := workers.AllocateGeneration();
      var found := state.SetRunningGeneration(key, generation);
      assert found;
      workers.Insert(key, generation, target);
    }

    /** Claims the issue, starts its worker and registers the task. */
    method StartWorker(
        config: Config, issue: Issue, attempt: Option<nat>, target: ExecutionTarget, startedAt: int, path: string,
        nowMs: nat, ghost before: Svc)
      returns (ghost a: Action)
      requires state.sources == sources && state.Valid() && Traced(before) && !stopped
      requires MayDispatch(before, config, issue, attempt, target, nowMs)
      requires View() == WithoutRetry(before, SourceIssueKey(config.sourceId, issue.id))
      modifies this`trace, state, workers
      ensures a == Dispatch(config, issue, attempt, target, startedAt, Ready(path), nowMs)
      ensures Enabled(before, a) && Valid() && View() == Apply(before, a) && trace == old(trace) + [Step(a, View())]
    {
      hide Sound, IsTrace, Inv, SourceIssueKey, SourceWorkspaceKey, ClaimedEntry, Enabled, Apply, Exit, MayDispatch;
      a := Dispatch(config, issue, attempt, target, startedAt, Ready(path), nowMs);
      var key := SourceIssueKey(config.sourceId, issue.id);
      ghost var base, c := View(), state.Claims();
      ReachableInv(sources, trace, |trace|);
      MayDispatchLater(before, a, nowMs);
      DispatchFreesKey(before, a);
      StartSeen(c, before, base, a);
      Claim(config, issue, attempt, target, path, startedAt, before, a);
      Launch(key, target);
      Record(before, a);
    }

    /**
      Prepares the workspace, which may fail, and starts the worker. The caller has taken the issue's retry, if any,
      out of the table: `before` is the state that still has it. The program first checks that no task stands under
      the key; none ever does.
    */
    method DispatchIssue(
        config: Config, issue: Issue, attempt: Option<nat>, target: ExecutionTarget, nowMs: nat, ghost before: Svc)
      returns (ghost a: Action)
      requires state.sources == sources && state.Valid() && Traced(before) && !stopped
      requires MayDispatch(before, config, issue, attempt, target, nowMs)
      requires View() == WithoutRetry(before, SourceIssueKey(config.sourceId, issue.id))
      modifies this`trace, state, workers
      ensures a.Dispatch? && a.config == config && a.issue == issue && a.attempt == attempt
              && a.target == target
      ensures nowMs <= a.now && state.draining == before.draining
      ensures Enabled(before, a) && Valid() && View() == Apply(before, a) && trace == old(trace) + [Step(a, View())]
    {
      hide Sound, IsTrace, SourceIssueKey, Enabled, Apply, MayDispatch, WithoutRetry;
      var startedAt: int := *;
      var setup: Setup := *;
      var later: nat :| later >= nowMs;
      MayDispatchLast(before, config, issue, attempt, target, nowMs, later);
      match setup {
        case Broken(error) => a := FailStart(config, issue, attempt, target, startedAt, error, later, before);
        case Ready(path) => a := StartWorker(config, issue, attempt, target, startedAt, path, later, before);
      }
      DispatchKeepsDraining(before, a);
    }

    /** Offers the `n`-th candidate, when none before it can be dispatched. */
    method Offer(runs: seq<SourceRun>, order: seq<Candidate>, n: nat, limit: nat, nowMs: nat, ghost s: Svc)
      returns (ghost picked: bool)
      requires Valid() && !stopped && !state.draining && FromRuns(runs, order) && n < |order|
      requires order[n].sourceId in sources && ':' !in order[n].issue.id && |state.running| < limit
      requires forall m :: 0 <= m < n ==> !CandidateDispatchable(View(), runs, order[m])
      requires WithinLimits(s, View(), ConfigsOf(runs), limit)
      modifies this`trace, state, workers
      ensures Valid() && !state.draining && WithinLimits(s, View(), ConfigsOf(runs), limit)
      ensures forall m :: 0 <= m <= n ==> !CandidateDispatchable(View(), runs, order[m])
      ensures !picked ==> View() == old(View()) && trace == old(trace)
      ensures picked ==>
                && |trace| == old(|trace|) + 1 && trace == old(trace) + [trace[|trace| - 1]]
                && IsPick(old(View()), trace[|trace| - 1].action, runs, order, n, limit)
    {
      hide Sound, IsTrace, Inv, Enabled, Apply, MayDispatch, Eligible, SelectExecutionTarget, WithinLimits, RoomFor;
      var config, issue := runs[order[n].run].config, order[n].issue;
      ghost var v := View();
      Reached();
      EligibilityIsExact(issue, state, config);
      EligibleSameTables(state.Claims(), v, config, issue);
      if DispatchIneligibleReasonForSource(config.sourceId, issue, state, config).Some? {
        return false;
      }
      var target := SelectExecutionTarget(workers.tasks, config);
      if target.None? {
        return false;
      }
      FreshMayDispatch(v, config, issue, limit, nowMs);
      ghost var a := DispatchIssue(config, issue, None, target.value, nowMs, v);
      forall m | 0 <= m <= n
        ensures !CandidateDispatchable(Apply(v, a), runs, order[m])
      {
        StaysUndispatchable(v, a, runs, order, n, limit, m);
      }
      DispatchWithinLimits(s, v, a, ConfigsOf(runs), order[n].run, limit);
      picked := true;
    }

    /**
      Offers the candidates in the given order. Each one dispatched is the first that could be; in the end nothing
      more can be, or the limit is reached.
    */
    method DispatchFresh(runs: seq<SourceRun>, order: seq<Candidate>, limit: nat, nowMs: nat)
      returns (ghost picks: seq<nat>)
      requires Valid() && !stopped && !state.draining && FromRuns(runs, order)
      requires forall m :: 0 <= m < |order| ==> order[m].sourceId in sources && ':' !in order[m].issue.id
      modifies this`trace, state, workers
      ensures Valid() && old(trace) <= trace && !state.draining
      ensures GreedyFrom(sources, trace, old(|trace|), runs, order, picks, limit)
      ensures |state.running| >= limit ||
              forall m :: 0 <= m < |order| ==> !CandidateDispatchable(View(), runs, order[m])
      ensures WithinLimits(old(View()), View(), ConfigsOf(runs), limit)
    {
      hide Sound, IsTrace, Inv, Enabled, Apply, GreedyFrom, IsPick, CandidateDispatchable, WithinLimits;
      ghost var s := View();
      picks := [];
      GreedyStart(sources, trace, runs, order, limit);
      WithinLimitsAtFirst(s, ConfigsOf(runs), limit);
      for n := 0 to |order|
        invariant Valid() && old(trace) <= trace && !state.draining
        invariant forall i :: 0 <= i < |picks| ==> picks[i] < n
        invariant GreedyFrom(sources, trace, old(|trace|), runs, order, picks, limit)
        invariant forall m :: 0 <= m < n ==> !CandidateDispatchable(View(), runs, order[m])
        invariant WithinLimits(s, View(), ConfigsOf(runs), limit)
      {
        if |state.running| >= limit {
          break;
        }
        ghost var v, soFar := View(), trace;
        ghost var picked := Offer(runs, order, n, limit, nowMs, s);
        if picked {
          GreedyExtends(sources, soFar, old(|trace|), runs, order, picks, limit, trace[|trace| - 1], n);
          picks := picks + [n];
        }
      }
    }

    // ---- Retries

    /** Takes a retry out of the table and gives up its claims. */
    method TakeRetry(key: string) returns (retry: RetryEntry)
      requires Valid() && !stopped && key in state.retryAttempts
      modifies state
      ensures state.Valid() && View() == WithoutRetry(old(View()), key) && retry == old(state.retryAttempts)[key]
      ensures key == SourceIssueKey(retry.sourceId, retry.issueId)
      ensures state.running == old(state.running) && state.draining == old(state.draining)
    {
      hide Sound, Inv, SourceIssueKey;
      ghost var s, c := View(), state.Claims();
      Reached();
      SoundTables(c, state.claimed, state.claimedIssueIds, state.claimedWorkspaceKeys);
      OwnKey(s, key);
      PutBackIsSame(c, key);
      retry := state.retryAttempts[key];
      state.retryAttempts := state.retryAttempts - {key};
      assert state.Claims() == WithoutRetry(c, key);
      state.ReleaseRetryClaim(retry);
    }

    /** Puts a retry just taken out back, with its claims. */
    method PutBack(retry: RetryEntry, ghost s: Svc)
      requires state.sources == sources && state.Valid() && !stopped && Inv(s)
      requires var key := SourceIssueKey(retry.sourceId, retry.issueId);
               key in s.retries && s.retries[key] == retry && View() == WithoutRetry(s, key)
      modifies state
      ensures state.Valid() && View() == s && state.draining == s.draining
    {
      hide Sound, Inv, Requeueable, SourceIssueKey;
      var key := SourceIssueKey(retry.sourceId, retry.issueId);
      PutBackIsSame(s, key);
      TakenIsRequeueable(state.Claims(), s, key, state.claimed, state.claimedIssueIds, state.claimedWorkspaceKeys);
      state.RequeueRetry(retry);
    }

    /** Decides and carries out the fate of the retry at `key`, if it is still there and due. */
    method RetryOne(config: Config, candidates: seq<Issue>, limit: nat, key: string, nowMs: nat, ghost answer: Answer)
      returns (ghost a: Option<Action>)
      requires Valid() && !stopped && !state.draining
      requires answer.config == config && answer.candidates == Some(candidates)
      requires key in state.retryAttempts ==>
                 state.retryAttempts[key].sourceId == config.sourceId && state.retryAttempts[key].dueAt <= nowMs
      modifies this`trace, state, workers
      ensures Valid() && old(trace) <= trace && !state.draining
      ensures a.None? ==> View() == old(View())
      ensures a.Some? ==> Enabled(old(View()), a.value) && View() == Apply(old(View()), a.value)
      ensures key !in old(state.retryAttempts) ==> a.None?
      ensures key in old(state.retryAttempts) ==>
                && CarriesOut(old(View()), config, key, RetryFate(old(View()), config, candidates, limit, key), a)
                && RightTurn(old(View()), config, candidates, limit, key, a)
      ensures trace == if a.None? then old(trace) else old(trace) + [Step(a.value, View())]
      ensures StepsGoBy(trace, old(|trace|), [answer])
    {
      hide Sound, IsTrace, Inv, Enabled, Apply, SourceIssueKey, Eligible, MayDispatch, RoomFor, FindIssue,
           SelectExecutionTarget, WithoutRetry, HostCount, RightTurn;
      ghost var s := View();
      Reached();
      if key in workers.tasks || key !in state.retryAttempts {
        NoTaskWaits(s, key);
        return None;
      }
      var retry := TakeRetry(key);
      var found := FindIssue(candidates, retry.issueId);
      if found.None? {
        DropApplies(s, key, candidates, nowMs);
        a := Some(DropRetry(key, config.sourceId, candidates, nowMs));
        Record(s, a.value);
        OneStepGoesBy(old(trace), trace, answer);
        RetryFateMeaning(s, config, candidates, limit, key, a);
        return;
      }
      EligibilityIsExact(found.value, state, config);
      EligibleSameTables(state.Claims(), View(), config, found.value);
      if |state.running| >= limit
        || DispatchIneligibleReasonForSource(config.sourceId, found.value, state, config).Some? {
        PutBack(retry, s);
        RetryFateMeaning(s, config, candidates, limit, key, None);
        return None;
      }
      var target := RetryTarget(workers.tasks, config, retry);
      if target.None? {
        PutBack(retry, s);
        RetryFateMeaning(s, config, candidates, limit, key, None);
        return None;
      }
      RetryMayDispatch(s, config, candidates, limit, key, nowMs);
      ghost var d := DispatchIssue(config, found.value, Some(retry.attempt), target.value, nowMs, s);
      OneStepGoesBy(old(trace), trace, answer);
      a := Some(d);
      RetryFateMeaning(s, config, candidates, limit, key, a);
    }

    /** Settles every retry of the source that is due. */
    method DispatchDueRetries(
        config: Config, candidates: seq<Issue>, limit: nat, nowMs: nat, ghost first: Svc, ghost configs: seq<Config>,
        ghost answer: Answer)
      requires Valid() && !stopped && !state.draining && config in configs
      requires answer.config == config && answer.candidates == Some(candidates)
      requires WithinLimits(first, View(), configs, limit)
      modifies this`trace, state, workers
      ensures Valid() && old(trace) <= trace && !state.draining
      ensures WithinLimits(first, View(), configs, limit)
      ensures SettledAt(old(View()), View(), old(state.DueRetryKeysForSource(config.sourceId, nowMs)), candidates)
      ensures AllHadTurns(sources, trace, old(|trace|), |trace|, config, candidates, limit,
                          old(state.DueRetryKeysForSource(config.sourceId, nowMs)))
      ensures StepsGoBy(trace, old(|trace|), [answer])
    {
      hide Sound, IsTrace, Inv, Enabled, Apply, WithinLimits, SettledAt, GoesByOne, CarriesOut, RetryFate,
           SourceIssueKey, RightTurn, AllHadTurns, Settled;
      ghost var s := View();
      var due := state.DueRetryKeysForSource(config.sourceId, nowMs);
      var left := due;
      SettledNowhere(s, candidates);
      NoTurnsYet(sources, trace, config, candidates, limit);
      assert due - left == {};
      while left != {}
        invariant Valid() && old(trace) <= trace && !state.draining
        invariant WithinLimits(first, View(), configs, limit)
        invariant left <= due && SettledAt(s, View(), due - left, candidates)
        invariant AllHadTurns(sources, trace, old(|trace|), |trace|, config, candidates, limit, due - left)
        invariant StepsGoBy(trace, old(|trace|), [answer])
        decreases |left|
      {
        var key :| key in left;
        ghost var t := View();
        StillWaits(s, t, due - left, candidates, key);
        Reached();
        ghost var before := trace;
        ghost var a := RetryOne(config, candidates, limit, key, nowMs, answer);
        StepsExtend(before, trace, old(|trace|), [answer]);
        RetryStep(s, t, due - left, config, candidates, limit, key, a, nowMs);
        OthersKept(t, config, candidates, limit, key, a, nowMs);
        OneMoreTurn(sources, old(|trace|), before, trace, config, candidates, limit, due - left, key, a);
        RetryWithinLimits(first, t, configs, config, candidates, limit, key, a, nowMs);
        assert due - (left - {key}) == due - left + {key};
        left := left - {key};
      }
      assert due - left == due;
    }

    // ---- A whole pass

    /** Offers the candidates of all sources by rank. */
    method DispatchByRank(runs: seq<SourceRun>, limit: nat, nowMs: nat)
      returns (ghost order: seq<Candidate>, ghost picks: seq<nat>)
      requires Valid() && !stopped && !state.draining && RunsFit(sources, runs)
      modifies this`trace, state, workers
      ensures Valid() && old(trace) <= trace && !state.draining
      ensures Ranked(order) && multiset(order) == multiset(CandidatesOf(runs)) && FromRuns(runs, order)
      ensures GreedyFrom(sources, trace, old(|trace|), runs, order, picks, limit)
      ensures |state.running| >= limit ||
              forall m :: 0 <= m < |order| ==> !CandidateDispatchable(View(), runs, order[m])
      ensures WithinLimits(old(View()), View(), ConfigsOf(runs), limit)
    {
      hide Sound, IsTrace, WithinLimits, GreedyFrom, SortByRank, CandidatesOf, CandidateDispatchable, Ranked;
      var candidates := CollectCandidates(runs);
      CandidatesOfRuns(runs);
      SortedFromRuns(runs, candidates);
      SortRanks(candidates);
      var ranked := SortByRank(candidates);
      CandidatesFit(sources, runs, ranked);
      order := ranked;
      picks := DispatchFresh(runs, ranked, limit, nowMs);
    }

    /** Settles the due retries of one source after another. */
    method DispatchRetries(
        runs: seq<SourceRun>, limit: nat, nowMs: nat, ghost first: Svc, ghost answers: seq<Answer>)
      returns (ghost log: RetryLog)
      requires Valid() && !stopped && !state.draining && RunsAnswered(runs, answers)
      requires WithinLimits(first, View(), ConfigsOf(runs), limit)
      modifies this`trace, state, workers
      ensures Valid() && old(trace) <= trace && !state.draining
      ensures WithinLimits(first, View(), ConfigsOf(runs), limit)
      ensures SettledBy(log, old(View()), View(), runs) && TurnsBy(log, sources, trace, runs, limit)
      ensures StepsGoBy(trace, old(|trace|), answers)
    {
      hide Sound, IsTrace, WithinLimits, SettledAt, GoesByOne, AllHadTurns;
      log := RetryLog([View()], [], [|trace|]);
      for i := 0 to |runs|
        invariant Valid() && old(trace) <= trace && !state.draining
        invariant WithinLimits(first, View(), ConfigsOf(runs), limit)
        invariant SettledBy(log, old(View()), View(), runs[..i])
        invariant TurnsBy(log, sources, trace, runs[..i], limit) && log.ends[i] == |trace|
        invariant StepsGoBy(trace, old(|trace|), answers)
      {
        ghost var s := View();
        var now: nat :| now >= nowMs;
        assert ConfigsOf(runs)[i] == runs[i].config;
        DueOf(s, state, runs[i].config, now);
        assert RunAnswered(runs[i], answers);
        ghost var k :| 0 <= k < |answers| && answers[k].config == runs[i].config
                       && answers[k].candidates == Some(runs[i].candidates);
        ghost var before := trace;
        DispatchDueRetries(runs[i].config, runs[i].candidates, limit, now, first, ConfigsOf(runs), answers[k]);
        StepsGoByMore(trace, |before|, answers[k], answers);
        StepsExtend(before, trace, old(|trace|), answers);
        ghost var longer := RetryLog(log.views + [View()], log.nowMs + [now], log.ends + [|trace|]);
        SettledExtends(log, longer, old(View()), runs, i);
        TurnsExtend(log, longer, sources, before, trace, runs, i, limit);
        log := longer;
      }
      assert runs[..|runs|] == runs;
    }

    /** One dispatch pass, unless the service drains: first fresh candidates, then retries. */
    method DispatchRuns(runs: seq<SourceRun>, draining: bool, nowMs: nat, ghost answers: seq<Answer>)
      returns (ghost log: PassLog)
      requires Valid() && !stopped && draining == state.draining && RunsFit(sources, runs)
      requires RunsAnswered(runs, answers)
      modifies this`trace, state, workers
      ensures Valid() && old(trace) <= trace && state.draining == draining
      ensures if draining then trace == old(trace) && View() == old(View())
              else PassBy(log, sources, old(trace), trace, runs)
      ensures StepsGoBy(trace, old(|trace|), answers)
      ensures WithinLimits(old(View()), View(), ConfigsOf(runs), GlobalLimit(runs))
    {
      hide Sound, IsTrace, WithinLimits, GreedyFrom, CandidatesOf, CandidateDispatchable, Ranked, GlobalLimit,
           SettledBy, TurnsBy, NoInversion;
      ghost var s := View();
      WithinLimitsAtFirst(s, ConfigsOf(runs), GlobalLimit(runs));
      log := PassLog([], [], trace, RetryLog([], [], []));
      if draining {
        return;
      }
      ghost var order, picks := DispatchByRank(runs, GlobalLimit(runs), nowMs);
      ghost var offered := trace;
      GreedyHasNoInversion(sources, offered, old(|trace|), runs, order, picks, GlobalLimit(runs));
      PicksGoBy(sources, offered, old(|trace|), runs, order, picks, GlobalLimit(runs), answers);
      ghost var settled := DispatchRetries(runs, GlobalLimit(runs), nowMs, s, answers);
      StepsExtend(offered, trace, old(|trace|), answers);
      log := PassLog(order, picks, offered, settled);
    }

    static method CollectCandidates(runs: seq<SourceRun>) returns (candidates: seq<Candidate>)
      ensures candidates == CandidatesOf(runs)
    {
      candidates := [];
      for i := 0 to |runs|
        invariant candidates == CandidatesOf(runs[..i])
      {
        ghost var before := candidates;
        for j := 0 to |runs[i].candidates|
          invariant candidates == before + Labelled(i, runs[i])[..j]
        {
          candidates := candidates + [Candidate(i, runs[i].config.sourceId, runs[i].candidates[j])];
          assert Labelled(i, runs[i])[..j + 1] == Labelled(i, runs[i])[..j] + [Labelled(i, runs[i])[j]];
        }
        assert runs[..i + 1][..i] == runs[..i];
      }
      assert runs[..|runs|] == runs;
    }

    // ---- The loop

    /** Before the trackers are asked: ends stalled workers and notes which issues to ask about. */
    method PlanPolls(polls: seq<Poll>) returns (ids: seq<set<string>>, ghost log: PlanLog)
      requires Valid() && !stopped
      modifies this`trace, state, workers
      ensures Valid() && old(trace) <= trace && state.draining == old(state.draining)
      ensures PlannedBy(log, old(View()), View(), polls, ids)
      ensures StepsGoBy(trace, old(|trace|), AnswersOf(polls))
    {
      hide Sound, IsTrace, Inv, EndedAt, StalledKeys, GoesByOne, OrchestratorState.RunningIssueIdsForSource, RunningIds;
      ids := [];
      log := PlanLog([View()], [], []);
      for i := 0 to |polls|
        invariant Valid() && old(trace) <= trace && state.draining == old(state.draining)
        invariant PlannedBy(log, old(View()), View(), polls[..i], ids)
        invariant StepsGoBy(trace, old(|trace|), AnswersOf(polls))
      {
        ghost var s := View();
        var nowUtc: int := *;
        var nowMs: nat := *;
        ghost var before := trace;
        assert AnswersOf(polls)[i] == AnswerOf(polls[i]);
        ReconcileStalled(polls[i].config, nowUtc, nowMs, AnswerOf(polls[i]));
        StepsGoByMore(trace, |before|, AnswerOf(polls[i]), AnswersOf(polls));
        StepsExtend(before, trace, old(|trace|), AnswersOf(polls));
        Reached();
        RunningIdsFit(View(), state, polls[i].config.sourceId);
        ids := ids + [state.RunningIssueIdsForSource(polls[i].config.sourceId)];
        ghost var longer := PlanLog(log.views + [View()], log.nowUtc + [nowUtc], log.nowMs + [nowMs]);
        PlanExtends(log, longer, old(View()), polls, i, ids);
        log := longer;
      }
      assert polls[..|polls|] == polls;
    }

    /** Carries out one tracker's answer. */
    method ApplyPoll(poll: Poll, ids: set<string>, nowMs: nat) returns (ghost mid: Svc)
      requires Valid() && !stopped && forall id :: id in ids ==> ':' !in id
      modifies this`trace, state, workers
      ensures Valid() && old(trace) <= trace && state.draining == old(state.draining)
      ensures PollApplied(old(View()), mid, View(), poll, ids, nowMs)
      ensures StepsGoBy(trace, old(|trace|), [AnswerOf(poll)])
    {
      hide Sound, IsTrace, JudgedAt, Polled, PostponedAt, StepsGoBy;
      StepsHaveNotBegun(trace, [AnswerOf(poll)]);
      mid := View();
      if !poll.answered {
        return;
      }
      if poll.refreshed.Ok? {
        ReconcileTrackerStates(poll.config, ids, poll.refreshed.value, AnswerOf(poll));
      }
      mid := View();
      ghost var reconciled := trace;
      if poll.candidates.Some? && poll.candidates.value.Err? {
        DueOf(mid, state, poll.config, nowMs);
        RescheduleDueRetriesAfterFetchError(poll.config, nowMs, AnswerOf(poll));
        StepsExtend(reconciled, trace, old(|trace|), [AnswerOf(poll)]);
      }
    }

    /** Carries out what the trackers answered, and collects the candidates to dispatch. */
    method ApplyPolls(polls: seq<Poll>, ids: seq<set<string>>) returns (runs: seq<SourceRun>, ghost log: PollLog)
      requires Valid() && !stopped && PollsFit(sources, polls)
      requires |ids| == |polls| && forall i :: 0 <= i < |ids| ==> forall id :: id in ids[i] ==> ':' !in id
      modifies this`trace, state, workers
      ensures Valid() && old(trace) <= trace && state.draining == old(state.draining)
      ensures runs == RunsOf(polls) && RunsFit(sources, runs) && exists positions :: RunsAt(polls, positions, runs)
      ensures AppliedBy(log, old(View()), View(), polls, ids)
      ensures StepsGoBy(trace, old(|trace|), AnswersOf(polls))
    {
      hide Sound, IsTrace, PollApplied, GoesByOne, RunsOf, RunsFit, IdsFit;
      NoRuns(sources);
      runs := [];
      log := PollLog([View()], [], []);
      for i := 0 to |polls|
        invariant Valid() && old(trace) <= trace && state.draining == old(state.draining)
        invariant runs == RunsOf(polls[..i]) && RunsFit(sources, runs)
        invariant AppliedBy(log, old(View()), View(), polls[..i], ids[..i])
        invariant StepsGoBy(trace, old(|trace|), AnswersOf(polls))
      {
        var nowMs: nat := *;
        ghost var before := trace;
        assert AnswersOf(polls)[i] == AnswerOf(polls[i]);
        ghost var mid := ApplyPoll(polls[i], ids[i], nowMs);
        StepsGoByMore(trace, |before|, AnswerOf(polls[i]), AnswersOf(polls));
        StepsExtend(before, trace, old(|trace|), AnswersOf(polls));
        RunsOfNext(polls, i);
        RunsFitNext(sources, polls, i);
        if polls[i].answered && polls[i].candidates.Some? && polls[i].candidates.value.Ok? {
          runs := runs + [SourceRun(polls[i].config, polls[i].candidates.value.value)];
        }
        ghost var longer := PollLog(log.views + [View()], log.mids + [mid], log.nowMs + [nowMs]);
        AppliedExtends(log, longer, old(View()), polls, i, ids);
        log := longer;
      }
      assert polls[..|polls|] == polls && ids[..|polls|] == ids;
      ghost var positions := RunsOfMeaning(polls);
    }

    /** One tick: end stalled workers, ask every tracker, carry out the answers, dispatch. */
    method Tick(polls: seq<Poll>, nowMs: nat) returns (ghost log: TickLog)
      requires Valid() && !stopped && PollsFit(sources, polls)
      modifies this`trace, state, workers
      ensures Valid() && old(trace) <= trace && state.draining == old(state.draining)
      ensures TickBy(log, sources, old(trace), trace, polls)
    {
      hide Sound, IsTrace, WithinLimits, GlobalLimit, PlannedBy, AppliedBy, PassBy, StepsGoBy, RunsAnswered;
      var draining := state.draining;
      var ids, plan := PlanPolls(polls);
      PlannedIdsFit(plan, old(View()), View(), polls, ids);
      ghost var planned := trace;
      var runs, answers := ApplyPolls(polls, ids);
      ghost var polled := trace;
      RunsOfAnswers(polls);
      ghost var pass := DispatchRuns(runs, draining, nowMs, AnswersOf(polls));
      StepsExtend(planned, polled, old(|trace|), AnswersOf(polls));
      StepsExtend(polled, trace, old(|trace|), AnswersOf(polls));
      log := TickLog(ids, plan, planned, answers, polled, pass);
    }

    method ApplyMessage(configs: seq<Config>, message: Message, nowMs: nat)
      requires Valid() && !stopped && ConfigsFit(sources, configs)
      modifies this`trace, state, workers
      ensures Valid() && old(trace) <= trace
      ensures var a := MessageAction(old(View()), configs, message, nowMs);
              (a.Some? ==> Enabled(old(View()), a.value)) && View() == AfterAny(old(View()), a)
      ensures MessageBy(sources, old(trace), trace, configs, message, nowMs)
      ensures !message.ControlMessage? ==> state.draining == old(state.draining)
    {
      hide Sound, IsTrace, Apply, Inv, ConfigsFit, ControlAction, OutcomeAction;
      match message
      case EventMessage(key, generation, event) =>
        ApplyWorkerEvent(key, generation, event);
      case OutcomeMessage(key, generation, reason, terminal) =>
        ApplyWorkerOutcome(configs, key, generation, reason, terminal, nowMs);
      case ControlMessage(control) =>
        var _ := ApplyServiceControl(configs, control, nowMs);
      case Wake =>
    }

    /**
      After a shutdown request the service drains: it takes messages of workers until none is left running or time is
      up, then ends the rest. No task survives.
    */
    method GracefulShutdown(configs: seq<Config>, inbox: seq<Message>) returns (ghost log: ShutdownLog)
      requires Valid() && !stopped && ConfigsFit(sources, configs)
      requires forall i :: 0 <= i < |inbox| ==> inbox[i].EventMessage? || inbox[i].OutcomeMessage?
      modifies this`trace, this`stopped, state, workers
      ensures Valid() && old(trace) <= trace && workers.tasks == map[] && state.draining
      ensures ShutdownBy(log, sources, old(trace), trace, configs, inbox)
      ensures !stopped ==> state.running == map[]
    {
      hide Sound, IsTrace, ConfigsFit, MessageBy;
      SetDraining(true);
      var n := 0;
      log := ShutdownLog(0, [trace], []);
      while workers.tasks != map[] && n < |inbox|
        invariant Valid() && !stopped && old(trace) <= trace && state.draining && n <= |inbox|
        invariant log.taken == n && MessagesBy(log.traces, log.clocks, sources, configs, inbox[..n])
        invariant log.traces[n] == trace
        invariant log.traces[0] == old(trace) + [Step(Action.SetDraining(true), old(View()).(draining := true))]
        decreases |inbox| - n
      {
        var now: nat := *;
        ApplyMessage(configs, inbox[n], now);
        MessagesExtend(log.traces, log.clocks, sources, configs, inbox, n, now, trace);
        log := ShutdownLog(n + 1, log.traces + [trace], log.clocks + [now]);
        n := n + 1;
      }
      if workers.tasks != map[] {
        ShutdownWorkers();
      }
      Reached();
    }

    method ShutdownWorkers()
      requires Valid() && !stopped
      modifies this`trace, this`stopped, workers
      ensures Valid() && stopped && workers.tasks == map[]
      ensures trace == old(trace) + [Step(Kill, View())] && View() == old(View()).(tasks := map[], stopped := true)
    {
      hide Sound, IsTrace;
      ghost var s := View();
      workers.tasks := map[];
      stopped := true;
      Record(s, Kill);
    }

    /** The service from start to shutdown: a tick, then one message, over and over. */
    method RunUntilShutdown(rounds: seq<Round>, configs: seq<Config>, inbox: seq<Message>)
      returns (ghost logs: seq<RoundLog>, ghost traces: seq<Trace>, ghost shutdown: ShutdownLog)
      requires Valid() && !stopped && ConfigsFit(sources, configs)
      requires forall i :: 0 <= i < |rounds| ==>
                 PollsFit(sources, rounds[i].polls) && ConfigsFit(sources, rounds[i].configs)
      requires forall i :: 0 <= i < |inbox| ==> inbox[i].EventMessage? || inbox[i].OutcomeMessage?
      modifies this`trace, this`stopped, state, workers
      ensures Valid() && old(trace) <= trace && workers.tasks == map[]
      ensures RoundsBy(logs, traces, sources, rounds) && traces[0] == old(trace)
      ensures ShutdownBy(shutdown, sources, traces[|rounds|], trace, configs, inbox)
    {
      hide Sound, IsTrace, ConfigsFit, PollsFit, TickBy, MessageBy, ShutdownBy;
      logs, traces := [], [trace];
      for i := 0 to |rounds|
        invariant Valid() && !stopped && old(trace) <= trace
        invariant RoundsBy(logs, traces, sources, rounds[..i]) && traces[0] == old(trace) && traces[i] == trace
      {
        var now: nat := *;
        ghost var tick := Tick(rounds[i].polls, now);
        ghost var ticked := trace;
        now := *;
        ApplyMessage(rounds[i].configs, rounds[i].message, now);
        ghost var log := RoundLog(tick, ticked, now);
        RoundsExtend(logs, traces, sources, rounds, i, log, trace);
        logs, traces := logs + [log], traces + [trace];
      }
      assert rounds[..|rounds|] == rounds;
      shutdown := GracefulShutdown(configs, inbox);
    }
  }
}
