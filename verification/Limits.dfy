/** Capacity over whole runs, not only over one pass. */
module Limits {
  import opened Prelude
  import opened Names
  import opened Domain
  import opened Model
  import opened Capacity
  import opened Runs

  /** A dispatch finds room under the limits of its own configuration: for the service, the state and the host. */
  lemma DispatchFindsRoom(s: Svc, a: Action)
    requires a.Dispatch? && Enabled(s, a)
    ensures RoomFor(s, a.config, a.config.maxConcurrentAgents, a.issue, a.target)
    ensures a.attempt.None? && a.config.sshHosts != [] ==> a.target.Ssh?
  {
    hide Apply, SourceIssueKey, SourceWorkspaceKey, StateCount, StateLimit, Blocked, HostCount, Unclaimed,
         SelectExecutionTarget, Config.IsActiveState, Config.IsTerminalState;
    SelectedTargetHasRoom(s.tasks, a.config);
  }

  lemma OthersOnlyRemove(s: Svc, a: Action)
    requires Inv(s) && Enabled(s, a) && !Issues(Step(a, s))
    ensures Apply(s, a).running.Keys <= s.running.Keys
    ensures forall k :: k in Apply(s, a).tasks ==> k in s.tasks && Apply(s, a).tasks[k] == s.tasks[k]
  {
    hide Inv, Enabled, Apply;
    TasksAfter(s, a);
    RunningShrinks(s, a);
  }

  lemma RunningShrinks(s: Svc, a: Action)
    requires Enabled(s, a) && !Issues(Step(a, s))
    ensures Apply(s, a).running.Keys <= s.running.Keys
  {
    hide Unclaimed, Eligible, RetryTarget, SelectExecutionTarget, SourceIssueKey, RetryAfterExit, ClaimedEntry,
         SessionAfter, TotalsAfter, PushEvent, FindIssue, Config.MayGoOn, IsStalled, Summary, PostponedRetry;
  }

  /** Every configuration workers were started under allowed at most so many workers, and so many on one host. */
  predicate StartedUnder(trace: Trace, agents: nat, perHost: nat) {
    forall i :: 0 <= i < |trace| && Issues(trace[i]) ==>
      && trace[i].action.config.maxConcurrentAgents <= agents
      && trace[i].action.config.maxConcurrentAgentsPerHost <= perHost
  }

  lemma StepUnderLimits(s: Svc, a: Action, agents: nat, perHost: nat, host: string)
    requires Inv(s) && Enabled(s, a) && |s.running| <= agents && HostCount(s.tasks, host) <= perHost
    requires Issues(Step(a, s)) ==>
               a.config.maxConcurrentAgents <= agents && a.config.maxConcurrentAgentsPerHost <= perHost
    ensures |Apply(s, a).running| <= agents && HostCount(Apply(s, a).tasks, host) <= perHost
  {
    hide Inv, Enabled, Apply, StateCount, StateLimit;
    var t := Apply(s, a);
    if Issues(Step(a, s)) {
      hide HostCount;
      DispatchFindsRoom(s, a);
      DispatchCounts(s, a, "", host);
      if OnHost(WorkerTask(0, a.target), host) {
        SameHost(s.tasks, host, a.target.host);
      }
    } else {
      OthersOnlyRemove(s, a);
      SubsetSize(t.running.Keys, s.running.Keys);
      SubsetSize(KeysOnHost(t.tasks, host), KeysOnHost(s.tasks, host));
    }
  }

  /**
    In no state of any run do more workers run, or more on any one host, than the largest limit in force when any of
    them was started: retries, stale messages and operator commands included.
  */
  lemma {:induction false} NeverOverLimits(
      sources: set<string>, trace: Trace, n: nat, agents: nat, perHost: nat, host: string)
    requires IsTrace(sources, trace) && n <= |trace| && StartedUnder(trace, agents, perHost)
    ensures |StateAt(sources, trace, n).running| <= agents
    ensures HostCount(StateAt(sources, trace, n).tasks, host) <= perHost
  {
    hide Inv, Enabled, Apply, IsTrace, HostCount, Issues;
    if n == 0 {
      NothingOnHost(host);
    } else {
      NeverOverLimits(sources, trace, n - 1, agents, perHost, host);
      ReachableInv(sources, trace, n - 1);
      StepOf(sources, trace, n - 1);
      IssuesByAction(trace[n - 1], StateAt(sources, trace, n - 1));
      StepUnderLimits(StateAt(sources, trace, n - 1), trace[n - 1].action, agents, perHost, host);
    }
  }

  lemma IssuesByAction(step: Step, s: Svc)
    ensures Issues(Step(step.action, s)) <==> Issues(step)
    ensures Issues(step) ==> step.action.Dispatch?
  {
  }

  lemma NothingOnHost(host: string)
    ensures HostCount(map[], host) == 0
  {
    assert KeysOnHost(map[], host) == {};
  }
}
