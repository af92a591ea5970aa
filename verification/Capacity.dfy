/** Who may be dispatched, where, and how many at a time. */
module Capacity {
  import opened Prelude
  import opened Names
  import opened Domain
  import opened Model

  // ---- Counting

  lemma SubsetSize<T>(a: set<T>, b: set<T>)
    requires a <= b
    ensures |a| <= |b|
  {
    assert b == a + (b - a);
  }

  lemma NothingCounted(state: string)
    ensures StateCount(map[], state) == 0
  {
    assert KeysInState(map[], state) == {};
  }

  /** A new entry counts in its own state only. */
  lemma StateCountAdds(running: map<string, RunningEntry>, key: string, e: RunningEntry, state: string)
    requires key !in running
    ensures StateCount(running[key := e], state) ==
            StateCount(running, state) + if AsciiLower(e.issue.state) == state then 1 else 0
  {
    var before := KeysInState(running, state);
    assert KeysInState(running[key := e], state) ==
           if AsciiLower(e.issue.state) == state then before + {key} else before;
  }

  lemma HostCountAdds(tasks: map<string, WorkerTask>, key: string, task: WorkerTask, host: string)
    requires key !in tasks
    ensures HostCount(tasks[key := task], host) == HostCount(tasks, host) + if OnHost(task, host) then 1 else 0
  {
    var before := KeysOnHost(tasks, host);
    assert KeysOnHost(tasks[key := task], host) == if OnHost(task, host) then before + {key} else before;
  }

  // ---- Placing a worker

  /** The first configured host with room; none only if every host is full; never the local machine beside hosts. */
  lemma {:induction false} FirstFreeHostMeaning(tasks: map<string, WorkerTask>, hosts: seq<string>, limit: nat)
    ensures FirstFreeHost(tasks, hosts, limit).None? <==>
            forall i :: 0 <= i < |hosts| ==> HostCount(tasks, hosts[i]) >= limit
    ensures FirstFreeHost(tasks, hosts, limit).Some? ==>
              exists i :: 0 <= i < |hosts| && FirstFreeHost(tasks, hosts, limit) == Some(Ssh(hosts[i]))
                          && HostCount(tasks, hosts[i]) < limit
                          && forall j :: 0 <= j < i ==> HostCount(tasks, hosts[j]) >= limit
  {
    if hosts != [] && HostCount(tasks, hosts[0]) >= limit {
      FirstFreeHostMeaning(tasks, hosts[1..], limit);
      if FirstFreeHost(tasks, hosts, limit).Some? {
        var i :| 0 <= i < |hosts[1..]| && FirstFreeHost(tasks, hosts, limit) == Some(Ssh(hosts[1..][i]))
                 && HostCount(tasks, hosts[1..][i]) < limit
                 && forall j :: 0 <= j < i ==> HostCount(tasks, hosts[1..][j]) >= limit;
        assert hosts[1..][i] == hosts[i + 1];
        assert forall j :: 1 <= j < i + 1 ==> hosts[1..][j - 1] == hosts[j];
      }
      assert forall j :: 1 <= j < |hosts| ==> hosts[1..][j - 1] == hosts[j];
    }
  }

  /** A selected target has room, and is remote whenever hosts are configured. */
  lemma SelectedTargetHasRoom(tasks: map<string, WorkerTask>, config: Config)
    ensures var target := SelectExecutionTarget(tasks, config);
            && (target == Some(Local) <==> config.sshHosts == [])
            && (target.Some? && target.value.Ssh? ==>
                  && target.value.host in config.sshHosts
                  && HostCount(tasks, target.value.host) < config.maxConcurrentAgentsPerHost)
  {
    if config.sshHosts != [] {
      FirstFreeHostMeaning(tasks, config.sshHosts, config.maxConcurrentAgentsPerHost);
    }
  }

  // ---- Eligibility

  /** It may be worked on and there is a machine for it. */
  predicate Dispatchable(s: Svc, config: Config, issue: Issue) {
    Eligible(s, config, issue) && SelectExecutionTarget(s.tasks, config).Some?
  }

  // ---- What a dispatch does to other candidates

  /** `t` has every claim, running entry and task of `s`, and perhaps more. */
  predicate Fuller(s: Svc, t: Svc) {
    && Live(s) <= Live(t) && s.leaked <= t.leaked
    && (forall k :: k in Live(s) ==> OwnerOf(t, k) == OwnerOf(s, k))
    && (forall k :: k in s.running ==> k in t.running && t.running[k].issue == s.running[k].issue)
    && (forall k :: k in s.tasks ==> k in t.tasks && t.tasks[k] == s.tasks[k])
  }

  lemma FullerCounts(s: Svc, t: Svc, state: string, host: string)
    requires Fuller(s, t)
    ensures |s.running| <= |t.running|
    ensures StateCount(s.running, state) <= StateCount(t.running, state)
    ensures HostCount(s.tasks, host) <= HostCount(t.tasks, host)
  {
    SubsetSize(s.running.Keys, t.running.Keys);
    SubsetSize(KeysInState(s.running, state), KeysInState(t.running, state));
    SubsetSize(KeysOnHost(s.tasks, host), KeysOnHost(t.tasks, host));
  }

  lemma FullerUnclaimed(s: Svc, t: Svc, sourceId: string, issue: Issue)
    requires Fuller(s, t) && Unclaimed(t, sourceId, issue)
    ensures Unclaimed(s, sourceId, issue)
  {
    forall k | k in Live(s)
      ensures Apart(OwnerOf(s, k), ClaimOf(sourceId, issue))
    {
      assert OwnerOf(t, k) == OwnerOf(s, k);
    }
  }

  /** A candidate that cannot be dispatched does not become dispatchable because others are. */
  lemma StaysBlocked(s: Svc, t: Svc, config: Config, issue: Issue)
    requires Fuller(s, t) && Dispatchable(t, config, issue)
    ensures Dispatchable(s, config, issue)
  {
    FullerUnclaimed(s, t, config.sourceId, issue);
    FullerCounts(s, t, AsciiLower(issue.state), "");
    if config.sshHosts != [] {
      FirstFreeHostMeaning(s.tasks, config.sshHosts, config.maxConcurrentAgentsPerHost);
      FirstFreeHostMeaning(t.tasks, config.sshHosts, config.maxConcurrentAgentsPerHost);
      forall i | 0 <= i < |config.sshHosts|
        ensures HostCount(s.tasks, config.sshHosts[i]) <= HostCount(t.tasks, config.sshHosts[i])
      {
        FullerCounts(s, t, "", config.sshHosts[i]);
      }
    }
  }

  lemma StartedFuller(s: Svc, key: string, e: RunningEntry)
    requires key !in Live(s) && key !in s.tasks
    ensures Fuller(s, Started(s, key, e)) && key in Live(Started(s, key, e))
  {
    StartedOwners(s, key, e);
  }

  lemma WaitingFuller(s: Svc, key: string, r: RetryEntry)
    requires key !in Live(s)
    ensures Fuller(s, Waiting(s, key, r)) && key in Live(Waiting(s, key, r))
  {
    WaitingOwners(s, key, r);
  }

  /** A fresh dispatch only adds, and claims its issue. */
  lemma FreshDispatchAdds(s: Svc, a: Action)
    requires Inv(s) && a.Dispatch? && a.attempt.None? && Enabled(s, a)
    ensures Fuller(s, Apply(s, a))
    ensures SourceIssueKey(a.config.sourceId, a.issue.id) in Live(Apply(s, a))
  {
    hide Enabled, Apply, Inv, SourceIssueKey, SourceWorkspaceKey, Fuller, Live, EntryOf, FailedSetupRetry;
    var key := SourceIssueKey(a.config.sourceId, a.issue.id);
    DispatchShape(s, a);
    if a.setup.Ready? {
      StartedFuller(s, key, EntryOf(s, a));
    } else {
      WaitingFuller(s, key, FailedSetupRetry(a));
    }
  }

  lemma StartedCounts(s: Svc, key: string, e: RunningEntry, state: string, host: string)
    requires key !in s.running && key !in s.tasks
    ensures var t := Started(s, key, e);
            && |t.running| == |s.running| + 1
            && StateCount(t.running, state) ==
               StateCount(s.running, state) + (if AsciiLower(e.issue.state) == state then 1 else 0)
            && HostCount(t.tasks, host) ==
               HostCount(s.tasks, host) + (if OnHost(WorkerTask(e.generation, e.target), host) then 1 else 0)
  {
    StateCountAdds(s.running, key, e, state);
    HostCountAdds(s.tasks, key, WorkerTask(e.generation, e.target), host);
  }

  /** A dispatch raises no count but the one of its state and of its host, each by at most one. */
  lemma DispatchCounts(s: Svc, a: Action, state: string, host: string)
    requires Inv(s) && a.Dispatch? && Enabled(s, a)
    ensures var t := Apply(s, a);
            && |t.running| == |s.running| + (if a.setup.Ready? then 1 else 0)
            && StateCount(t.running, state) ==
               StateCount(s.running, state) + (if a.setup.Ready? && AsciiLower(a.issue.state) == state then 1 else 0)
            && HostCount(t.tasks, host) ==
               HostCount(s.tasks, host) + (if a.setup.Ready? && OnHost(WorkerTask(0, a.target), host) then 1 else 0)
  {
    hide Enabled, Apply, Inv, SourceIssueKey, SourceWorkspaceKey, StateCount, HostCount, Started;
    var key := SourceIssueKey(a.config.sourceId, a.issue.id);
    DispatchShape(s, a);
    if a.setup.Ready? {
      StartedCounts(WithoutRetry(s, key), key, EntryOf(s, a), state, host);
    }
  }

  // ---- Limits over a whole pass

  /** At most as many as before, or as many as one of the limits allows. */
  ghost predicate NoMoreThan(count: nat, before: nat, limits: seq<nat>) {
    count <= before || exists i :: 0 <= i < |limits| && count <= limits[i]
  }

  function StateLimits(configs: seq<Config>, state: string): seq<nat> {
    seq(|configs|, i requires 0 <= i < |configs| => StateLimit(configs[i], state))
  }

  function HostLimits(configs: seq<Config>): seq<nat> {
    seq(|configs|, i requires 0 <= i < |configs| => configs[i].maxConcurrentAgentsPerHost)
  }

  /**
    From `s` to `t` the running issues, those in any one state and those on any one host have become no more than
    there were or than the limits in force allow.
  */
  ghost predicate WithinLimits(s: Svc, t: Svc, configs: seq<Config>, limit: nat) {
    && NoMoreThan(|t.running|, |s.running|, [limit])
    && (forall state :: NoMoreThan(StateCount(t.running, state), StateCount(s.running, state),
                                   StateLimits(configs, state)))
    && (forall host :: NoMoreThan(HostCount(t.tasks, host), HostCount(s.tasks, host), HostLimits(configs)))
  }

  /** There is room under the limits of `config` and of the whole pass. */
  predicate RoomFor(s: Svc, config: Config, limit: nat, issue: Issue, target: ExecutionTarget) {
    && |s.running| < limit
    && StateCount(s.running, AsciiLower(issue.state)) < StateLimit(config, AsciiLower(issue.state))
    && (target.Ssh? ==> HostCount(s.tasks, target.host) < config.maxConcurrentAgentsPerHost)
  }

  /** A host is the same host whatever the case its name is written in. */
  lemma SameHost(tasks: map<string, WorkerTask>, a: string, b: string)
    requires AsciiLower(a) == AsciiLower(b)
    ensures HostCount(tasks, a) == HostCount(tasks, b)
  {
    assert KeysOnHost(tasks, a) == KeysOnHost(tasks, b);
  }

  lemma WithinLimitsAtFirst(s: Svc, configs: seq<Config>, limit: nat)
    ensures WithinLimits(s, s, configs, limit)
  {
  }

  /** Only dispatches for which there is room: the limits hold at the end of the pass. */
  lemma DispatchWithinLimits(s: Svc, t: Svc, a: Action, configs: seq<Config>, i: nat, limit: nat)
    requires Inv(t) && a.Dispatch? && Enabled(t, a) && i < |configs|
    requires WithinLimits(s, t, configs, limit) && RoomFor(t, configs[i], limit, a.issue, a.target)
    ensures WithinLimits(s, Apply(t, a), configs, limit)
  {
    hide Enabled, Apply, Inv, StateCount, HostCount, StateLimit;
    var u := Apply(t, a);
    DispatchCounts(t, a, "", "");
    assert |u.running| <= [limit][0];
    forall state
      ensures NoMoreThan(StateCount(u.running, state), StateCount(s.running, state), StateLimits(configs, state))
    {
      DispatchCounts(t, a, state, "");
      if state == AsciiLower(a.issue.state) {
        assert StateCount(u.running, state) <= StateLimits(configs, state)[i];
      }
      assert NoMoreThan(StateCount(t.running, state), StateCount(s.running, state), StateLimits(configs, state));
    }
    forall host
      ensures NoMoreThan(HostCount(u.tasks, host), HostCount(s.tasks, host), HostLimits(configs))
    {
      DispatchCounts(t, a, "", host);
      if OnHost(WorkerTask(0, a.target), host) {
        SameHost(t.tasks, host, a.target.host);
        assert HostCount(u.tasks, host) <= HostLimits(configs)[i];
      }
      assert NoMoreThan(HostCount(t.tasks, host), HostCount(s.tasks, host), HostLimits(configs));
    }
  }

  // ---- Eligibility in plain terms

  /** The running issues whose state has this name, whatever the case it is written in. */
  function RunningInState(s: Svc, state: string): set<string> {
    set k | k in s.running && SameLetters(s.running[k].issue.state, state)
  }

  lemma StateCountMeaning(s: Svc, state: string)
    ensures StateCount(s.running, AsciiLower(state)) == |RunningInState(s, state)|
  {
    forall k | k in s.running
      ensures AsciiLower(s.running[k].issue.state) == AsciiLower(state) <==>
                SameLetters(s.running[k].issue.state, state)
    {
      LowerCaseMeaning(s.running[k].issue.state, state);
    }
    assert KeysInState(s.running, AsciiLower(state)) == RunningInState(s, state);
  }

  lemma HostCountMeaning(tasks: map<string, WorkerTask>, host: string)
    ensures HostCount(tasks, host) ==
            |set k | k in tasks && tasks[k].target.Ssh? && SameLetters(tasks[k].target.host, host)|
  {
    forall k | k in tasks && tasks[k].target.Ssh?
      ensures OnHost(tasks[k], host) <==> SameLetters(tasks[k].target.host, host)
    {
      LowerCaseMeaning(tasks[k].target.host, host);
    }
    assert KeysOnHost(tasks, host) ==
           set k | k in tasks && tasks[k].target.Ssh? && SameLetters(tasks[k].target.host, host);
  }

  /** The blocker is open: its state is unknown or not terminal. */
  predicate IsOpen(blocker: Option<string>, config: Config) {
    blocker.None? || !OneOf(config.terminalStates, blocker.value)
  }

  lemma BlockedMeaning(issue: Issue, config: Config)
    ensures Blocked(issue, config) <==>
            && SameLetters(issue.state, "todo")
            && exists i :: 0 <= i < |issue.blockers| && IsOpen(issue.blockers[i], config)
  {
    hide OneOf;
    LowerCaseMeaning(issue.state, "todo");
    assert AsciiLower("todo") == "todo";
    forall i | 0 <= i < |issue.blockers| && issue.blockers[i].Some?
      ensures config.IsTerminalState(issue.blockers[i].value) <==> OneOf(config.terminalStates, issue.blockers[i].value)
    {
      StatesMeaning(config, issue.blockers[i].value);
    }
  }

  /**
    What eligibility demands, one by one: a complete issue in an active and not terminal state; no live issue and no
    leaked id with its key, its tracker id or its workspace; room among all workers and among those in its state, whose
    limit is set for its lower-case name or is that of the source; and no open blocker if it is still to do.
  */
  lemma EligibleMeaning(s: Svc, config: Config, issue: Issue)
    ensures Eligible(s, config, issue) <==>
            && issue.id != "" && issue.identifier != "" && issue.title != "" && issue.state != ""
            && OneOf(config.activeStates, issue.state) && !OneOf(config.terminalStates, issue.state)
            && SourceIssueKey(config.sourceId, issue.id) !in s.running.Keys + s.retries.Keys && issue.id !in s.leaked
            && (forall k :: k in s.running ==>
                  && s.running[k].issue.id != issue.id
                  && s.running[k].workspaceKey != SourceWorkspaceKey(config.sourceId, issue.identifier))
            && (forall k :: k in s.retries && k !in s.running ==>
                  && s.retries[k].issueId != issue.id
                  && s.retries[k].workspaceKey != SourceWorkspaceKey(config.sourceId, issue.identifier))
            && |s.running| < config.maxConcurrentAgents
            && (var limits, name := config.maxConcurrentAgentsByState, AsciiLower(issue.state);
                |RunningInState(s, issue.state)| < if name in limits then limits[name] else config.maxConcurrentAgents)
            && (SameLetters(issue.state, "todo") ==>
                  forall i :: 0 <= i < |issue.blockers| ==> !IsOpen(issue.blockers[i], config))
  {
    StatesMeaning(config, issue.state);
    StateCountMeaning(s, issue.state);
    BlockedMeaning(issue, config);
    hide Config.IsActiveState, Config.IsTerminalState, OneOf, StateCount, RunningInState, Blocked, SameLetters, IsOpen,
         SourceIssueKey, SourceWorkspaceKey, AsciiLower;
    UnclaimedMeaning(s, config.sourceId, issue);
  }

  lemma UnclaimedMeaning(s: Svc, sourceId: string, issue: Issue)
    ensures Unclaimed(s, sourceId, issue) <==>
            && SourceIssueKey(sourceId, issue.id) !in s.running.Keys + s.retries.Keys && issue.id !in s.leaked
            && (forall k :: k in s.running ==>
                  && s.running[k].issue.id != issue.id
                  && s.running[k].workspaceKey != SourceWorkspaceKey(sourceId, issue.identifier))
            && (forall k :: k in s.retries && k !in s.running ==>
                  && s.retries[k].issueId != issue.id
                  && s.retries[k].workspaceKey != SourceWorkspaceKey(sourceId, issue.identifier))
  {
    hide SourceIssueKey, SourceWorkspaceKey;
    forall k | k in Live(s)
      ensures Apart(OwnerOf(s, k), ClaimOf(sourceId, issue)) <==>
              if k in s.running then
                s.running[k].issue.id != issue.id
                && s.running[k].workspaceKey != SourceWorkspaceKey(sourceId, issue.identifier)
              else
                s.retries[k].issueId != issue.id
                && s.retries[k].workspaceKey != SourceWorkspaceKey(sourceId, issue.identifier)
    {
    }
  }
}
