/** What holds in every run of the service: of every state it reaches and of every pair of states along the way. */
module Runs {
  import opened Prelude
  import opened Names
  import opened Domain
  import opened Model
  import Utf8

  datatype Step = Step(action: Action, after: Svc)

  type Trace = seq<Step>

  function StateAt(sources: set<string>, trace: Trace, n: nat): Svc
    requires n <= |trace|
  {
    if n == 0 then Initial(sources) else trace[n - 1].after
  }

  function Final(sources: set<string>, trace: Trace): Svc {
    StateAt(sources, trace, |trace|)
  }

  predicate Follows(s: Svc, step: Step) {
    Enabled(s, step.action) && step.after == Apply(s, step.action)
  }

  predicate IsTrace(sources: set<string>, trace: Trace) {
    forall i {:trigger Follows(StateAt(sources, trace, i), trace[i])} ::
      0 <= i < |trace| ==> Follows(StateAt(sources, trace, i), trace[i])
  }

  lemma TraceExtends(sources: set<string>, trace: Trace, step: Step)
    requires IsTrace(sources, trace) && Follows(Final(sources, trace), step)
    ensures IsTrace(sources, trace + [step]) && Final(sources, trace + [step]) == step.after
  {
    var longer := trace + [step];
    forall i | 0 <= i < |longer|
      ensures Follows(StateAt(sources, longer, i), longer[i])
    {
      assert StateAt(sources, longer, i) == StateAt(sources, trace, i);
      if i < |trace| {
        assert Follows(StateAt(sources, trace, i), trace[i]);
      }
    }
  }

  lemma StepOf(sources: set<string>, trace: Trace, n: nat)
    requires IsTrace(sources, trace) && n < |trace|
    ensures Enabled(StateAt(sources, trace, n), trace[n].action)
    ensures StateAt(sources, trace, n + 1) == Apply(StateAt(sources, trace, n), trace[n].action)
  {
    hide Enabled, Apply;
    assert Follows(StateAt(sources, trace, n), trace[n]);
  }

  lemma SourcesFixed(s: Svc, a: Action)
    requires Enabled(s, a)
    ensures Apply(s, a).sources == s.sources
  {
    hide Unclaimed, Eligible, RetryTarget, SelectExecutionTarget, SourceIssueKey, RetryAfterExit, ClaimedEntry,
         SessionAfter, TotalsAfter, PushEvent;
  }

  /** The invariant holds throughout. */
  lemma {:induction false} ReachableInv(sources: set<string>, trace: Trace, n: nat)
    requires IsTrace(sources, trace) && n <= |trace|
    ensures Inv(StateAt(sources, trace, n))
    ensures StateAt(sources, trace, n).sources == sources
  {
    hide Inv, Enabled, Apply, IsTrace;
    if n == 0 {
      InitialInv(sources);
    } else {
      ReachableInv(sources, trace, n - 1);
      StepOf(sources, trace, n - 1);
      StepKeepsInv(StateAt(sources, trace, n - 1), trace[n - 1].action);
      SourcesFixed(StateAt(sources, trace, n - 1), trace[n - 1].action);
    }
  }

  /** Two live issues, running or waiting, of any sources, never share a tracker id or a workspace. */
  lemma ExclusiveOwnership(sources: set<string>, trace: Trace, n: nat, j: string, k: string)
    requires IsTrace(sources, trace) && n <= |trace|
    requires var s := StateAt(sources, trace, n); j in Live(s) && k in Live(s) && j != k
    ensures var s := StateAt(sources, trace, n);
            && OwnerOf(s, j).issueId != OwnerOf(s, k).issueId
            && OwnerOf(s, j).workspaceKey != OwnerOf(s, k).workspaceKey
  {
    ReachableInv(sources, trace, n);
    var s := StateAt(sources, trace, n);
    assert Apart(OwnerOf(s, j), OwnerOf(s, k));
  }

  /** Before the forced shutdown, exactly the running issues have a worker, of the same generation and target. */
  lemma WorkersInStep(sources: set<string>, trace: Trace, n: nat, key: string)
    requires IsTrace(sources, trace) && n <= |trace| && !StateAt(sources, trace, n).stopped
    ensures var s := StateAt(sources, trace, n);
            && (key in s.running <==> key in s.tasks)
            && (key in s.tasks ==> s.tasks[key] == WorkerTask(s.running[key].generation, s.running[key].target))
            && (key in s.retries ==> key !in s.tasks)
  {
    ReachableInv(sources, trace, n);
  }

  // ---- Generations

  /** The generation was given to a worker that is gone. */
  predicate Retired(s: Svc, generation: nat) {
    0 < generation <= s.nextGeneration && forall k :: k in s.tasks ==> s.tasks[k].generation != generation
  }

  predicate Issues(step: Step) {
    step.action.Dispatch? && step.action.setup.Ready?
  }

  /** Tasks change in two ways: some go, or one is added with the next generation. */
  lemma TasksAfter(s: Svc, a: Action)
    requires Inv(s) && Enabled(s, a)
    ensures var t := Apply(s, a);
            if a.Dispatch? && a.setup.Ready? then
              && t.nextGeneration == s.nextGeneration + 1
              && t.tasks ==
                 s.tasks[SourceIssueKey(a.config.sourceId, a.issue.id) := WorkerTask(s.nextGeneration + 1, a.target)]
            else
              && t.nextGeneration == s.nextGeneration
              && forall k :: k in t.tasks ==> k in s.tasks && t.tasks[k] == s.tasks[k]
  {
    hide Inv, Unclaimed, Eligible, RetryTarget, SelectExecutionTarget, SourceIssueKey, RetryAfterExit, ClaimedEntry,
         SessionAfter, TotalsAfter, PushEvent;
  }

  lemma StaysRetired(s: Svc, a: Action, generation: nat)
    requires Inv(s) && Enabled(s, a) && Retired(s, generation)
    ensures Retired(Apply(s, a), generation)
  {
    hide Inv, Enabled, Apply;
    TasksAfter(s, a);
  }

  /** A retired generation never comes back. */
  lemma {:induction false} RetiredForGood(sources: set<string>, trace: Trace, i: nat, j: nat, generation: nat)
    requires IsTrace(sources, trace) && i <= j <= |trace|
    requires Retired(StateAt(sources, trace, i), generation)
    ensures Retired(StateAt(sources, trace, j), generation)
    decreases j
  {
    hide Inv, Enabled, Apply, IsTrace, StateAt, Retired;
    if i < j {
      RetiredForGood(sources, trace, i, j - 1, generation);
      ReachableInv(sources, trace, j - 1);
      StepOf(sources, trace, j - 1);
      StaysRetired(StateAt(sources, trace, j - 1), trace[j - 1].action, generation);
    }
  }

  predicate Ignores(s: Svc, a: Action) {
    Enabled(s, a) && Apply(s, a) == s
  }

  lemma RetiredIsIgnored(s: Svc, message: Action)
    requires message.Event? || message.Outcome?
    requires Retired(s, message.generation) && !s.stopped
    ensures Ignores(s, message)
  {
  }

  /**
    Fencing. Once a generation is retired, its events and its outcome, delivered in whatever order and however
    late, change nothing.
  */
  lemma RetiredMessagesAreIgnored(sources: set<string>, trace: Trace, i: nat, j: nat, message: Action)
    requires IsTrace(sources, trace) && i <= j <= |trace|
    requires message.Event? || message.Outcome?
    requires Retired(StateAt(sources, trace, i), message.generation) && !StateAt(sources, trace, j).stopped
    ensures Ignores(StateAt(sources, trace, j), message)
  {
    hide Ignores, Retired, IsTrace, StateAt;
    RetiredForGood(sources, trace, i, j, message.generation);
    RetiredIsIgnored(StateAt(sources, trace, j), message);
  }

  /** Generations are handed out in strictly rising order, so none is given twice. */
  lemma {:induction false} GenerationsRise(sources: set<string>, trace: Trace, i: nat, j: nat)
    requires IsTrace(sources, trace) && i <= j <= |trace|
    ensures StateAt(sources, trace, i).nextGeneration <= StateAt(sources, trace, j).nextGeneration
    ensures i < j && Issues(trace[j - 1]) ==>
              StateAt(sources, trace, i).nextGeneration < StateAt(sources, trace, j).nextGeneration
    decreases j
  {
    hide Inv, Enabled, Apply, IsTrace, StateAt, SourceIssueKey;
    if i < j {
      GenerationsRise(sources, trace, i, j - 1);
      ReachableInv(sources, trace, j - 1);
      StepOf(sources, trace, j - 1);
      TasksAfter(StateAt(sources, trace, j - 1), trace[j - 1].action);
    }
  }

  /** A worker that leaves the registry has its generation retired. */
  lemma GoneMeansRetired(s: Svc, a: Action, key: string)
    requires Inv(s) && Enabled(s, a) && key in s.tasks && key !in Apply(s, a).tasks
    ensures Retired(Apply(s, a), s.tasks[key].generation)
  {
    TasksAfter(s, a);
  }

  // ---- Signs of life

  /** The action starts the worker at `key`, or is an event of its current worker that belongs to a conversation. */
  predicate IsSign(s: Svc, a: Action, key: string) {
    match a
    case Dispatch(config, issue, _, _, _, setup, _) => setup.Ready? && key == SourceIssueKey(config.sourceId, issue.id)
    case Event(k, generation, ev) =>
      && k == key && Matches(s, key, generation) && key in s.running
      && (s.running[key].session.Some? || (ev.threadId.Some? && ev.turnId.Some?))
    case _ => false
  }

  function SignTime(a: Action): int
    requires a.Dispatch? || a.Event?
  {
    if a.Dispatch? then a.startedAt else a.event.timestamp
  }

  lemma SignIsTaken(s: Svc, a: Action, key: string)
    requires Inv(s) && Enabled(s, a) && IsSign(s, a, key)
    ensures key in Apply(s, a).running && Apply(s, a).running[key].LastSign() == SignTime(a)
  {
    hide Inv, SourceIssueKey, SourceWorkspaceKey;
    if a.Dispatch? {
      hide Enabled, Apply;
      DispatchShape(s, a);
    } else {
      hide TotalsAfter, PushEvent;
    }
  }

  /** A step that is no sign of the worker leaves its last sign as it was. */
  lemma NoSign(s: Svc, a: Action, key: string)
    requires Inv(s) && Enabled(s, a) && !IsSign(s, a, key)
    requires key in Apply(s, a).running
    ensures key in s.running && s.running[key].LastSign() == Apply(s, a).running[key].LastSign()
  {
    hide Inv, SourceIssueKey, SourceWorkspaceKey;
    if a.Dispatch? {
      hide Enabled, Apply;
      DispatchShape(s, a);
    } else if a.Event? {
      hide TotalsAfter, PushEvent;
    } else {
      OthersKeepSession(s, a, key);
    }
  }

  lemma OthersKeepSession(s: Svc, a: Action, key: string)
    requires Enabled(s, a) && !a.Dispatch? && !a.Event? && key in Apply(s, a).running
    ensures key in s.running
    ensures s.running[key].session == Apply(s, a).running[key].session
    ensures s.running[key].startedAt == Apply(s, a).running[key].startedAt
  {
    hide SourceIssueKey, RetryAfterExit, PostponedRetry, Config.MayGoOn, IsStalled, FindIssue;
  }

  lemma {:induction false} LastSignStays(sources: set<string>, trace: Trace, i: nat, j: nat, key: string)
    requires IsTrace(sources, trace) && i <= j <= |trace| && key in StateAt(sources, trace, j).running
    requires forall n :: i <= n < j ==> !IsSign(StateAt(sources, trace, n), trace[n].action, key)
    ensures key in StateAt(sources, trace, i).running
    ensures StateAt(sources, trace, i).running[key].LastSign() == StateAt(sources, trace, j).running[key].LastSign()
    decreases j
  {
    hide IsTrace, StateAt, Inv, Enabled, Apply, IsSign;
    if i < j {
      ReachableInv(sources, trace, j - 1);
      StepOf(sources, trace, j - 1);
      NoSign(StateAt(sources, trace, j - 1), trace[j - 1].action, key);
      LastSignStays(sources, trace, i, j - 1, key);
    }
  }

  /**
    A running worker is stalled exactly when its last sign of life, its start or the last event of its conversation,
    is older than the timeout.
  */
  lemma StalledExactly(
      sources: set<string>, trace: Trace, i: nat, j: nat, key: string, config: Config, nowUtc: int, now: nat)
    requires IsTrace(sources, trace) && i < j <= |trace| && key in StateAt(sources, trace, j).running
    requires IsSign(StateAt(sources, trace, i), trace[i].action, key)
    requires forall n :: i < n < j ==> !IsSign(StateAt(sources, trace, n), trace[n].action, key)
    ensures var s := StateAt(sources, trace, j);
            Enabled(s, Stall(key, config, nowUtc, now)) <==>
            && !s.stopped && s.running[key].sourceId == config.sourceId
            && config.stallTimeoutMs > 0 && nowUtc - SignTime(trace[i].action) > config.stallTimeoutMs
  {
    assert trace[i].action.Dispatch? || trace[i].action.Event?;
    hide IsTrace, StateAt, Inv, Enabled, Apply, IsSign, RunningEntry.LastSign;
    ReachableInv(sources, trace, i);
    StepOf(sources, trace, i);
    SignIsTaken(StateAt(sources, trace, i), trace[i].action, key);
    LastSignStays(sources, trace, i + 1, j, key);
    StallEnabled(StateAt(sources, trace, j), key, config, nowUtc, now);
  }

  lemma StallEnabled(s: Svc, key: string, config: Config, nowUtc: int, now: nat)
    requires key in s.running
    ensures Enabled(s, Stall(key, config, nowUtc, now)) <==>
            && !s.stopped && s.running[key].sourceId == config.sourceId
            && config.stallTimeoutMs > 0 && nowUtc - s.running[key].LastSign() > config.stallTimeoutMs
  {
    hide RunningEntry.LastSign;
  }

  /** Every running worker has given a sign of life: it was started. */
  lemma {:induction false} SomeSign(sources: set<string>, trace: Trace, j: nat, key: string) returns (i: nat)
    requires IsTrace(sources, trace) && j <= |trace| && key in StateAt(sources, trace, j).running
    ensures i < j && IsSign(StateAt(sources, trace, i), trace[i].action, key)
    ensures forall n :: i < n < j ==> !IsSign(StateAt(sources, trace, n), trace[n].action, key)
  {
    hide IsTrace, Inv, Enabled, Apply, IsSign;
    assert j > 0;
    if IsSign(StateAt(sources, trace, j - 1), trace[j - 1].action, key) {
      i := j - 1;
    } else {
      ReachableInv(sources, trace, j - 1);
      StepOf(sources, trace, j - 1);
      NoSign(StateAt(sources, trace, j - 1), trace[j - 1].action, key);
      i := SomeSign(sources, trace, j - 1, key);
    }
  }

  // ---- Draining

  lemma DrainedStep(s: Svc, a: Action)
    requires Inv(s) && Enabled(s, a) && s.draining && a != SetDraining(false)
    ensures var t := Apply(s, a);
            t.draining && t.nextGeneration == s.nextGeneration && t.running.Keys <= s.running.Keys
  {
    hide Inv, Unclaimed, Eligible, RetryTarget, SelectExecutionTarget, SourceIssueKey, RetryAfterExit, ClaimedEntry,
         SessionAfter, TotalsAfter, PushEvent;
  }

  /** While the service drains no worker is started: until it is resumed, the running issues only become fewer. */
  lemma {:induction false} DrainOnlyShrinks(sources: set<string>, trace: Trace, i: nat, j: nat)
    requires IsTrace(sources, trace) && i <= j <= |trace| && StateAt(sources, trace, i).draining
    requires forall m :: i <= m < j ==> trace[m].action != SetDraining(false)
    ensures var s, t := StateAt(sources, trace, i), StateAt(sources, trace, j);
            t.draining && t.nextGeneration == s.nextGeneration && t.running.Keys <= s.running.Keys
    decreases j
  {
    hide Inv, Enabled, Apply, IsTrace, StateAt;
    if i < j {
      DrainOnlyShrinks(sources, trace, i, j - 1);
      ReachableInv(sources, trace, j - 1);
      StepOf(sources, trace, j - 1);
      DrainedStep(StateAt(sources, trace, j - 1), trace[j - 1].action);
    }
  }

  // ---- Work is not lost

  /** The tracker, asked about the source's running issues, no longer has the one at `key` in a state to work on. */
  predicate TurnedAway(s: Svc, a: Action, key: string) {
    && a.Cancel? && a.key == key && key in s.running && a.config.sourceId == s.running[key].sourceId
    && var latest := Latest(s, key, a.refreshed);
       latest.None? || a.config.IsTerminalState(latest.value.state) || !a.config.IsActiveState(latest.value.state)
  }

  /** The retry at `key` was due and no candidate of its source is its issue. */
  predicate NoLongerCandidate(s: Svc, a: Action, key: string) {
    && a.DropRetry? && a.key == key && key in s.retries && s.retries[key].dueAt <= a.now
    && a.sourceId == s.retries[key].sourceId
    && forall i :: 0 <= i < |a.candidates| ==> a.candidates[i].id != s.retries[key].issueId
  }

  /** The action gives up the issue at `key` for good, and has a reason to. */
  predicate GivesUp(s: Svc, a: Action, key: string) {
    || TurnedAway(s, a, key)
    || NoLongerCandidate(s, a, key)
    || (a.Outcome? && a.key == key && a.terminal && Matches(s, key, a.generation))
    || (IsStray(s, a) && key == SourceIssueKey(a.sourceId, a.issueId))
  }

  lemma DispatchLeavesNobody(s: Svc, a: Action, key: string)
    requires Inv(s) && Enabled(s, a) && key in Live(s) && a.Dispatch?
    ensures key in Live(Apply(s, a))
  {
    hide Inv, Enabled, Apply, SourceIssueKey;
    DispatchShape(s, a);
  }

  lemma ExitLeavesNobody(s: Svc, key: string, reason: WorkerExitReason, cap: nat, now: nat)
    requires key in s.running
    ensures Live(Exit(s, key, reason, cap, now)) == Live(s)
  {
    hide RetryAfterExit;
  }

  lemma ReleaseLeaves(s: Svc, key: string, leaked: set<string>)
    ensures Live(Release(s, key)) == Live(s) - {key} == Live(Release(s, key).(leaked := leaked))
  {
  }

  /** Messages and aborts: only for a worker that runs. */
  lemma MessageLeaves(s: Svc, a: Action, key: string)
    requires Inv(s) && Enabled(s, a) && key in Live(s) && (a.Outcome? || a.Abort?)
    ensures key !in Live(Apply(s, a)) <==> GivesUp(s, a, key)
  {
    hide ClaimsInv, GenerationsIssued, SourceIssueKey, Live, Exit, Release;
    var target := if a.Outcome? then a.key else SourceIssueKey(a.sourceId, a.issueId);
    if Matches(s, target, a.generation) {
      ReleaseLeaves(s, target, Apply(s, a).leaked);
      var reason := if a.Outcome? then a.reason else Failed("worker aborted by operator");
      ExitLeavesNobody(s, target, reason, a.cap, a.now);
    }
  }

  /** An issue stops being live exactly when it is cancelled, dropped or finished, or hit by a stray abort. */
  lemma LeavesExactly(s: Svc, a: Action, key: string)
    requires Inv(s) && Enabled(s, a) && key in Live(s)
    ensures key !in Live(Apply(s, a)) <==> GivesUp(s, a, key)
  {
    hide ClaimsInv, GenerationsIssued, SourceIssueKey, RetryAfterExit, SessionAfter, TotalsAfter, PushEvent, Unclaimed,
         Eligible, RetryTarget, SelectExecutionTarget,
         IsStalled, Summary, PostponedRetry, Config.IsActiveState, Config.IsTerminalState;
    if a.Dispatch? {
      DispatchLeavesNobody(s, a, key);
    } else if a.Outcome? || a.Abort? {
      MessageLeaves(s, a, key);
    }
  }

  /** Over a run: an issue that was live and no longer is was given up by an action in between. */
  lemma {:induction false} NothingIsLost(sources: set<string>, trace: Trace, i: nat, j: nat, key: string)
    returns (m: nat)
    requires IsTrace(sources, trace) && i <= j <= |trace|
    requires key in Live(StateAt(sources, trace, i)) && key !in Live(StateAt(sources, trace, j))
    ensures i <= m < j && key in Live(StateAt(sources, trace, m))
    ensures GivesUp(StateAt(sources, trace, m), trace[m].action, key)
    decreases j - i
  {
    hide Inv, Enabled, Apply, IsTrace, StateAt, GivesUp, Live;
    assert i < j;
    ReachableInv(sources, trace, i);
    StepOf(sources, trace, i);
    LeavesExactly(StateAt(sources, trace, i), trace[i].action, key);
    if key in Live(StateAt(sources, trace, i + 1)) {
      m := NothingIsLost(sources, trace, i + 1, j, key);
    } else {
      m := i;
    }
  }

  // ---- Leaked ids

  lemma LeakAfter(s: Svc, a: Action)
    requires Inv(s) && Enabled(s, a)
    ensures Apply(s, a).leaked == s.leaked + LeakedBy(s, a)
    ensures LeakedBy(s, a) == {} <==> !IsStray(s, a)
  {
    hide Inv, Unclaimed, Eligible, RetryTarget, SelectExecutionTarget, SourceIssueKey, RetryAfterExit, ClaimedEntry,
         SessionAfter, TotalsAfter, PushEvent;
    if IsStray(s, a) {
      StrayIsAlias(s, a);
    }
  }

  /** The id an action leaves claimed for ever. */
  function LeakedBy(s: Svc, a: Action): set<string> {
    if IsStray(s, a) && SourceIssueKey(a.sourceId, a.issueId) in s.running
    then {s.running[SourceIssueKey(a.sourceId, a.issueId)].issue.id}
    else {}
  }

  /**
    The claimed tracker ids are exactly the ids of live issues if and only if no abort so far was stray. A caller
    can see that an abort is stray before it is issued: its source is not configured, yet its key names a worker.
  */
  lemma {:induction false} LeakExactly(sources: set<string>, trace: Trace, n: nat)
    requires IsTrace(sources, trace) && n <= |trace|
    ensures StateAt(sources, trace, n).leaked == {} <==>
            forall i :: 0 <= i < n ==> !IsStray(StateAt(sources, trace, i), trace[i].action)
  {
    hide Inv, Enabled, Apply, IsTrace, IsStray, SourceIssueKey;
    if n > 0 {
      var s, a := StateAt(sources, trace, n - 1), trace[n - 1].action;
      LeakExactly(sources, trace, n - 1);
      ReachableInv(sources, trace, n - 1);
      StepOf(sources, trace, n - 1);
      LeakAfter(s, a);
    }
  }

  /** A leaked id stays claimed, and its issue is never dispatched again. */
  lemma {:induction false} LeakIsForever(sources: set<string>, trace: Trace, i: nat, j: nat, id: string)
    requires IsTrace(sources, trace) && i <= j <= |trace| && id in StateAt(sources, trace, i).leaked
    ensures id in StateAt(sources, trace, j).leaked
    ensures j < |trace| && trace[j].action.Dispatch? ==> trace[j].action.issue.id != id
    decreases j
  {
    hide Inv, Apply, IsTrace, StateAt, SourceIssueKey, SourceWorkspaceKey;
    if i < j {
      LeakIsForever(sources, trace, i, j - 1, id);
      ReachableInv(sources, trace, j - 1);
      StepOf(sources, trace, j - 1);
      LeakAfter(StateAt(sources, trace, j - 1), trace[j - 1].action);
    }
    if j < |trace| {
      StepOf(sources, trace, j);
    }
  }

  lemma AliasKeys()
    ensures SourceIssueKey("foo", "1") == "3:foo1" == SourceIssueKey(DEFAULT_SOURCE_ID, "3:foo1")
  {
    assert Utf8.Encode("foo") == [0x66] + ([0x6F] + ([0x6F] + [])) by {
      assert "foo"[1..] == "oo" && "oo"[1..] == "o" && "o"[1..] == "";
    }
    assert Decimal(3) == "3";
  }

  lemma ExampleEligible(s: Svc, config: Config, issue: Issue)
    requires s == Initial({"foo"}) && config == Config("foo", ["todo"], [], 1, map[], [], 0, 0, 0)
    requires issue.id == "1" && issue.identifier != "" && issue.title != "" && issue.state == "todo"
             && issue.blockers == []
    ensures Eligible(s, config, issue)
  {
    hide SourceIssueKey, SourceWorkspaceKey;
    assert config.activeStates[0] == "todo" && config.IsActiveState("todo");
    assert KeysInState(s.running, AsciiLower("todo")) == {};
  }

  /** It happens: with "foo" the only source, an abort of issue "3:foo1" of the default source hits issue "1". */
  lemma LeakExample(title: string, startedAt: int, now: nat) returns (trace: Trace)
    requires title != ""
    ensures IsTrace({"foo"}, trace) && Final({"foo"}, trace).leaked == {"1"}
  {
    hide SourceIssueKey, SourceWorkspaceKey, Eligible;
    var issue := Issue("1", "owner/repo#1", title, None, "todo", None, []);
    var config := Config("foo", ["todo"], [], 1, map[], [], 0, 0, 0);
    var dispatch := Dispatch(config, issue, None, Local, startedAt, Ready("/work"), now);
    var abort := Abort(DEFAULT_SOURCE_ID, "3:foo1", 1, 0, now);
    var s0 := Initial({"foo"});
    AliasKeys();
    ExampleEligible(s0, config, issue);
    assert WithoutRetry(s0, "3:foo1") == s0;
    assert Enabled(s0, dispatch);
    var s1 := Apply(s0, dispatch);
    assert s1.tasks == map["3:foo1" := WorkerTask(1, Local)];
    var s2 := Apply(s1, abort);
    TraceExtends({"foo"}, [], Step(dispatch, s1));
    assert [] + [Step(dispatch, s1)] == [Step(dispatch, s1)];
    TraceExtends({"foo"}, [Step(dispatch, s1)], Step(abort, s2));
    trace := [Step(dispatch, s1)] + [Step(abort, s2)];
  }
}
