/**
  What the operations of the service loop amount to, on values: for each of them, what it does to every issue, and
  why that is so for the loop's many small steps taken together.
*/
module Effects {
  import opened Prelude
  import opened Names
  import opened Domain
  import opened Model
  import opened Capacity
  import opened Ranking
  import opened State
  import opened Runs
  import opened Greedy
  import Utf8

  datatype Control =
    | Drain
    | Resume
    | AbortWorkerCommand(sourceId: string, issueId: string, generation: nat)
    | PromoteRetry(sourceId: string, issueId: string)

  datatype ControlResult = Applied(draining: bool) | NotFound | Stale

  /** The configuration of a source. */
  function FindConfig(configs: seq<Config>, sourceId: string): (r: Option<Config>)
    ensures r.Some? ==> r.value in configs && r.value.sourceId == sourceId
    ensures r.None? <==> forall i :: 0 <= i < |configs| ==> configs[i].sourceId != sourceId
  {
    if configs == [] then None
    else if configs[0].sourceId == sourceId then Some(configs[0])
    else FindConfig(configs[1..], sourceId)
  }

  /** It is the first of them in the list. */
  lemma {:induction false} FindConfigIsFirst(configs: seq<Config>, sourceId: string) returns (first: nat)
    ensures FindConfig(configs, sourceId) == if first < |configs| then Some(configs[first]) else None
    ensures first < |configs| ==> configs[first].sourceId == sourceId
    ensures forall j :: 0 <= j < first && j < |configs| ==> configs[j].sourceId != sourceId
  {
    if configs == [] || configs[0].sourceId == sourceId {
      first := 0;
    } else {
      var rest := FindConfigIsFirst(configs[1..], sourceId);
      first := rest + 1;
      assert forall j :: 1 <= j < |configs| ==> configs[1..][j - 1] == configs[j];
    }
  }

  // ---- The state with its registry

  lemma SameTablesSameOwners(s: Svc, t: Svc)
    requires s.running == t.running && s.retries == t.retries
    ensures Live(s) == Live(t) && forall k :: k in Live(s) ==> OwnerOf(s, k) == OwnerOf(t, k)
  {
  }

  /** Eligibility does not look at the registry. */
  lemma EligibleSameTables(s: Svc, t: Svc, config: Config, issue: Issue)
    requires s.running == t.running && s.retries == t.retries && s.leaked == t.leaked
    ensures Eligible(s, config, issue) <==> Eligible(t, config, issue)
  {
    hide OwnerOf, SourceIssueKey, SourceWorkspaceKey, StateCount, StateLimit, Blocked, Config.IsActiveState,
         Config.IsTerminalState;
    assert forall k :: k in Live(s) ==> OwnerOf(s, k) == OwnerOf(t, k) by { SameTablesSameOwners(s, t); }
  }

  /** The claims `c` of the orchestrator's state together with the registry's part of `s`. */
  function Seen(c: Svc, tasks: map<string, WorkerTask>, nextGeneration: nat, stopped: bool): Svc {
    c.(tasks := tasks, nextGeneration := nextGeneration, stopped := stopped)
  }

  lemma EventSeen(c: Svc, s: Svc, key: string, generation: nat, ev: CodexEvent)
    requires s == Seen(c, s.tasks, s.nextGeneration, false)
    ensures Enabled(s, Event(key, generation, ev))
    ensures Apply(s, Event(key, generation, ev)) ==
            if Matches(s, key, generation) then Seen(ObservedEvent(c, key, ev), s.tasks, s.nextGeneration, false) else s
  {
    hide SessionAfter, TotalsAfter, PushEvent, Summary;
  }

  lemma ExitSeen(c: Svc, s: Svc, key: string, reason: WorkerExitReason, cap: nat, now: nat)
    requires s == Seen(c, s.tasks, s.nextGeneration, s.stopped) && key in s.running
    ensures Exit(s, key, reason, cap, now) ==
            Seen(Exit(c, key, reason, cap, now), s.tasks - {key}, s.nextGeneration, s.stopped)
  {
    hide RetryAfterExit;
  }

  lemma IndexesSeen(
      c: Svc, s: Svc, claimed: set<string>, issueIds: set<string>, workspaceKeys: set<string>)
    requires s == Seen(c, s.tasks, s.nextGeneration, s.stopped) && Sound(c, claimed, issueIds, workspaceKeys)
    ensures claimed == s.running.Keys + s.retries.Keys && workspaceKeys == WorkspaceKeys(s)
    ensures issueIds == IssueIds(s) + s.leaked && IssueIds(s) !! s.leaked
  {
    hide SourceIssueKey;
    SameTablesSameOwners(c, s);
    IndexesUnchanged(c, s);
    forall id | id in IssueIds(c)
      ensures id !in c.leaked
    {
      var k :| k in Live(c) && OwnerOf(c, k).issueId == id;
    }
  }

  lemma OwnedIdSeen(c: Svc, s: Svc, key: string)
    requires c.running == s.running && c.retries == s.retries
    ensures OwnedId(c, key) == OwnedId(s, key)
  {
  }

  lemma ExitKeepsDraining(s: Svc, key: string, reason: WorkerExitReason, cap: nat, now: nat)
    requires key in s.running
    ensures Exit(s, key, reason, cap, now).draining == s.draining
  {
  }

  lemma ReleaseKeepsDraining(s: Svc, key: string)
    ensures Release(s, key).draining == s.draining
  {
  }

  /** A live issue's key is made of its own source and id. */
  lemma OwnKey(s: Svc, key: string)
    requires Inv(s) && key in Live(s)
    ensures key == SourceIssueKey(OwnerOf(s, key).sourceId, OwnerOf(s, key).issueId) && ':' !in OwnerOf(s, key).issueId
    ensures OwnerOf(s, key).sourceId in s.sources
  {
    hide TablesInv, Exclusive, SourceIssueKey;
    assert KeyFits(s.sources, key, OwnerOf(s, key));
  }

  // ---- What a step goes by

  /** What the loop knows of a source in a tick: its configuration and, as far as the tracker gave them, its answers. */
  datatype Answer = Answer(config: Config, refreshed: Option<seq<Issue>>, candidates: Option<seq<Issue>>)

  /** The action is one of a tick, and what it carries is what the tracker answered, not something made up. */
  predicate GoesBy(a: Action, x: Answer) {
    match a
    case Stall(_, config, _, _) => config == x.config
    case RefreshIssue(_, config, refreshed) => config == x.config && x.refreshed == Some(refreshed)
    case Cancel(_, config, refreshed) => config == x.config && x.refreshed == Some(refreshed)
    case Postpone(_, cap, _) => cap == x.config.maxRetryBackoffMs && x.candidates == None
    case DropRetry(_, sourceId, candidates, _) => sourceId == x.config.sourceId && x.candidates == Some(candidates)
    case Dispatch(config, issue, _, _, _, _, _) =>
      config == x.config && x.candidates.Some? && issue in x.candidates.value
    case _ => false
  }

  /** Every step from `from` on goes by one of the answers. */
  predicate StepsGoBy(trace: Trace, from: nat, answers: seq<Answer>) {
    forall i :: from <= i < |trace| ==> GoesByOne(trace[i].action, answers)
  }

  predicate GoesByOne(a: Action, answers: seq<Answer>) {
    exists k :: 0 <= k < |answers| && GoesBy(a, answers[k])
  }

  lemma StepsExtend(before: Trace, after: Trace, from: nat, answers: seq<Answer>)
    requires before <= after && from <= |before|
    requires StepsGoBy(before, from, answers) && StepsGoBy(after, |before|, answers)
    ensures StepsGoBy(after, from, answers)
  {
    hide GoesByOne;
    forall i | from <= i < |after|
      ensures GoesByOne(after[i].action, answers)
    {
      if i < |before| {
        assert after[i] == before[i] && GoesByOne(before[i].action, answers);
      }
    }
  }

  lemma StepsHaveNotBegun(trace: Trace, answers: seq<Answer>)
    ensures StepsGoBy(trace, |trace|, answers)
  {
  }

  lemma OneStepGoesBy(before: Trace, after: Trace, answer: Answer)
    requires |after| == |before| + 1 && GoesBy(after[|before|].action, answer)
    ensures StepsGoBy(after, |before|, [answer])
  {
    hide GoesBy;
    assert [answer][0] == answer;
  }

  lemma StepsGoByMore(trace: Trace, from: nat, answer: Answer, answers: seq<Answer>)
    requires StepsGoBy(trace, from, [answer]) && answer in answers
    ensures StepsGoBy(trace, from, answers)
  {
    hide GoesBy;
    var k: nat :| k < |answers| && answers[k] == answer;
    forall i | from <= i < |trace|
      ensures GoesByOne(trace[i].action, answers)
    {
      assert GoesByOne(trace[i].action, [answer]);
      assert GoesBy(trace[i].action, answers[k]);
    }
  }

  // ---- Ending stalled workers

  /** The tables say the same of `key`. */
  predicate SameEntry(s: Svc, t: Svc, key: string) {
    && (key in t.running <==> key in s.running) && (key in s.running ==> t.running[key] == s.running[key])
    && (key in t.retries <==> key in s.retries) && (key in s.retries ==> t.retries[key] == s.retries[key])
  }

  function KeysOf(sourceId: string, ids: set<string>): set<string> {
    set id | id in ids :: SourceIssueKey(sourceId, id)
  }

  lemma KeysOfLess(sourceId: string, ids: set<string>, id: string)
    requires id in ids && forall i :: i in ids ==> ':' !in i
    ensures KeysOf(sourceId, ids - {id}) == KeysOf(sourceId, ids) - {SourceIssueKey(sourceId, id)}
  {
    hide SourceIssueKey;
    forall i | i in ids && i != id
      ensures SourceIssueKey(sourceId, i) != SourceIssueKey(sourceId, id)
    {
      if SourceIssueKey(sourceId, i) == SourceIssueKey(sourceId, id) {
        SourceIssueKeyInjective(sourceId, i, sourceId, id);
      }
    }
  }

  lemma KeyOfMember(sourceId: string, ids: set<string>, id: string)
    requires id in ids
    ensures SourceIssueKey(sourceId, id) in KeysOf(sourceId, ids)
  {
  }

  lemma KeysOfNothing(sourceId: string)
    ensures KeysOf(sourceId, {}) == {}
  {
  }

  function StalledKeys(s: Svc, config: Config, now: int): set<string> {
    set k | k in s.running && IsStalled(s.running[k], config, now)
  }

  /** The stalled ids name the stalled entries. */
  lemma StalledIds(s: Svc, state: OrchestratorState, config: Config, now: int)
    requires Inv(s) && s.running == state.running
    ensures var ids := state.StalledIssueIdsForSource(config.sourceId, config, now);
            (forall id :: id in ids ==> ':' !in id) && KeysOf(config.sourceId, ids) == StalledKeys(s, config, now)
  {
    hide Inv, SourceIssueKey;
    var ids := state.StalledIssueIdsForSource(config.sourceId, config, now);
    forall k | k in StalledKeys(s, config, now)
      ensures s.running[k].issue.id in ids && k == SourceIssueKey(config.sourceId, s.running[k].issue.id)
    {
      OwnKey(s, k);
    }
    forall id | id in ids
      ensures ':' !in id && SourceIssueKey(config.sourceId, id) in StalledKeys(s, config, now)
    {
      var k :| k in StalledKeys(s, config, now) && s.running[k].issue.id == id;
      OwnKey(s, k);
    }
  }

  /** In `t` the worker that ran at `key` in `s` has ended and its issue waits. */
  predicate Ended(s: Svc, t: Svc, key: string, reason: WorkerExitReason, cap: nat, now: nat) {
    && key in s.running && key !in t.running && key in t.retries
    && t.retries[key] == RetryAfterExit(s.running[key], reason, cap, now)
  }

  /** `t` is `s` with the workers at `keys` ended and nothing else changed. */
  predicate EndedAt(s: Svc, t: Svc, keys: set<string>, reason: WorkerExitReason, cap: nat, now: nat) {
    && Live(t) == Live(s)
    && forall k :: k in Live(s) ==> if k in keys then Ended(s, t, k, reason, cap, now) else SameEntry(s, t, k)
  }

  lemma ExitShape(t: Svc, key: string, reason: WorkerExitReason, cap: nat, now: nat)
    requires key in t.running
    ensures var u := Exit(t, key, reason, cap, now);
            Live(u) == Live(t) && Ended(t, u, key, reason, cap, now) && forall k :: k != key ==> SameEntry(t, u, k)
  {
    hide RetryAfterExit;
  }

  lemma SameThenSame(s: Svc, t: Svc, u: Svc, key: string, reason: WorkerExitReason, cap: nat, now: nat)
    requires SameEntry(t, u, key)
    ensures SameEntry(s, t, key) ==> SameEntry(s, u, key)
    ensures Ended(s, t, key, reason, cap, now) ==> Ended(s, u, key, reason, cap, now)
  {
  }

  lemma SameThenEnded(s: Svc, t: Svc, u: Svc, key: string, reason: WorkerExitReason, cap: nat, now: nat)
    requires SameEntry(s, t, key) && Ended(t, u, key, reason, cap, now)
    ensures Ended(s, u, key, reason, cap, now)
  {
  }

  lemma EndedNowhere(s: Svc, reason: WorkerExitReason, cap: nat, now: nat)
    ensures EndedAt(s, s, {}, reason, cap, now)
  {
  }

  lemma EndedOneMore(s: Svc, t: Svc, keys: set<string>, key: string, reason: WorkerExitReason, cap: nat, now: nat)
    requires EndedAt(s, t, keys, reason, cap, now) && key in s.running && key !in keys
    ensures key in t.running && EndedAt(s, Exit(t, key, reason, cap, now), keys + {key}, reason, cap, now)
  {
    hide Exit, Ended, SameEntry;
    assert key in t.running by { EndedNotYet(s, t, keys, key, reason, cap, now); }
    var u := Exit(t, key, reason, cap, now);
    ExitShape(t, key, reason, cap, now);
    forall k | k in Live(s)
      ensures if k in keys + {key} then Ended(s, u, k, reason, cap, now) else SameEntry(s, u, k)
    {
      if k == key {
        SameThenEnded(s, t, u, k, reason, cap, now);
      } else {
        SameThenSame(s, t, u, k, reason, cap, now);
      }
    }
  }

  lemma EndedNotYet(s: Svc, t: Svc, keys: set<string>, key: string, reason: WorkerExitReason, cap: nat, now: nat)
    requires EndedAt(s, t, keys, reason, cap, now) && key in s.running && key !in keys
    ensures key in t.running
  {
    assert SameEntry(s, t, key);
  }

  lemma StillStalled(s: Svc, t: Svc, keys: set<string>, key: string, config: Config, nowUtc: int, now: nat)
    requires EndedAt(s, t, keys, Stalled("codex stalled"), config.maxRetryBackoffMs, now)
    requires key in StalledKeys(s, config, nowUtc) - keys
    ensures key in t.running && IsStalled(t.running[key], config, nowUtc)
  {
    hide IsStalled;
    assert SameEntry(s, t, key);
  }

  // ---- Reconciling with the tracker

  /** What reconciliation makes of the issue `id`. */
  function Reconciled(s: Svc, config: Config, id: string, latest: Option<Issue>): Svc {
    var key := SourceIssueKey(config.sourceId, id);
    match Decide(key in s.running, latest, config)
    case NoRunningEntry => s
    case RefreshedActive =>
      s.(running := s.running[key := s.running[key].(issue := latest.value, identifier := latest.value.identifier)])
    case _ => Release(s, key)
  }

  /** Updating an entry and forgetting it at once is forgetting it, and its own id is not left behind. */
  lemma CancelSeen(c: Svc, s: Svc, key: string, e: RunningEntry, id: string)
    requires s == Seen(c, s.tasks, s.nextGeneration, s.stopped)
    requires key in c.running && e.issue.id == id && id !in c.leaked
    ensures var updated := c.(running := c.running[key := e]);
            Seen(Release(updated, key).(leaked := c.leaked + OwnedId(updated, key) - {id}), s.tasks - {key},
                 s.nextGeneration,
                 s.stopped) == Release(s, key)
  {
    assert c.running[key := e] - {key} == c.running - {key};
  }

  lemma VerdictApplies(s: Svc, key: string, config: Config, refreshed: seq<Issue>)
    requires !s.stopped && key in s.running && s.running[key].sourceId == config.sourceId
    ensures var latest := FindIssue(refreshed, s.running[key].issue.id);
            if config.MayGoOn(latest) then
              && Enabled(s, RefreshIssue(key, config, refreshed))
              && Apply(s, RefreshIssue(key, config, refreshed)) ==
                 s.(running := s.running[key := s.running[key].(issue := latest.value,
                                                                identifier := latest.value.identifier)])
            else
              && Enabled(s, Cancel(key, config, refreshed))
              && Apply(s, Cancel(key, config, refreshed)) == Release(s, key)
  {
    hide Config.MayGoOn, FindIssue, Release;
  }

  /** An issue addressed by its tracker id is the one that runs under the key. */
  lemma AddressedIssue(s: Svc, sourceId: string, id: string)
    requires Inv(s) && ':' !in id && SourceIssueKey(sourceId, id) in s.running
    ensures var e := s.running[SourceIssueKey(sourceId, id)];
            e.issue.id == id && e.sourceId == sourceId && id !in s.leaked
  {
    hide TablesInv, Exclusive, SourceIssueKey;
    var key := SourceIssueKey(sourceId, id);
    assert KeyFits(s.sources, key, OwnerOf(s, key));
    SourceIssueKeyInjective(sourceId, id, s.running[key].sourceId, s.running[key].issue.id);
  }

  /** The decision about an issue, the step it amounts to and the state it leads to. */
  lemma VerdictOf(s: Svc, config: Config, id: string, refreshed: seq<Issue>)
    requires Inv(s) && !s.stopped && ':' !in id
    ensures FindIssue(refreshed, id).Some? ==> FindIssue(refreshed, id).value.id == id
    ensures var key := SourceIssueKey(config.sourceId, id); key in s.running ==> s.running[key].issue.id == id
    ensures var key, latest := SourceIssueKey(config.sourceId, id), FindIssue(refreshed, id);
            var decision, t := Decide(key in s.running, latest, config), Reconciled(s, config, id, latest);
            match decision
            case NoRunningEntry => t == s
            case RefreshedActive =>
              && key in s.running && latest.Some? && s.running[key].issue.id == id
              && Enabled(s, RefreshIssue(key, config, refreshed))
              && t == Apply(s, RefreshIssue(key, config, refreshed))
              && t == s.(running := s.running[key := s.running[key].(issue := latest.value,
                                                                     identifier := latest.value.identifier)])
            case _ =>
              && key in s.running && s.running[key].issue.id == id && id !in s.leaked
              && (decision.MissingFromTracker? || latest.Some?)
              && Enabled(s, Cancel(key, config, refreshed))
              && t == Release(s, key) == Apply(s, Cancel(key, config, refreshed))
  {
    assert FindIssue(refreshed, id).Some? ==> FindIssue(refreshed, id).value.id == id;
    hide Inv, SourceIssueKey, Enabled, Apply, Release, Config.IsActiveState, Config.IsTerminalState, FindIssue;
    var key := SourceIssueKey(config.sourceId, id);
    if key in s.running {
      AddressedIssue(s, config.sourceId, id);
      VerdictApplies(s, key, config, refreshed);
    }
  }

  /** The tracker's verdict on the issue running at `key` is carried out: it goes on, brought up to date, or is gone. */
  predicate Judged(s: Svc, t: Svc, key: string, config: Config, refreshed: seq<Issue>) {
    && key in s.running
    && var e := s.running[key];
       var latest := FindIssue(refreshed, e.issue.id);
       if config.MayGoOn(latest)
       then key in t.running && key !in t.retries
            && t.running[key] == e.(issue := latest.value, identifier := latest.value.identifier)
       else key !in Live(t)
  }

  /** `t` is `s` with the issues at `keys` judged and nothing else changed. */
  predicate JudgedAt(s: Svc, t: Svc, keys: set<string>, config: Config, refreshed: seq<Issue>) {
    && Live(t) <= Live(s)
    && forall k :: k in Live(s) ==> if k in keys then Judged(s, t, k, config, refreshed) else SameEntry(s, t, k)
  }

  /** The keys of the issues with these ids that run. */
  function Polled(s: Svc, config: Config, ids: set<string>): set<string> {
    KeysOf(config.sourceId, ids) * s.running.Keys
  }

  lemma JudgedNowhere(s: Svc, config: Config, refreshed: seq<Issue>)
    ensures JudgedAt(s, s, Polled(s, config, {}), config, refreshed)
  {
  }

  lemma ReleaseShape(t: Svc, key: string)
    ensures Live(Release(t, key)) <= Live(t) && key !in Live(Release(t, key))
    ensures forall k :: k != key ==> SameEntry(t, Release(t, key), k)
  {
  }

  lemma RefreshedShape(t: Svc, key: string, e: RunningEntry)
    requires key in t.running
    ensures var u := t.(running := t.running[key := e]);
            Live(u) == Live(t) && forall k :: k != key ==> SameEntry(t, u, k)
  {
  }

  lemma ReconciledShape(t: Svc, config: Config, id: string, refreshed: seq<Issue>)
    requires Inv(t) && ':' !in id
    ensures var u, key := Reconciled(t, config, id, FindIssue(refreshed, id)), SourceIssueKey(config.sourceId, id);
            && Live(u) <= Live(t) && (key in t.running ==> Judged(t, u, key, config, refreshed))
            && (key !in t.running ==> u == t)
            && forall k :: k != key ==> SameEntry(t, u, k)
  {
    hide ClaimsInv, SourceIssueKey, InStep, GenerationsIssued, Config.IsActiveState, Config.IsTerminalState, FindIssue,
         Release, Live, SameEntry;
    var key, latest := SourceIssueKey(config.sourceId, id), FindIssue(refreshed, id);
    if key in t.running {
      AddressedIssue(t, config.sourceId, id);
      ReleaseShape(t, key);
      if latest.Some? {
        RefreshedShape(t, key, t.running[key].(issue := latest.value, identifier := latest.value.identifier));
      }
    } else {
      SameAsItself(t);
    }
  }

  lemma SameAsItself(t: Svc)
    ensures forall k :: SameEntry(t, t, k)
  {
  }

  lemma SameThenJudged(s: Svc, t: Svc, u: Svc, key: string, config: Config, refreshed: seq<Issue>)
    ensures SameEntry(t, u, key) && SameEntry(s, t, key) ==> SameEntry(s, u, key)
    ensures key in Live(t) && SameEntry(t, u, key) && Judged(s, t, key, config, refreshed) ==>
              Judged(s, u, key, config, refreshed)
    ensures key !in Live(t) && SameEntry(t, u, key) && Judged(s, t, key, config, refreshed) ==>
              Judged(s, u, key, config, refreshed)
    ensures SameEntry(s, t, key) && Judged(t, u, key, config, refreshed) ==> Judged(s, u, key, config, refreshed)
  {
    hide Config.IsActiveState, Config.IsTerminalState, FindIssue;
  }

  lemma JudgedKey(s: Svc, t: Svc, keys: set<string>, config: Config, id: string, refreshed: seq<Issue>)
    requires Inv(t) && ':' !in id && JudgedAt(s, t, keys, config, refreshed)
    requires var key := SourceIssueKey(config.sourceId, id); key in s.running && key !in keys
    ensures JudgedAt(s, Reconciled(t, config, id, FindIssue(refreshed, id)),
                     keys + {SourceIssueKey(config.sourceId, id)},
                     config, refreshed)
  {
    hide Inv, SourceIssueKey, Reconciled, Judged, SameEntry, FindIssue;
    var u, key := Reconciled(t, config, id, FindIssue(refreshed, id)), SourceIssueKey(config.sourceId, id);
    ReconciledShape(t, config, id, refreshed);
    assert key in t.running by { RunningStill(s, t, key); }
    forall k | k in Live(s)
      ensures if k in keys + {key} then Judged(s, u, k, config, refreshed) else SameEntry(s, u, k)
    {
      SameThenJudged(s, t, u, k, config, refreshed);
    }
  }

  lemma RunningStill(s: Svc, t: Svc, key: string)
    requires SameEntry(s, t, key) && key in s.running
    ensures key in t.running
  {
  }

  /** An issue that did not run when the poll was planned does not run now. */
  lemma JudgedElsewhere(s: Svc, t: Svc, keys: set<string>, config: Config, id: string, refreshed: seq<Issue>)
    requires JudgedAt(s, t, keys, config, refreshed) && SourceIssueKey(config.sourceId, id) !in s.running.Keys + keys
    ensures Reconciled(t, config, id, FindIssue(refreshed, id)) == t
  {
    hide SourceIssueKey, Judged, FindIssue;
    assert SameEntry(s, t, SourceIssueKey(config.sourceId, id));
  }

  lemma JudgedOneMore(s: Svc, t: Svc, seen: set<string>, config: Config, id: string, refreshed: seq<Issue>)
    requires Inv(t) && JudgedAt(s, t, Polled(s, config, seen), config, refreshed)
    requires ':' !in id && id !in seen && forall i :: i in seen ==> ':' !in i
    ensures JudgedAt(s, Reconciled(t, config, id, FindIssue(refreshed, id)), Polled(s, config, seen + {id}), config,
                     refreshed)
  {
    hide Inv, SourceIssueKey, Reconciled, JudgedAt, FindIssue, KeysOf;
    var key, keys := SourceIssueKey(config.sourceId, id), Polled(s, config, seen);
    assert KeysOf(config.sourceId, seen + {id}) == KeysOf(config.sourceId, seen) + {key} && key !in keys by {
      KeyOfMember(config.sourceId, seen + {id}, id);
      KeysOfLess(config.sourceId, seen + {id}, id);
      assert seen + {id} - {id} == seen;
    }
    if key in s.running {
      JudgedKey(s, t, keys, config, id, refreshed);
      assert Polled(s, config, seen + {id}) == keys + {key};
    } else {
      JudgedElsewhere(s, t, keys, config, id, refreshed);
      assert Polled(s, config, seen + {id}) == keys;
    }
  }

  // ---- Messages and commands

  /** `t` is `s` with the retries at `keys` put off to a later attempt, and nothing else changed. */
  ghost predicate PostponedAt(s: Svc, t: Svc, keys: set<string>, cap: nat, now: nat) {
    && t.running == s.running && t.retries.Keys == s.retries.Keys
    && forall k :: k in s.retries ==>
         if k in keys then exists later: nat :: later >= now && t.retries[k] == PostponedRetry(s.retries[k], cap, later)
         else t.retries[k] == s.retries[k]
  }

  lemma PostponedNowhere(s: Svc, cap: nat, now: nat)
    ensures PostponedAt(s, s, {}, cap, now)
  {
  }

  lemma PostponedOneMore(s: Svc, t: Svc, keys: set<string>, key: string, cap: nat, now: nat, later: nat)
    requires PostponedAt(s, t, keys, cap, now) && key in s.retries && key !in keys && later >= now
    ensures key in t.retries && t.retries[key] == s.retries[key]
    ensures PostponedAt(s, t.(retries := t.retries[key := PostponedRetry(t.retries[key], cap, later)]), keys + {key},
                        cap, now)
  {
    hide PostponedRetry;
  }

  /** The configurations are those of the sources. */
  predicate ConfigsFit(sources: set<string>, configs: seq<Config>) {
    && (forall i :: 0 <= i < |configs| ==> configs[i].sourceId in sources)
    && forall id :: id in sources ==> FindConfig(configs, id).Some?
  }

  /** A task belongs to a running issue of a configured source, whose id and key belong together. */
  lemma WorkerRuns(s: Svc, key: string)
    requires Inv(s) && !s.stopped && key in s.tasks
    ensures key in s.running && s.running[key].sourceId in s.sources
    ensures key == SourceIssueKey(s.running[key].sourceId, s.running[key].issue.id)
    ensures s.running[key].issue.id !in s.leaked
  {
    hide SourceIssueKey, Exclusive;
    OwnKey(s, key);
    assert OwnerOf(s, key).issueId !in s.leaked;
  }

  lemma WorkerMatches(s: Svc, key: string, generation: nat)
    requires Inv(s) && !s.stopped
    ensures Matches(s, key, generation) <==> key in s.tasks && s.tasks[key].generation == generation
    ensures Matches(s, key, generation) ==>
              && key in s.running && s.running[key].sourceId in s.sources && s.running[key].issue.id !in s.leaked
              && key == SourceIssueKey(s.running[key].sourceId, s.running[key].issue.id)
  {
    hide Inv, SourceIssueKey;
    if Matches(s, key, generation) {
      WorkerRuns(s, key);
    }
  }

  /** Forgetting a worker's issue by its own id leaves nothing behind. */
  lemma ReleaseOwn(s: Svc, key: string)
    requires key in s.running && s.running[key].issue.id !in s.leaked
    ensures Release(s, key).(leaked := s.leaked + OwnedId(s, key) - {s.running[key].issue.id}) == Release(s, key)
    ensures Release(s, key).draining == s.draining
  {
  }

  lemma OutcomeApplies(s: Svc, key: string, generation: nat, reason: WorkerExitReason, terminal: bool, cap: nat,
                       now: nat)
    requires !s.stopped
    ensures var a := Outcome(key, generation, reason, terminal, cap, now);
            && Enabled(s, a)
            && Apply(s, a) == if !Matches(s, key, generation) || key !in s.running then s
                              else if terminal then Release(s, key)
                              else Exit(s, key, reason, cap, now)
  {
    hide Release, Exit;
  }

  function CapFor(configs: seq<Config>, sourceId: string): nat {
    var config := FindConfig(configs, sourceId);
    if config.Some? then config.value.maxRetryBackoffMs else 0
  }

  /** The outcome of a worker as an action: its backoff cap is that of the issue's source. */
  function OutcomeAction(
      s: Svc, configs: seq<Config>, key: string, generation: nat, reason: WorkerExitReason, terminal: bool,
      now: nat): Action
  {
    var cap := if key in s.running then CapFor(configs, s.running[key].sourceId) else 0;
    Outcome(key, generation, reason, terminal, cap, now)
  }

  function ControlAction(configs: seq<Config>, control: Control, now: nat): Action {
    match control
    case Drain => SetDraining(true)
    case Resume => SetDraining(false)
    case AbortWorkerCommand(sourceId, issueId, generation) =>
      Abort(sourceId, issueId, generation, CapFor(configs, sourceId), now)
    case PromoteRetry(sourceId, issueId) => Promote(SourceIssueKey(sourceId, issueId), now)
  }

  /** What the operator is told about an abort. */
  function AbortResult(s: Svc, key: string, generation: nat): ControlResult {
    if key !in s.tasks then (if key in s.running then Stale else NotFound)
    else if s.tasks[key].generation != generation then Stale
    else Applied(s.draining)
  }

  /** An abort is stale only if the issue's worker has another generation, and finds nothing only if nothing runs. */
  lemma AbortResultMeaning(s: Svc, key: string, generation: nat)
    requires Inv(s) && !s.stopped
    ensures AbortResult(s, key, generation).Applied? <==> key in s.running && s.running[key].generation == generation
    ensures AbortResult(s, key, generation).Stale? <==> key in s.running && s.running[key].generation != generation
    ensures AbortResult(s, key, generation).NotFound? <==> key !in s.running
  {
    hide ClaimsInv, GenerationsIssued;
  }

  lemma AbortApplies(s: Svc, a: Action)
    requires Inv(s) && !s.stopped && a.Abort?
    ensures var key := SourceIssueKey(a.sourceId, a.issueId);
            && Enabled(s, a)
            && (!Matches(s, key, a.generation) ==> Apply(s, a) == s)
            && (Matches(s, key, a.generation) ==> key in s.running)
            && (Matches(s, key, a.generation) && a.sourceId in s.sources ==>
                  Apply(s, a) == Exit(s, key, Failed("worker aborted by operator"), a.cap, a.now))
            && (Matches(s, key, a.generation) && a.sourceId !in s.sources ==>
                  Apply(s, a) == Release(s, key).(leaked := s.leaked + OwnedId(s, key) - {a.issueId}))
            && Apply(s, a).draining == s.draining
  {
    hide SourceIssueKey, Release, Exit, Exclusive, GenerationsIssued;
    var key := SourceIssueKey(a.sourceId, a.issueId);
    if Matches(s, key, a.generation) {
      WorkerRuns(s, key);
      ExitKeepsDraining(s, key, Failed("worker aborted by operator"), a.cap, a.now);
      ReleaseKeepsDraining(s, key);
      if a.sourceId !in s.sources {
        StrayIsAlias(s, a);
        assert a.issueId !in s.leaked;
      }
    }
  }

  // ---- Dispatching

  /** What a dispatch needs, whatever becomes of the workspace. */
  predicate MayDispatch(
      s: Svc, config: Config, issue: Issue, attempt: Option<nat>, target: ExecutionTarget, now: nat)
  {
    Enabled(s, Dispatch(config, issue, attempt, target, 0, Broken(""), now))
  }

  lemma MayDispatchLater(s: Svc, a: Action, now: nat)
    requires a.Dispatch? && MayDispatch(s, a.config, a.issue, a.attempt, a.target, now) && now <= a.now
    ensures Enabled(s, a)
  {
    hide Unclaimed, SourceIssueKey;
  }

  /** The issue's key is free once its retry, if any, is taken out of the table. */
  lemma DispatchFreesKey(s: Svc, a: Action)
    requires Inv(s) && a.Dispatch? && Enabled(s, a)
    ensures var key := SourceIssueKey(a.config.sourceId, a.issue.id);
            var base := WithoutRetry(s, key);
            && key !in s.running && key !in s.tasks && key !in base.retries && Freed(base, key) == base
            && a.config.sourceId in s.sources && ':' !in a.issue.id && Unclaimed(base, a.config.sourceId, a.issue)
  {
    hide Inv, Apply, Enabled, SourceIssueKey, SourceWorkspaceKey, Unclaimed;
    DispatchGuard(s, a);
    DispatchShape(s, a);
    var key := SourceIssueKey(a.config.sourceId, a.issue.id);
    var base := WithoutRetry(s, key);
    assert base.running - {key} == base.running && base.retries - {key} == base.retries;
  }

  lemma FailedStartSeen(c: Svc, s: Svc, base: Svc, a: Action)
    requires Inv(s) && a.Dispatch? && Enabled(s, a) && a.setup.Broken?
    requires base == WithoutRetry(s, SourceIssueKey(a.config.sourceId, a.issue.id))
    requires base == Seen(c, base.tasks, base.nextGeneration, base.stopped)
    ensures var key := SourceIssueKey(a.config.sourceId, a.issue.id);
            var entry := ClaimedEntry(a.config.sourceId, a.issue, a.attempt, a.target, "", a.startedAt, 0);
            Seen(Exit(WithRunning(c, key, entry), key, Failed(a.setup.error), a.config.maxRetryBackoffMs, a.now),
                 base.tasks,
                 base.nextGeneration,
                 base.stopped) == Apply(s, a)
  {
    hide Inv, Apply, Enabled, SourceIssueKey, SourceWorkspaceKey, RetryAfterExit;
    DispatchShape(s, a);
    var key := SourceIssueKey(a.config.sourceId, a.issue.id);
    var entry := ClaimedEntry(a.config.sourceId, a.issue, a.attempt, a.target, "", a.startedAt, 0);
    assert c.running[key := entry] - {key} == c.running;
  }

  lemma StartSeen(c: Svc, s: Svc, base: Svc, a: Action)
    requires Inv(s) && a.Dispatch? && Enabled(s, a) && a.setup.Ready?
    requires base == WithoutRetry(s, SourceIssueKey(a.config.sourceId, a.issue.id))
    requires base == Seen(c, base.tasks, base.nextGeneration, base.stopped)
    ensures var key, g := SourceIssueKey(a.config.sourceId, a.issue.id), base.nextGeneration + 1;
            var entry := ClaimedEntry(a.config.sourceId, a.issue, a.attempt, a.target, a.setup.path, a.startedAt, 0);
            Seen(WithRunning(WithRunning(c, key, entry), key, entry.(generation := g)),
                 base.tasks[key := WorkerTask(g, a.target)], g, base.stopped) == Apply(s, a)
  {
    hide Inv, Apply, Enabled, SourceIssueKey, SourceWorkspaceKey, RetryAfterExit;
    DispatchShape(s, a);
    var key, g := SourceIssueKey(a.config.sourceId, a.issue.id), base.nextGeneration + 1;
    var entry := ClaimedEntry(a.config.sourceId, a.issue, a.attempt, a.target, a.setup.path, a.startedAt, 0);
    assert c.running[key := entry][key := entry.(generation := g)] == c.running[key := entry.(generation := g)];
  }

  lemma ClaimsFree(c: Svc, base: Svc, key: string, sourceId: string, issue: Issue)
    requires base == Seen(c, base.tasks, base.nextGeneration, base.stopped) && Freed(base, key) == base
    requires Unclaimed(base, sourceId, issue)
    ensures Freed(c, key) == c && Unclaimed(c, sourceId, issue)
  {
    hide SourceIssueKey, SourceWorkspaceKey;
    assert forall k :: k in Live(c) ==> OwnerOf(c, k) == OwnerOf(base, k);
  }

  lemma DispatchKeepsDraining(s: Svc, a: Action)
    requires a.Dispatch? && Enabled(s, a)
    ensures Apply(s, a).draining == s.draining
  {
    hide Unclaimed, SourceIssueKey, ClaimedEntry, RetryAfterExit;
  }

  lemma MayDispatchLast(
      s: Svc, config: Config, issue: Issue, attempt: Option<nat>, target: ExecutionTarget, now: nat, later: nat)
    requires MayDispatch(s, config, issue, attempt, target, now) && now <= later
    ensures MayDispatch(s, config, issue, attempt, target, later)
  {
    hide Unclaimed, SourceIssueKey;
  }

  /** An issue that is eligible afresh, with a machine for it, may be dispatched and there is room for it. */
  lemma FreshMayDispatch(s: Svc, config: Config, issue: Issue, limit: nat, now: nat)
    requires !s.stopped && !s.draining && config.sourceId in s.sources && ':' !in issue.id
    requires Dispatchable(s, config, issue) && |s.running| < limit
    ensures var target := SelectExecutionTarget(s.tasks, config).value;
            MayDispatch(s, config, issue, None, target, now) && RoomFor(s, config, limit, issue, target)
    ensures WithoutRetry(s, SourceIssueKey(config.sourceId, issue.id)) == s
  {
    hide OwnerOf, SourceIssueKey, SourceWorkspaceKey, StateCount, StateLimit, HostCount, SelectExecutionTarget,
         Blocked, Config.IsActiveState, Config.IsTerminalState, Unclaimed, Enabled;
    var target := SelectExecutionTarget(s.tasks, config).value;
    SelectedTargetHasRoom(s.tasks, config);
    FreshEnabled(s, Dispatch(config, issue, None, target, 0, Broken(""), now));
  }

  lemma FreshEnabled(s: Svc, a: Action)
    requires a.Dispatch? && a.attempt.None? && !s.stopped && !s.draining && a.config.sourceId in s.sources
             && ':' !in a.issue.id
    requires Dispatchable(s, a.config, a.issue) && SelectExecutionTarget(s.tasks, a.config) == Some(a.target)
    ensures Enabled(s, a) && WithoutRetry(s, SourceIssueKey(a.config.sourceId, a.issue.id)) == s
  {
    hide Eligible, SourceIssueKey, SelectExecutionTarget;
    EligibleKeyFree(s, a.config, a.issue);
  }

  lemma EligibleKeyFree(s: Svc, config: Config, issue: Issue)
    requires Eligible(s, config, issue)
    ensures var key := SourceIssueKey(config.sourceId, issue.id); key !in s.retries && WithoutRetry(s, key) == s
  {
    hide OwnerOf, SourceIssueKey, SourceWorkspaceKey, StateCount, StateLimit, Blocked, Config.IsActiveState,
         Config.IsTerminalState;
    assert s.retries - {SourceIssueKey(config.sourceId, issue.id)} == s.retries;
  }

  // ---- Retries

  datatype Fate = Dropped | Requeued | Redispatched(issue: Issue, target: ExecutionTarget)

  /** What becomes of the due retry at `key`, given the tables before it is taken out. */
  function RetryFate(s: Svc, config: Config, candidates: seq<Issue>, limit: nat, key: string): Fate
    requires key in s.retries
  {
    var retry := s.retries[key];
    var found := FindIssue(candidates, retry.issueId);
    var target := RetryTarget(s.tasks, config, retry);
    if found.None? then Dropped
    else if |s.running| >= limit || !Eligible(WithoutRetry(s, key), config, found.value) || target.None? then Requeued
    else Redispatched(found.value, target.value)
  }

  /** No machine takes the retry: its own has no room, after a normal exit; no configured one has, after a failure. */
  predicate NoMachine(tasks: map<string, WorkerTask>, config: Config, retry: RetryEntry) {
    if retry.error.None? then
      retry.target.Ssh? && HostCount(tasks, retry.target.host) >= config.maxConcurrentAgentsPerHost
    else
      && config.sshHosts != []
      && forall i :: 0 <= i < |config.sshHosts| ==>
           HostCount(tasks, config.sshHosts[i]) >= config.maxConcurrentAgentsPerHost
  }

  /** The retry at `key` has to wait: the limit is reached, its issue is not eligible, or no machine takes it. */
  predicate MustWait(s: Svc, config: Config, limit: nat, key: string, issue: Issue)
    requires key in s.retries
  {
    || |s.running| >= limit || !Eligible(WithoutRetry(s, key), config, issue)
    || NoMachine(s.tasks, config, s.retries[key])
  }

  /** The action dispatches the retry's issue with its attempt, on its own machine or on the first one with room. */
  predicate Redispatches(
      tasks: map<string, WorkerTask>, config: Config, issue: Issue, retry: RetryEntry, a: Action)
  {
    && a.Dispatch? && a.config == config && a.issue == issue && a.attempt == Some(retry.attempt)
    && if retry.error.None? then a.target == retry.target
       else if config.sshHosts == [] then a.target == Local
       else exists i :: 0 <= i < |config.sshHosts| && a.target == Ssh(config.sshHosts[i])
                        && HostCount(tasks, config.sshHosts[i]) < config.maxConcurrentAgentsPerHost
                        && forall j :: 0 <= j < i ==>
                             HostCount(tasks, config.sshHosts[j]) >= config.maxConcurrentAgentsPerHost
  }

  predicate FirstWithId(issues: seq<Issue>, id: string, i: nat) {
    i < |issues| && issues[i].id == id && forall j :: 0 <= j < i ==> issues[j].id != id
  }

  /**
    What has to happen when it is the turn of the retry at `key`: without a candidate for its issue it is dropped;
    otherwise nothing happens if it has to wait, and it is dispatched if it does not.
  */
  predicate RightTurn(
      s: Svc, config: Config, candidates: seq<Issue>, limit: nat, key: string, a: Option<Action>)
    requires key in s.retries
  {
    var retry := s.retries[key];
    if forall i :: 0 <= i < |candidates| ==> candidates[i].id != retry.issueId then
      a.Some? && a.value.DropRetry? && a.value.key == key
    else
      exists i :: 0 <= i < |candidates| && FirstWithId(candidates, retry.issueId, i)
                  && if MustWait(s, config, limit, key, candidates[i]) then a.None?
                     else a.Some? && Redispatches(s.tasks, config, candidates[i], retry, a.value)
  }

  lemma RetryTargetMeaning(tasks: map<string, WorkerTask>, config: Config, retry: RetryEntry)
    ensures RetryTarget(tasks, config, retry).None? <==> NoMachine(tasks, config, retry)
    ensures forall a: Action, issue :: a.Dispatch? && a.config == config && a.issue == issue
                                       && a.attempt == Some(retry.attempt)
                                       && RetryTarget(tasks, config, retry) == Some(a.target) ==>
              Redispatches(tasks, config, issue, retry, a)
  {
    hide HostCount;
    FirstFreeHostMeaning(tasks, config.sshHosts, config.maxConcurrentAgentsPerHost);
  }

  /** The fate is what has to happen. */
  lemma RetryFateMeaning(s: Svc, config: Config, candidates: seq<Issue>, limit: nat, key: string, a: Option<Action>)
    requires key in s.retries && CarriesOut(s, config, key, RetryFate(s, config, candidates, limit, key), a)
    ensures RightTurn(s, config, candidates, limit, key, a)
  {
    hide Eligible, NoMachine, RetryTarget, Redispatches;
    var retry := s.retries[key];
    RetryTargetMeaning(s.tasks, config, retry);
    var i := FindIssueIsFirst(candidates, retry.issueId);
    if i < |candidates| {
      assert candidates[i].id == retry.issueId;
      assert FirstWithId(candidates, retry.issueId, i);
    }
  }

  /** Taking a retry out and putting it back is taking nothing out. */
  lemma PutBackIsSame(s: Svc, key: string)
    requires key in s.retries
    ensures Waiting(WithoutRetry(s, key), key, s.retries[key]) == s
  {
    assert (s.retries - {key})[key := s.retries[key]] == s.retries;
  }

  lemma TakenIsRequeueable(
      c: Svc, s: Svc, key: string, claimed: set<string>, issueIds: set<string>, workspaceKeys: set<string>)
    requires Inv(s) && key in s.retries
    requires WithoutRetry(s, key) == Seen(c, s.tasks, s.nextGeneration, s.stopped)
    requires Sound(c, claimed, issueIds, workspaceKeys)
    ensures Requeueable(c, key, s.retries[key], claimed, issueIds, workspaceKeys)
  {
    hide ClaimsInv, SourceIssueKey, InStep, GenerationsIssued, IndexesOf;
    OwnKey(s, key);
    PutBackIsSame(s, key);
    SameTablesKeepClaims(s, Waiting(c, key, s.retries[key]));
  }

  lemma RetryMayDispatch(s: Svc, config: Config, candidates: seq<Issue>, limit: nat, key: string, now: nat)
    requires Inv(s) && !s.stopped && !s.draining && key in s.retries && s.retries[key].sourceId == config.sourceId
    requires s.retries[key].dueAt <= now && RetryFate(s, config, candidates, limit, key).Redispatched?
    ensures var fate := RetryFate(s, config, candidates, limit, key);
            && key == SourceIssueKey(config.sourceId, fate.issue.id)
            && MayDispatch(s, config, fate.issue, Some(s.retries[key].attempt), fate.target, now)
            && RoomFor(s, config, limit, fate.issue, fate.target)
  {
    hide SourceIssueKey, SourceWorkspaceKey, StateCount, StateLimit, HostCount, SelectExecutionTarget, Blocked,
         Unclaimed, ClaimsInv, GenerationsIssued, InStep, FindIssue;
    OwnKey(s, key);
    SelectedTargetHasRoom(s.tasks, config);
  }

  /** The action, if any, that carries out a fate. */
  predicate CarriesOut(s: Svc, config: Config, key: string, fate: Fate, a: Option<Action>)
    requires key in s.retries
  {
    match fate
    case Dropped => a.Some? && a.value.DropRetry? && a.value.key == key && a.value.sourceId == config.sourceId
    case Requeued => a.None?
    case Redispatched(issue, target) =>
      && a.Some? && a.value.Dispatch? && a.value.config == config && a.value.issue == issue
      && a.value.attempt == Some(s.retries[key].attempt) && a.value.target == target
  }

  lemma NoTaskWaits(s: Svc, key: string)
    requires Inv(s) && !s.stopped
    ensures key in s.tasks ==> key !in s.retries
  {
    hide ClaimsInv, GenerationsIssued;
  }

  lemma DropApplies(s: Svc, key: string, candidates: seq<Issue>, now: nat)
    requires !s.stopped && key in s.retries && s.retries[key].dueAt <= now
    requires FindIssue(candidates, s.retries[key].issueId).None?
    ensures var a := DropRetry(key, s.retries[key].sourceId, candidates, now);
            Enabled(s, a) && Apply(s, a) == WithoutRetry(s, key)
    ensures WithoutRetry(s, key).draining == s.draining
  {
  }

  /**
    What has become in `t` of the retry that was due at `key` in `s`: gone if its issue is no candidate, and otherwise
    still waiting as it was, running with its attempt number, or waiting for the next attempt.
  */
  predicate Settled(s: Svc, t: Svc, key: string, candidates: seq<Issue>) {
    && key in s.retries && key !in s.running
    && var retry := s.retries[key];
       var found := FindIssue(candidates, retry.issueId);
       if found.None? then key !in Live(t)
       else if key in t.running then
         && key !in t.retries && t.running[key].issue == found.value && t.running[key].sourceId == retry.sourceId
         && t.running[key].retryAttempt == Some(retry.attempt)
         && (retry.error.None? ==> t.running[key].target == retry.target)
       else key in t.retries && (t.retries[key] == retry || IsNextAttempt(retry, t.retries[key]))
  }

  predicate IsNextAttempt(r: RetryEntry, n: RetryEntry) {
    && n.attempt == Max(SaturatingAdd(r.attempt, 1, U32_MAX), 1) && n.error.Some? && n.issueId == r.issueId
    && n.sourceId == r.sourceId && (r.error.None? ==> n.target == r.target)
  }

  /** `t` is `s` with the retries at `keys` settled and nothing else changed. */
  predicate SettledAt(s: Svc, t: Svc, keys: set<string>, candidates: seq<Issue>) {
    && Live(t) <= Live(s)
    && forall k :: k in Live(s) ==> if k in keys then Settled(s, t, k, candidates) else SameEntry(s, t, k)
  }

  lemma SettledNowhere(s: Svc, candidates: seq<Issue>)
    ensures SettledAt(s, s, {}, candidates)
  {
  }

  lemma StillWaits(s: Svc, t: Svc, keys: set<string>, candidates: seq<Issue>, key: string)
    requires SettledAt(s, t, keys, candidates) && key in s.retries && key !in keys
    ensures key in t.retries && t.retries[key] == s.retries[key]
  {
    hide Settled;
    assert SameEntry(s, t, key);
  }

  /** The state after an action, if there is one. */
  function AfterAny(t: Svc, a: Option<Action>): Svc
    requires a.Some? ==> Enabled(t, a.value)
  {
    if a.Some? then Apply(t, a.value) else t
  }

  lemma StartSettles(t: Svc, key: string, e: RunningEntry, candidates: seq<Issue>)
    requires key in t.retries && key !in t.running
    requires var retry := t.retries[key];
             && FindIssue(candidates, retry.issueId) == Some(e.issue) && e.sourceId == retry.sourceId
             && e.retryAttempt == Some(retry.attempt)
             && (retry.error.None? ==> e.target == retry.target)
    ensures var u := Started(WithoutRetry(t, key), key, e);
            Live(u) <= Live(t) && Settled(t, u, key, candidates) && forall k :: k != key ==> SameEntry(t, u, k)
  {
    hide FindIssue, IsNextAttempt;
  }

  lemma NextAttemptSettles(t: Svc, key: string, n: RetryEntry, candidates: seq<Issue>)
    requires key in t.retries && key !in t.running && IsNextAttempt(t.retries[key], n)
    requires FindIssue(candidates, t.retries[key].issueId).Some?
    ensures var u := Waiting(WithoutRetry(t, key), key, n);
            Live(u) <= Live(t) && Settled(t, u, key, candidates) && forall k :: k != key ==> SameEntry(t, u, k)
  {
    hide FindIssue, IsNextAttempt;
  }

  lemma DropSettles(t: Svc, key: string, candidates: seq<Issue>)
    requires key in t.retries && key !in t.running && FindIssue(candidates, t.retries[key].issueId).None?
    ensures var u := WithoutRetry(t, key);
            Live(u) <= Live(t) && Settled(t, u, key, candidates) && forall k :: k != key ==> SameEntry(t, u, k)
  {
    hide FindIssue;
  }

  /** Carrying out a fate settles the retry and touches nothing else. */
  lemma FateSettles(t: Svc, config: Config, candidates: seq<Issue>, limit: nat, key: string, a: Option<Action>,
                    now: nat)
    requires Inv(t) && !t.stopped && !t.draining && key in t.retries && t.retries[key].sourceId == config.sourceId
    requires t.retries[key].dueAt <= now
    requires a.Some? ==> Enabled(t, a.value)
    requires CarriesOut(t, config, key, RetryFate(t, config, candidates, limit, key), a)
    ensures var u := AfterAny(t, a);
            Live(u) <= Live(t) && Settled(t, u, key, candidates) && forall k :: k != key ==> SameEntry(t, u, k)
  {
    hide ClaimsInv, InStep, GenerationsIssued, Enabled, Apply, SourceIssueKey, SourceWorkspaceKey, FindIssue, Eligible,
         RetryTarget, SelectExecutionTarget, Live, Settled, Started, Waiting, WithoutRetry, MayDispatch, RoomFor;
    match RetryFate(t, config, candidates, limit, key)
    case Dropped =>
      DropShape(t, a.value);
      DropSettles(t, key, candidates);
    case Requeued =>
      NothingSettles(t, key, candidates);
    case Redispatched(issue, target) =>
      RetryMayDispatch(t, config, candidates, limit, key, now);
      RedispatchSettles(t, a.value, candidates);
  }

  /** Carrying out a fate leaves every other issue as it was. */
  lemma OthersKept(t: Svc, config: Config, candidates: seq<Issue>, limit: nat, key: string, a: Option<Action>, now: nat)
    requires Inv(t) && !t.stopped && !t.draining && key in t.retries && t.retries[key].sourceId == config.sourceId
    requires t.retries[key].dueAt <= now
    requires a.Some? ==> Enabled(t, a.value)
    requires CarriesOut(t, config, key, RetryFate(t, config, candidates, limit, key), a)
    ensures forall k :: k != key ==> SameEntry(t, AfterAny(t, a), k)
  {
    FateSettles(t, config, candidates, limit, key, a, now);
  }

  lemma NothingSettles(t: Svc, key: string, candidates: seq<Issue>)
    requires key in t.retries && key !in t.running && FindIssue(candidates, t.retries[key].issueId).Some?
    ensures Settled(t, t, key, candidates) && forall k :: SameEntry(t, t, k)
  {
    hide FindIssue;
  }

  lemma RedispatchSettles(t: Svc, a: Action, candidates: seq<Issue>)
    requires Inv(t) && a.Dispatch? && Enabled(t, a) && a.attempt.Some?
    requires var key := SourceIssueKey(a.config.sourceId, a.issue.id);
             && key in t.retries && FindIssue(candidates, t.retries[key].issueId) == Some(a.issue)
             && t.retries[key].sourceId == a.config.sourceId
    ensures var key, u := SourceIssueKey(a.config.sourceId, a.issue.id), Apply(t, a);
            Live(u) <= Live(t) && Settled(t, u, key, candidates) && forall k :: k != key ==> SameEntry(t, u, k)
  {
    hide Inv, Apply, SourceIssueKey, SourceWorkspaceKey, FindIssue, Live, Settled, SameEntry, Started, Waiting,
         Unclaimed, WithoutRetry;
    var key := SourceIssueKey(a.config.sourceId, a.issue.id);
    DispatchShape(t, a);
    if a.setup.Ready? {
      StartSettles(t, key, EntryOf(t, a), candidates);
    } else {
      NextAttemptSettles(t, key, FailedSetupRetry(a), candidates);
    }
  }

  lemma DropShape(t: Svc, a: Action)
    requires Enabled(t, a) && a.DropRetry?
    ensures Apply(t, a) == WithoutRetry(t, a.key)
  {
  }

  lemma SameThenSettled(s: Svc, t: Svc, u: Svc, key: string, candidates: seq<Issue>)
    ensures SameEntry(t, u, key) && SameEntry(s, t, key) ==> SameEntry(s, u, key)
    ensures SameEntry(t, u, key) && Settled(s, t, key, candidates) ==> Settled(s, u, key, candidates)
    ensures SameEntry(s, t, key) && Settled(t, u, key, candidates) ==> Settled(s, u, key, candidates)
  {
    hide FindIssue, IsNextAttempt;
  }

  lemma RetryStep(
      s: Svc, t: Svc, keys: set<string>, config: Config, candidates: seq<Issue>, limit: nat, key: string,
      a: Option<Action>,
      now: nat)
    requires SettledAt(s, t, keys, candidates) && key in s.retries && key !in keys
    requires Inv(t) && !t.stopped && !t.draining && key in t.retries && t.retries[key].sourceId == config.sourceId
    requires t.retries[key].dueAt <= now
    requires a.Some? ==> Enabled(t, a.value)
    requires CarriesOut(t, config, key, RetryFate(t, config, candidates, limit, key), a)
    ensures SettledAt(s, AfterAny(t, a), keys + {key}, candidates)
  {
    hide Inv, Enabled, AfterAny, Settled, SameEntry, CarriesOut, RetryFate;
    var u := AfterAny(t, a);
    FateSettles(t, config, candidates, limit, key, a, now);
    forall k | k in Live(s)
      ensures if k in keys + {key} then Settled(s, u, k, candidates) else SameEntry(s, u, k)
    {
      SameThenSettled(s, t, u, k, candidates);
    }
  }

  // ---- Every retry has its turn

  /**
    Of the steps from `from` to `to`, the retry at `key` had its turn at `n`: it was there, and what had to happen did.
    If that was nothing, it is there still.
  */
  predicate HadTurn(
      sources: set<string>, trace: Trace, to: nat, config: Config, candidates: seq<Issue>, limit: nat, key: string,
      retry: RetryEntry, n: nat, taken: bool)
    requires n <= to <= |trace|
  {
    var s := StateAt(sources, trace, n);
    && (if taken then n < to else Keeps(StateAt(sources, trace, to), key, retry)) && Keeps(s, key, retry)
    && RightTurn(s, config, candidates, limit, key, if taken then Some(trace[n].action) else None)
  }

  predicate Keeps(s: Svc, key: string, retry: RetryEntry) {
    key in s.retries && s.retries[key] == retry
  }

  /** Every retry at one of the keys had its turn. */
  predicate AllHadTurns(
      sources: set<string>, trace: Trace, from: nat, to: nat, config: Config, candidates: seq<Issue>, limit: nat,
      keys: set<string>)
    requires from <= to <= |trace|
  {
    var s := StateAt(sources, trace, from);
    forall k :: k in keys ==>
      k in s.retries
      && exists n: nat, taken ::
           from <= n <= to && HadTurn(sources, trace, to, config, candidates, limit, k, s.retries[k], n, taken)
  }

  lemma NoTurnsYet(
      sources: set<string>, trace: Trace, config: Config, candidates: seq<Issue>, limit: nat)
    ensures AllHadTurns(sources, trace, |trace|, |trace|, config, candidates, limit, {})
  {
  }

  /** The turns had so far are not touched by what happens to another retry. */
  lemma TurnStays(
      sources: set<string>, before: Trace, after: Trace, config: Config, candidates: seq<Issue>, limit: nat,
      key: string, retry: RetryEntry, n: nat, taken: bool)
    requires n <= |before| && before <= after
    requires HadTurn(sources, before, |before|, config, candidates, limit, key, retry, n, taken)
    requires SameEntry(Final(sources, before), Final(sources, after), key)
    ensures HadTurn(sources, after, |after|, config, candidates, limit, key, retry, n, taken)
  {
    hide RightTurn;
    assert StateAt(sources, after, n) == StateAt(sources, before, n);
  }

  /** One more retry has its turn, with at most one step. */
  lemma OneMoreTurn(
      sources: set<string>, from: nat, before: Trace, after: Trace, config: Config, candidates: seq<Issue>, limit: nat,
      keys: set<string>, key: string, a: Option<Action>)
    requires from <= |before| && AllHadTurns(sources, before, from, |before|, config, candidates, limit, keys)
    requires key in StateAt(sources, before, from).retries
             && Keeps(Final(sources, before), key, StateAt(sources, before, from).retries[key])
    requires RightTurn(Final(sources, before), config, candidates, limit, key, a)
    requires if a.None? then after == before
             else |after| == |before| + 1 && before <= after && after[|before|].action == a.value
    requires forall k :: k in keys ==> SameEntry(Final(sources, before), Final(sources, after), k)
    ensures AllHadTurns(sources, after, from, |after|, config, candidates, limit, keys + {key})
  {
    hide HadTurn, SameEntry;
    var s := StateAt(sources, before, from);
    assert StateAt(sources, after, from) == s;
    forall k | k in keys
      ensures k in s.retries
      ensures exists n: nat, taken :: from <= n <= |after| &&
                HadTurn(sources, after, |after|, config, candidates, limit, k, s.retries[k], n, taken)
    {
      var n: nat, taken :| from <= n <= |before|
                           && HadTurn(sources, before, |before|, config, candidates, limit, k, s.retries[k], n, taken);
      TurnStays(sources, before, after, config, candidates, limit, k, s.retries[k], n, taken);
    }
    TurnHad(sources, before, after, config, candidates, limit, key, s.retries[key], a);
    assert from <= |before| <= |after|;
  }

  lemma TurnHad(
      sources: set<string>, before: Trace, after: Trace, config: Config, candidates: seq<Issue>, limit: nat,
      key: string, retry: RetryEntry, a: Option<Action>)
    requires Keeps(Final(sources, before), key, retry)
    requires RightTurn(Final(sources, before), config, candidates, limit, key, a)
    requires if a.None? then after == before
             else |after| == |before| + 1 && before <= after && after[|before|].action == a.value
    ensures HadTurn(sources, after, |after|, config, candidates, limit, key, retry, |before|, a.Some?)
  {
    hide RightTurn;
    assert StateAt(sources, after, |before|) == Final(sources, before);
  }

  /** Later steps do not change what happened. */
  lemma TurnsStay(
      sources: set<string>, before: Trace, after: Trace, from: nat, to: nat, config: Config, candidates: seq<Issue>,
      limit: nat, keys: set<string>)
    requires from <= to <= |before| && before <= after
    requires AllHadTurns(sources, before, from, to, config, candidates, limit, keys)
    ensures AllHadTurns(sources, after, from, to, config, candidates, limit, keys)
  {
    hide RightTurn;
    assert forall n :: 0 <= n <= |before| ==> StateAt(sources, after, n) == StateAt(sources, before, n);
    var s := StateAt(sources, before, from);
    forall k | k in keys
      ensures k in s.retries
      ensures exists n: nat, taken :: from <= n <= to &&
                HadTurn(sources, after, to, config, candidates, limit, k, s.retries[k], n, taken)
    {
      var n: nat, taken :| from <= n <= to
                           && HadTurn(sources, before, to, config, candidates, limit, k, s.retries[k], n, taken);
      assert HadTurn(sources, after, to, config, candidates, limit, k, s.retries[k], n, taken);
    }
  }

  /**
    The states a pass over the due retries goes through, source by source, the clocks it reads, and how many steps were
    taken by then.
  */
  datatype RetryLog = RetryLog(views: seq<Svc>, nowMs: seq<nat>, ends: seq<nat>)

  /** In the pass over the retries of each source, every one that was due had its turn. */
  predicate TurnsBy(log: RetryLog, sources: set<string>, trace: Trace, runs: seq<SourceRun>, limit: nat) {
    && |log.views| == |log.ends| == |runs| + 1 && |log.nowMs| == |runs|
    && forall i :: 0 <= i < |runs| ==>
         RunHadTurns(log.views[i], sources, trace, log.ends[i], log.ends[i + 1], runs[i], log.nowMs[i], limit)
  }

  predicate RunHadTurns(
      s: Svc, sources: set<string>, trace: Trace, from: nat, to: nat, run: SourceRun, now: nat, limit: nat)
  {
    && from <= to <= |trace| && StateAt(sources, trace, from) == s
    && AllHadTurns(sources, trace, from, to, run.config, run.candidates, limit, DueKeys(s, run.config.sourceId, now))
  }

  lemma TurnsExtend(
      log: RetryLog, longer: RetryLog, sources: set<string>, before: Trace, after: Trace, runs: seq<SourceRun>, i: nat,
      limit: nat)
    requires i < |runs| && before <= after && TurnsBy(log, sources, before, runs[..i], limit)
    requires |longer.views| == |longer.ends| == i + 2 && |longer.nowMs| == i + 1
    requires longer.views[..i + 1] == log.views && longer.nowMs[..i] == log.nowMs && longer.ends[..i + 1] == log.ends
    requires RunHadTurns(longer.views[i], sources, after, longer.ends[i], longer.ends[i + 1], runs[i], longer.nowMs[i],
                         limit)
    ensures TurnsBy(longer, sources, after, runs[..i + 1], limit)
  {
    hide RunHadTurns;
    forall j | 0 <= j < i + 1
      ensures RunHadTurns(longer.views[j], sources, after, longer.ends[j], longer.ends[j + 1], runs[..i + 1][j],
                          longer.nowMs[j], limit)
    {
      if j < i {
        assert RunHadTurns(log.views[j], sources, before, log.ends[j], log.ends[j + 1], runs[..i][j], log.nowMs[j],
                           limit);
        RunTurnsStay(log.views[j], sources, before, after, log.ends[j], log.ends[j + 1], runs[j], log.nowMs[j], limit);
      }
    }
  }

  lemma RunTurnsStay(
      s: Svc, sources: set<string>, before: Trace, after: Trace, from: nat, to: nat, run: SourceRun, now: nat,
      limit: nat)
    requires before <= after && RunHadTurns(s, sources, before, from, to, run, now, limit)
    ensures RunHadTurns(s, sources, after, from, to, run, now, limit)
  {
    hide AllHadTurns;
    TurnsStay(sources, before, after, from, to, run.config, run.candidates, limit,
              DueKeys(s, run.config.sourceId, now));
  }

  /** From `s` to `t`, source by source, the retries that were due were settled, and nothing else changed. */
  predicate SettledBy(log: RetryLog, s: Svc, t: Svc, runs: seq<SourceRun>) {
    && |log.views| == |runs| + 1 && |log.nowMs| == |runs|
    && log.views[0] == s && log.views[|runs|] == t
    && forall i :: 0 <= i < |runs| ==> RunSettled(log.views[i], log.views[i + 1], runs[i], log.nowMs[i])
  }

  predicate RunSettled(s: Svc, t: Svc, run: SourceRun, now: nat) {
    SettledAt(s, t, DueKeys(s, run.config.sourceId, now), run.candidates)
  }

  lemma SettledExtends(log: RetryLog, longer: RetryLog, s: Svc, runs: seq<SourceRun>, i: nat)
    requires i < |runs| && |log.views| == i + 1 && SettledBy(log, s, log.views[i], runs[..i])
    requires |longer.views| == i + 2 && |longer.nowMs| == i + 1
    requires longer.views[..i + 1] == log.views && longer.nowMs[..i] == log.nowMs
    requires RunSettled(log.views[i], longer.views[i + 1], runs[i], longer.nowMs[i])
    ensures SettledBy(longer, s, longer.views[i + 1], runs[..i + 1])
  {
    hide RunSettled;
    forall j | 0 <= j < i + 1
      ensures RunSettled(longer.views[j], longer.views[j + 1], runs[..i + 1][j], longer.nowMs[j])
    {
      if j < i {
        assert RunSettled(log.views[j], log.views[j + 1], runs[..i][j], log.nowMs[j]);
      }
    }
  }

  /** A pass over the retries loses no issue but those whose own source took part and does not list them. */
  lemma PassKeepsIssue(log: RetryLog, s: Svc, t: Svc, runs: seq<SourceRun>, key: string)
    requires SettledBy(log, s, t, runs) && key in Live(s)
    requires forall i :: 0 <= i < |runs| && runs[i].config.sourceId == OwnerOf(s, key).sourceId ==>
               FindIssue(runs[i].candidates, OwnerOf(s, key).issueId).Some?
    ensures key in Live(t) && SameIssue(s, t, key)
  {
    hide FindIssue;
    KeptUpTo(log, s, t, runs, key, |runs|);
  }

  predicate SameIssue(s: Svc, t: Svc, key: string)
    requires key in Live(s) && key in Live(t)
  {
    OwnerOf(t, key).sourceId == OwnerOf(s, key).sourceId && OwnerOf(t, key).issueId == OwnerOf(s, key).issueId
  }

  lemma {:induction false} KeptUpTo(log: RetryLog, s: Svc, t: Svc, runs: seq<SourceRun>, key: string, n: nat)
    requires SettledBy(log, s, t, runs) && key in Live(s) && n <= |runs|
    requires forall i :: 0 <= i < |runs| && runs[i].config.sourceId == OwnerOf(s, key).sourceId ==>
               FindIssue(runs[i].candidates, OwnerOf(s, key).issueId).Some?
    ensures key in Live(log.views[n]) && SameIssue(s, log.views[n], key)
  {
    hide FindIssue;
    if n > 0 {
      KeptUpTo(log, s, t, runs, key, n - 1);
      assert RunSettled(log.views[n - 1], log.views[n], runs[n - 1], log.nowMs[n - 1]);
      RunKeepsIssue(log.views[n - 1], log.views[n], runs[n - 1], log.nowMs[n - 1], key);
    }
  }

  lemma RunKeepsIssue(s: Svc, t: Svc, run: SourceRun, now: nat, key: string)
    requires RunSettled(s, t, run, now) && key in Live(s)
    requires run.config.sourceId == OwnerOf(s, key).sourceId ==>
               FindIssue(run.candidates, OwnerOf(s, key).issueId).Some?
    ensures key in Live(t) && SameIssue(s, t, key)
  {
    hide FindIssue;
    var due := DueKeys(s, run.config.sourceId, now);
    assert if key in due then Settled(s, t, key, run.candidates) else SameEntry(s, t, key);
  }

  lemma RetryWithinLimits(
      first: Svc, t: Svc, configs: seq<Config>, config: Config, candidates: seq<Issue>, limit: nat, key: string,
      a: Option<Action>, now: nat)
    requires WithinLimits(first, t, configs, limit) && config in configs
    requires Inv(t) && !t.stopped && !t.draining && key in t.retries && t.retries[key].sourceId == config.sourceId
    requires t.retries[key].dueAt <= now
    requires a.Some? ==> Enabled(t, a.value)
    requires CarriesOut(t, config, key, RetryFate(t, config, candidates, limit, key), a)
    ensures WithinLimits(first, AfterAny(t, a), configs, limit)
  {
    hide Inv, Enabled, Apply, RoomFor, MayDispatch, Eligible, WithinLimits, SourceIssueKey, FindIssue, RetryTarget;
    match RetryFate(t, config, candidates, limit, key)
    case Dropped =>
      DropShape(t, a.value);
      SameCounts(first, t, WithoutRetry(t, key), configs, limit);
    case Requeued =>
    case Redispatched(issue, target) =>
      var i: nat :| i < |configs| && configs[i] == config;
      RetryMayDispatch(t, config, candidates, limit, key, now);
      DispatchWithinLimits(first, t, a.value, configs, i, limit);
  }

  lemma SameCounts(s: Svc, t: Svc, u: Svc, configs: seq<Config>, limit: nat)
    requires WithinLimits(s, t, configs, limit) && u.running == t.running && u.tasks == t.tasks
    ensures WithinLimits(s, u, configs, limit)
  {
    hide NoMoreThan, StateCount, HostCount;
  }

  // ---- Passes

  /** The runs are of the service's sources; tracker ids have no colon. */
  predicate RunsFit(sources: set<string>, runs: seq<SourceRun>) {
    forall i :: 0 <= i < |runs| ==> runs[i].config.sourceId in sources && IdsFit(runs[i].candidates)
  }

  predicate IdsFit(issues: seq<Issue>) {
    forall i :: 0 <= i < |issues| ==> ':' !in issues[i].id
  }

  lemma CandidatesFit(sources: set<string>, runs: seq<SourceRun>, order: seq<Candidate>)
    requires RunsFit(sources, runs) && FromRuns(runs, order)
    ensures forall m :: 0 <= m < |order| ==> order[m].sourceId in sources && ':' !in order[m].issue.id
  {
  }

  /**
    What polling a source gave. `answered` is false when the tracker could not be reached at all; `candidates` is
    None when the configuration does not allow dispatching.
  */
  datatype Poll = Poll(
    config: Config, answered: bool, refreshed: Result<seq<Issue>, string>,
    candidates: Option<Result<seq<Issue>, string>>)

  predicate PollsFit(sources: set<string>, polls: seq<Poll>) {
    forall i :: 0 <= i < |polls| ==>
      && polls[i].config.sourceId in sources
      && (polls[i].candidates.Some? && polls[i].candidates.value.Ok? ==> IdsFit(polls[i].candidates.value.value))
  }

  datatype Message =
    | EventMessage(key: string, generation: nat, event: CodexEvent)
    | OutcomeMessage(key: string, generation: nat, reason: WorkerExitReason, terminal: bool)
    | ControlMessage(control: Control)
    | Wake

  /** What a message makes the loop do. */
  function MessageAction(s: Svc, configs: seq<Config>, message: Message, now: nat): Option<Action> {
    match message
    case EventMessage(key, generation, event) => Some(Event(key, generation, event))
    case OutcomeMessage(key, generation, reason, terminal) =>
      Some(OutcomeAction(s, configs, key, generation, reason, terminal, now))
    case ControlMessage(control) => Some(ControlAction(configs, control, now))
    case Wake => None
  }

  // ---- What messages do to the tables

  predicate IsCurrent(s: Svc, key: string, generation: nat) {
    key in s.running && s.running[key].generation == generation
  }

  /** `config` is the configuration in force for the source: the first of its name. */
  predicate InForce(configs: seq<Config>, sourceId: string, config: Config) {
    exists i :: 0 <= i < |configs| && configs[i] == config && configs[i].sourceId == sourceId
                && forall j :: 0 <= j < i ==> configs[j].sourceId != sourceId
  }

  lemma FoundInForce(configs: seq<Config>, sourceId: string)
    requires FindConfig(configs, sourceId).Some?
    ensures InForce(configs, sourceId, FindConfig(configs, sourceId).value)
    ensures CapFor(configs, sourceId) == FindConfig(configs, sourceId).value.maxRetryBackoffMs
  {
    var first := FindConfigIsFirst(configs, sourceId);
  }

  lemma CurrentMatches(s: Svc, key: string, generation: nat)
    requires Inv(s) && !s.stopped
    ensures Matches(s, key, generation) <==> IsCurrent(s, key, generation)
  {
    hide ClaimsInv, GenerationsIssued;
  }

  predicate CapsFit(configs: seq<Config>) {
    forall i :: 0 <= i < |configs| ==> configs[i].maxRetryBackoffMs <= U64_MAX
  }

  /** An event of a current worker touches its session, its history and the totals, and nothing else; others nothing. */
  lemma EventMessageMeaning(s: Svc, configs: seq<Config>, key: string, generation: nat, event: CodexEvent, now: nat)
    requires Inv(s) && !s.stopped
    ensures var a := MessageAction(s, configs, EventMessage(key, generation, event), now);
            && (a.Some? ==> Enabled(s, a.value))
            && var t := AfterAny(s, a);
               if !IsCurrent(s, key, generation) then t == s
               else
                 && OnlyAt(s, t, key) && t.leaked == s.leaked && t.retries == s.retries && t.tasks == s.tasks
                 && key in t.running && t.running[key] == s.running[key].(session := t.running[key].session)
                 && t.running[key].session == SessionAfter(s.running[key].session, event)
                 && t.totals == TotalsAfter(s.totals, s.running[key].session, event)
                 && key in t.recent && t.recent[key] != []
                 && t.recent[key][|t.recent[key]| - 1] ==
                    RecentEvent(event.timestamp, event.event,
                                if event.message.Some? then Some(Utf8.BoundedMessage(event.message.value)) else None)
  {
    hide Inv, SessionAfter, TotalsAfter;
    CurrentMatches(s, key, generation);
    if IsCurrent(s, key, generation) {
      var e := s.running[key].(session := SessionAfter(s.running[key].session, event));
      assert s.running[key := e] - {key} == s.running - {key};
      var history := PushEvent(HistoryOf(s.recent, key), Summary(event));
      assert s.recent[key := history] - {key} == s.recent - {key};
    }
  }

  /**
    The outcome of a current worker: after a terminal one its issue is forgotten, after any other it waits, with the
    backoff cap in force for its own source. Any other outcome changes nothing.
  */
  lemma OutcomeMessageMeaning(
      s: Svc, configs: seq<Config>, key: string, generation: nat, reason: WorkerExitReason, terminal: bool, now: nat)
    requires Inv(s) && !s.stopped && ConfigsFit(s.sources, configs) && CapsFit(configs)
    ensures var a := MessageAction(s, configs, OutcomeMessage(key, generation, reason, terminal), now);
            && (a.Some? ==> Enabled(s, a.value))
            && var t := AfterAny(s, a);
               if !IsCurrent(s, key, generation) then t == s
               else if terminal then GoneFrom(s, t, key) && t.leaked == s.leaked
               else exists config :: InForce(configs, s.running[key].sourceId, config)
                                     && LeftWaiting(s, t, key, reason, config.maxRetryBackoffMs, now)
  {
    hide Inv, GoneFrom, LeftWaiting, InForce, Matches, IsCurrent, Enabled, Apply, FindConfig;
    CurrentMatches(s, key, generation);
    var a := OutcomeAction(s, configs, key, generation, reason, terminal, now);
    OutcomeApplies(s, key, generation, reason, terminal, a.cap, now);
    WorkerMatches(s, key, generation);
    if Matches(s, key, generation) {
      var config := FindConfig(configs, s.running[key].sourceId);
      FoundInForce(configs, s.running[key].sourceId);
      ReleaseMeaning(s, key);
      ExitMeaning(s, key, reason, config.value.maxRetryBackoffMs, now);
    }
  }

  /**
    The operator's commands. Draining and resuming set the mode; a promoted retry is due now; an abort of the current
    worker leaves its issue waiting if the command's source is configured, and otherwise forgets it and leaves its id
    claimed. Nothing else changes.
  */
  lemma ControlMessageMeaning(s: Svc, configs: seq<Config>, control: Control, now: nat)
    requires Inv(s) && !s.stopped && ConfigsFit(s.sources, configs) && CapsFit(configs)
    ensures var a := MessageAction(s, configs, ControlMessage(control), now);
            && (a.Some? ==> Enabled(s, a.value))
            && var t := AfterAny(s, a);
               match control
               case Drain => t == s.(draining := true)
               case Resume => t == s.(draining := false)
               case PromoteRetry(sourceId, issueId) =>
                 var key := SourceIssueKey(sourceId, issueId);
                 && OnlyAt(s, t, key) && t == s.(retries := t.retries) && t.retries.Keys == s.retries.Keys
                 && (key in s.retries ==> t.retries[key] == s.retries[key].(dueAt := now))
               case AbortWorkerCommand(sourceId, issueId, generation) =>
                 var key := SourceIssueKey(sourceId, issueId);
                 if !IsCurrent(s, key, generation) then t == s
                 else if exists i :: 0 <= i < |configs| && configs[i].sourceId == sourceId then
                   exists config :: InForce(configs, sourceId, config)
                                    && LeftWaiting(s, t, key, Failed("worker aborted by operator"),
                                                   config.maxRetryBackoffMs, now)
                 else GoneFrom(s, t, key) && t.leaked == s.leaked + {s.running[key].issue.id}
  {
    hide Inv, SourceIssueKey, FindConfig;
    match control
    case PromoteRetry(sourceId, issueId) =>
      var key := SourceIssueKey(sourceId, issueId);
      if key in s.retries {
        assert s.retries[key := s.retries[key].(dueAt := now)] - {key} == s.retries - {key};
      }
    case AbortWorkerCommand(sourceId, issueId, generation) =>
      AbortCommandMeaning(s, configs, sourceId, issueId, generation, now);
    case _ =>
  }

  lemma AbortCommandMeaning(
      s: Svc, configs: seq<Config>, sourceId: string, issueId: string, generation: nat, now: nat)
    requires Inv(s) && !s.stopped && ConfigsFit(s.sources, configs) && CapsFit(configs)
    ensures var a, key := Abort(sourceId, issueId, generation, CapFor(configs, sourceId), now),
                          SourceIssueKey(sourceId, issueId);
            && Enabled(s, a)
            && if !IsCurrent(s, key, generation) then Apply(s, a) == s
               else if exists i :: 0 <= i < |configs| && configs[i].sourceId == sourceId then
                 exists config :: InForce(configs, sourceId, config)
                                  && LeftWaiting(s, Apply(s, a), key, Failed("worker aborted by operator"),
                                                 config.maxRetryBackoffMs, now)
               else GoneFrom(s, Apply(s, a), key) && Apply(s, a).leaked == s.leaked + {s.running[key].issue.id}
  {
    hide Inv, SourceIssueKey, FindConfig, InForce, LeftWaiting, Enabled, Apply, Matches, IsCurrent;
    var a, key := Abort(sourceId, issueId, generation, CapFor(configs, sourceId), now),
                  SourceIssueKey(sourceId, issueId);
    AbortApplies(s, a);
    CurrentMatches(s, key, generation);
    if Matches(s, key, generation) {
      if exists i :: 0 <= i < |configs| && configs[i].sourceId == sourceId {
        FoundInForce(configs, sourceId);
        ExitMeaning(s, key, Failed("worker aborted by operator"), CapFor(configs, sourceId), now);
      } else {
        StrayForgets(s, a);
      }
    }
  }

  lemma StrayForgets(s: Svc, a: Action)
    requires Inv(s) && !s.stopped && IsStray(s, a) && Enabled(s, a)
    ensures var key := SourceIssueKey(a.sourceId, a.issueId);
            && key in s.running && GoneFrom(s, Apply(s, a), key)
            && Apply(s, a).leaked == s.leaked + {s.running[key].issue.id}
  {
    hide Inv, SourceIssueKey, Release, OnlyAt;
    StrayIsAlias(s, a);
    ReleaseMeaning(s, SourceIssueKey(a.sourceId, a.issueId));
    GoneBesides(s, Release(s, SourceIssueKey(a.sourceId, a.issueId)), SourceIssueKey(a.sourceId, a.issueId),
                Apply(s, a).leaked);
  }

  lemma GoneBesides(s: Svc, t: Svc, key: string, leaked: set<string>)
    requires GoneFrom(s, t, key)
    ensures GoneFrom(s, t.(leaked := leaked), key)
  {
  }

  datatype Round = Round(configs: seq<Config>, polls: seq<Poll>, message: Message)

  function RunningIds(s: Svc, sourceId: string): set<string> {
    set k | k in s.running && s.running[k].sourceId == sourceId :: s.running[k].issue.id
  }

  lemma RunningIdsFit(s: Svc, state: OrchestratorState, sourceId: string)
    requires Inv(s) && s.running == state.running
    ensures state.RunningIssueIdsForSource(sourceId) == RunningIds(s, sourceId)
    ensures forall id :: id in RunningIds(s, sourceId) ==> ':' !in id
  {
    hide Inv, SourceIssueKey;
    forall id | id in RunningIds(s, sourceId)
      ensures ':' !in id
    {
      var k :| k in s.running && s.running[k].sourceId == sourceId && s.running[k].issue.id == id;
      OwnKey(s, k);
    }
  }

  function DueKeys(s: Svc, sourceId: string, now: nat): set<string> {
    set k | k in s.retries && s.retries[k].sourceId == sourceId && s.retries[k].dueAt <= now
  }

  lemma DueOf(s: Svc, state: OrchestratorState, config: Config, now: nat)
    requires s.retries == state.retryAttempts
    ensures state.DueRetryKeysForSource(config.sourceId, now) == DueKeys(s, config.sourceId, now)
    ensures forall k :: k in DueKeys(s, config.sourceId, now) <==>
              k in s.retries && s.retries[k].sourceId == config.sourceId && now >= s.retries[k].dueAt
  {
  }

  /** The states a planning loop goes through, and the clocks it reads. */
  datatype PlanLog = PlanLog(views: seq<Svc>, nowUtc: seq<int>, nowMs: seq<nat>)

  /** From `s` to `t`, source by source, stalled workers were ended and the ids of what then ran were noted. */
  predicate PlannedBy(log: PlanLog, s: Svc, t: Svc, polls: seq<Poll>, ids: seq<set<string>>) {
    && |log.views| == |polls| + 1 && |log.nowUtc| == |log.nowMs| == |ids| == |polls|
    && log.views[0] == s && log.views[|polls|] == t
    && forall i :: 0 <= i < |polls| ==>
         PollPlanned(log.views[i], log.views[i + 1], polls[i].config, log.nowUtc[i], log.nowMs[i], ids[i])
  }

  predicate PollPlanned(s: Svc, t: Svc, config: Config, nowUtc: int, nowMs: nat, ids: set<string>) {
    && EndedAt(s, t, StalledKeys(s, config, nowUtc), Stalled("codex stalled"), config.maxRetryBackoffMs, nowMs)
    && ids == RunningIds(t, config.sourceId)
    && forall id :: id in ids ==> ':' !in id
  }

  lemma PlanExtends(log: PlanLog, longer: PlanLog, s: Svc, polls: seq<Poll>, i: nat, ids: seq<set<string>>)
    requires i < |polls| && |ids| == i + 1 && |log.views| == i + 1
    requires PlannedBy(log, s, log.views[i], polls[..i], ids[..i])
    requires |longer.views| == i + 2 && |longer.nowUtc| == |longer.nowMs| == i + 1
    requires longer.views[..i + 1] == log.views && longer.nowUtc[..i] == log.nowUtc && longer.nowMs[..i] == log.nowMs
    requires PollPlanned(log.views[i], longer.views[i + 1], polls[i].config, longer.nowUtc[i], longer.nowMs[i], ids[i])
    ensures PlannedBy(longer, s, longer.views[i + 1], polls[..i + 1], ids)
  {
    hide PollPlanned;
    forall j | 0 <= j < i + 1
      ensures PollPlanned(longer.views[j], longer.views[j + 1], polls[..i + 1][j].config, longer.nowUtc[j],
                          longer.nowMs[j], ids[j])
    {
      if j < i {
        assert PollPlanned(log.views[j], log.views[j + 1], polls[..i][j].config, log.nowUtc[j], log.nowMs[j],
                           ids[..i][j]);
      }
    }
  }

  lemma PlannedIdsFit(log: PlanLog, s: Svc, t: Svc, polls: seq<Poll>, ids: seq<set<string>>)
    requires PlannedBy(log, s, t, polls, ids)
    ensures |ids| == |polls| && forall i :: 0 <= i < |ids| ==> forall id :: id in ids[i] ==> ':' !in id
  {
    forall i | 0 <= i < |ids|
      ensures forall id :: id in ids[i] ==> ':' !in id
    {
      assert PollPlanned(log.views[i], log.views[i + 1], polls[i].config, log.nowUtc[i], log.nowMs[i], ids[i]);
    }
  }

  /** A poll's answer carried out: first the verdict on running issues, then, without candidates, the due retries. */
  ghost predicate PollApplied(s: Svc, mid: Svc, t: Svc, poll: Poll, ids: set<string>, nowMs: nat) {
    && (if poll.answered && poll.refreshed.Ok?
        then JudgedAt(s, mid, Polled(s, poll.config, ids), poll.config, poll.refreshed.value)
        else mid == s)
    && (if poll.answered && poll.candidates.Some? && poll.candidates.value.Err?
        then PostponedAt(mid, t, DueKeys(mid, poll.config.sourceId, nowMs), poll.config.maxRetryBackoffMs, nowMs)
        else t == mid)
  }

  /** The states a pass over the answers goes through: before each, between its halves, and the clock. */
  datatype PollLog = PollLog(views: seq<Svc>, mids: seq<Svc>, nowMs: seq<nat>)

  ghost predicate AppliedBy(log: PollLog, s: Svc, t: Svc, polls: seq<Poll>, ids: seq<set<string>>) {
    && |log.views| == |polls| + 1 && |log.mids| == |log.nowMs| == |ids| == |polls|
    && log.views[0] == s && log.views[|polls|] == t
    && forall i :: 0 <= i < |polls| ==>
         PollApplied(log.views[i], log.mids[i], log.views[i + 1], polls[i], ids[i], log.nowMs[i])
  }

  lemma AppliedExtends(log: PollLog, longer: PollLog, s: Svc, polls: seq<Poll>, i: nat, ids: seq<set<string>>)
    requires i < |polls| == |ids| && |log.views| == i + 1
    requires AppliedBy(log, s, log.views[i], polls[..i], ids[..i])
    requires |longer.views| == i + 2 && |longer.mids| == |longer.nowMs| == i + 1
    requires longer.views[..i + 1] == log.views && longer.mids[..i] == log.mids && longer.nowMs[..i] == log.nowMs
    requires PollApplied(log.views[i], longer.mids[i], longer.views[i + 1], polls[i], ids[i], longer.nowMs[i])
    ensures AppliedBy(longer, s, longer.views[i + 1], polls[..i + 1], ids[..i + 1])
  {
    hide PollApplied;
    forall j | 0 <= j < i + 1
      ensures PollApplied(longer.views[j], longer.mids[j], longer.views[j + 1], polls[..i + 1][j], ids[..i + 1][j],
                          longer.nowMs[j])
    {
      if j < i {
        assert PollApplied(log.views[j], log.mids[j], log.views[j + 1], polls[..i][j], ids[..i][j], log.nowMs[j]);
      }
    }
  }

  /** The sources whose candidates were fetched. */
  function RunsOf(polls: seq<Poll>): seq<SourceRun> {
    if polls == [] then []
    else RunsOf(polls[..|polls| - 1]) + RunOf(polls[|polls| - 1])
  }

  function RunOf(poll: Poll): seq<SourceRun> {
    if poll.answered && poll.candidates.Some? && poll.candidates.value.Ok?
    then [SourceRun(poll.config, poll.candidates.value.value)] else []
  }

  lemma NoRuns(sources: set<string>)
    ensures RunsOf([]) == [] && RunsFit(sources, [])
  {
  }

  lemma RunsOfNext(polls: seq<Poll>, i: nat)
    requires i < |polls|
    ensures RunsOf(polls[..i + 1]) == RunsOf(polls[..i]) + RunOf(polls[i])
  {
    assert polls[..i + 1][..i] == polls[..i];
  }

  lemma RunsFitNext(sources: set<string>, polls: seq<Poll>, i: nat)
    requires PollsFit(sources, polls) && i < |polls| && RunsFit(sources, RunsOf(polls[..i]))
    ensures RunsFit(sources, RunsOf(polls[..i]) + RunOf(polls[i]))
  {
    hide RunsOf, IdsFit;
  }

  /** The tracker was reached and gave its candidates. */
  predicate GaveCandidates(poll: Poll) {
    poll.answered && poll.candidates.Some? && poll.candidates.value.Ok?
  }

  /** The runs are those of the polls at `positions`, in their order, and every poll that gave candidates is there. */
  predicate RunsAt(polls: seq<Poll>, positions: seq<nat>, runs: seq<SourceRun>) {
    && |positions| == |runs|
    && (forall j, k :: 0 <= j < k < |positions| ==> positions[j] < positions[k])
    && (forall k :: 0 <= k < |positions| ==>
          && positions[k] < |polls| && GaveCandidates(polls[positions[k]])
          && runs[k] == SourceRun(polls[positions[k]].config, polls[positions[k]].candidates.value.value))
    && forall i :: 0 <= i < |polls| && GaveCandidates(polls[i]) ==> i in positions
  }

  /**
    Exactly the polls that gave candidates take part in dispatching, in their order, whatever became of the refresh of
    running issues.
  */
  lemma {:induction false} RunsOfMeaning(polls: seq<Poll>) returns (positions: seq<nat>)
    ensures RunsAt(polls, positions, RunsOf(polls))
  {
    if polls == [] {
      positions := [];
    } else {
      var init, last := polls[..|polls| - 1], polls[|polls| - 1];
      positions := RunsOfMeaning(init);
      assert polls == init + [last];
      if GaveCandidates(last) {
        RunTaken(init, positions, RunsOf(init), last);
        positions := positions + [|init|];
      } else {
        RunPassed(init, positions, RunsOf(init), last);
        assert RunsOf(init) + [] == RunsOf(init);
      }
    }
  }

  lemma RunPassed(polls: seq<Poll>, positions: seq<nat>, runs: seq<SourceRun>, poll: Poll)
    requires RunsAt(polls, positions, runs) && !GaveCandidates(poll)
    ensures RunsAt(polls + [poll], positions, runs)
  {
  }

  lemma RunTaken(polls: seq<Poll>, positions: seq<nat>, runs: seq<SourceRun>, poll: Poll)
    requires RunsAt(polls, positions, runs) && GaveCandidates(poll)
    ensures RunsAt(polls + [poll], positions + [|polls|],
                   runs + [SourceRun(poll.config, poll.candidates.value.value)])
  {
    var more := positions + [|polls|];
    assert more[|positions|] == |polls|;
    assert forall i :: i in positions ==> i in more;
  }

  function AnswerOf(poll: Poll): Answer {
    Answer(poll.config,
           if poll.answered && poll.refreshed.Ok? then Some(poll.refreshed.value) else None,
           if poll.answered && poll.candidates.Some? && poll.candidates.value.Ok? then Some(poll.candidates.value.value)
           else None)
  }

  function AnswersOf(polls: seq<Poll>): seq<Answer> {
    seq(|polls|, i requires 0 <= i < |polls| => AnswerOf(polls[i]))
  }

  /** The run of a source is an answer of the tick. */
  predicate RunAnswered(run: SourceRun, answers: seq<Answer>) {
    exists k :: 0 <= k < |answers| && answers[k].config == run.config && answers[k].candidates == Some(run.candidates)
  }

  predicate RunsAnswered(runs: seq<SourceRun>, answers: seq<Answer>) {
    forall i :: 0 <= i < |runs| ==> RunAnswered(runs[i], answers)
  }

  lemma {:induction false} RunsOfAnswers(polls: seq<Poll>)
    ensures RunsAnswered(RunsOf(polls), AnswersOf(polls))
  {
    if polls != [] {
      var init, last := polls[..|polls| - 1], polls[|polls| - 1];
      RunsOfAnswers(init);
      var runs := RunsOf(polls);
      forall i | 0 <= i < |runs|
        ensures RunAnswered(runs[i], AnswersOf(polls))
      {
        if i < |RunsOf(init)| {
          assert RunAnswered(RunsOf(init)[i], AnswersOf(init));
          var k :| 0 <= k < |init| && AnswersOf(init)[k].config == runs[i].config
                   && AnswersOf(init)[k].candidates == Some(runs[i].candidates);
          assert AnswersOf(polls)[k] == AnswersOf(init)[k];
        } else {
          assert AnswersOf(polls)[|init|] == AnswerOf(last);
        }
      }
    }
  }

  /** Fresh dispatches are of candidates the trackers gave. */
  lemma PicksGoBy(
      sources: set<string>, trace: Trace, from: nat, runs: seq<SourceRun>, order: seq<Candidate>, picks: seq<nat>,
      limit: nat, answers: seq<Answer>)
    requires FromRuns(runs, order) && GreedyFrom(sources, trace, from, runs, order, picks, limit)
    requires RunsAnswered(runs, answers)
    ensures StepsGoBy(trace, from, answers)
  {
    hide CandidateDispatchable;
    forall i | from <= i < |trace|
      ensures GoesByOne(trace[i].action, answers)
    {
      var j := i - from;
      assert IsPick(StateAt(sources, trace, from + j), trace[from + j].action, runs, order, picks[j], limit);
      var run := order[picks[j]].run;
      assert RunAnswered(runs[run], answers);
      var k :| 0 <= k < |answers| && answers[k].config == runs[run].config
               && answers[k].candidates == Some(runs[run].candidates);
      assert GoesBy(trace[i].action, answers[k]);
    }
  }

  // ---- A pass, a tick, a run of the service

  /** What a dispatch pass records: the order offered, who was picked, the trace up to then, and the retries' log. */
  datatype PassLog = PassLog(order: seq<Candidate>, picks: seq<nat>, offered: Trace, settled: RetryLog)

  /** One dispatch pass: fresh candidates by rank, greedily, and then the due retries of each source. */
  predicate PassBy(log: PassLog, sources: set<string>, before: Trace, after: Trace, runs: seq<SourceRun>) {
    var limit := GlobalLimit(runs);
    && Ranked(log.order) && multiset(log.order) == multiset(CandidatesOf(runs)) && FromRuns(runs, log.order)
    && before <= log.offered <= after
    && GreedyFrom(sources, log.offered, |before|, runs, log.order, log.picks, limit)
    && (|| |Final(sources, log.offered).running| >= limit
        || forall m :: 0 <= m < |log.order| ==> !CandidateDispatchable(Final(sources, log.offered), runs, log.order[m]))
    && NoInversion(sources, log.offered, |before|, runs, log.order, log.picks)
    && SettledBy(log.settled, Final(sources, log.offered), Final(sources, after), runs)
    && TurnsBy(log.settled, sources, after, runs, limit)
  }

  /** What a tick records: whom it asked about, its planning, the answers, and the traces in between. */
  datatype TickLog = TickLog(
    ids: seq<set<string>>, plan: PlanLog, planned: Trace, answers: PollLog, polled: Trace, pass: PassLog)

  /** One tick: end stalled workers, ask every tracker, carry out the answers, and dispatch unless draining. */
  ghost predicate TickBy(log: TickLog, sources: set<string>, before: Trace, after: Trace, polls: seq<Poll>) {
    var runs := RunsOf(polls);
    && before <= log.planned <= log.polled <= after && StepsGoBy(after, |before|, AnswersOf(polls))
    && PlannedBy(log.plan, Final(sources, before), Final(sources, log.planned), polls, log.ids)
    && AppliedBy(log.answers, Final(sources, log.planned), Final(sources, log.polled), polls, log.ids)
    && (if Final(sources, before).draining then after == log.polled
        else PassBy(log.pass, sources, log.polled, after, runs))
    && WithinLimits(Final(sources, log.polled), Final(sources, after), ConfigsOf(runs), GlobalLimit(runs))
  }

  /** One message handled: the action it stands for, or none. */
  predicate MessageBy(
      sources: set<string>, before: Trace, after: Trace, configs: seq<Config>, message: Message, now: nat)
  {
    var s := Final(sources, before);
    var a := MessageAction(s, configs, message, now);
    before <= after && (a.Some? ==> Enabled(s, a.value)) && Final(sources, after) == AfterAny(s, a)
  }

  /** A round of the loop: a tick and then one message. */
  datatype RoundLog = RoundLog(tick: TickLog, ticked: Trace, now: nat)

  ghost predicate RoundBy(log: RoundLog, sources: set<string>, before: Trace, after: Trace, round: Round) {
    && TickBy(log.tick, sources, before, log.ticked, round.polls)
    && MessageBy(sources, log.ticked, after, round.configs, round.message, log.now)
  }

  /** `traces` are the traces before each round and after the last. */
  ghost predicate RoundsBy(logs: seq<RoundLog>, traces: seq<Trace>, sources: set<string>, rounds: seq<Round>) {
    && |logs| == |rounds| && |traces| == |rounds| + 1
    && forall i :: 0 <= i < |rounds| ==> RoundBy(logs[i], sources, traces[i], traces[i + 1], rounds[i])
  }

  lemma RoundsExtend(
      logs: seq<RoundLog>, traces: seq<Trace>, sources: set<string>, rounds: seq<Round>, i: nat, log: RoundLog,
      after: Trace)
    requires i < |rounds| && RoundsBy(logs, traces, sources, rounds[..i])
    requires RoundBy(log, sources, traces[i], after, rounds[i])
    ensures RoundsBy(logs + [log], traces + [after], sources, rounds[..i + 1])
  {
    hide RoundBy;
    forall j | 0 <= j < i + 1
      ensures RoundBy((logs + [log])[j], sources, (traces + [after])[j], (traces + [after])[j + 1], rounds[..i + 1][j])
    {
      if j < i {
        assert RoundBy(logs[j], sources, traces[j], traces[j + 1], rounds[..i][j]);
      }
    }
  }

  /** The messages of workers, one by one; `traces` are the traces before each and after the last. */
  predicate MessagesBy(
      traces: seq<Trace>, clocks: seq<nat>, sources: set<string>, configs: seq<Config>, messages: seq<Message>)
  {
    && |clocks| == |messages| && |traces| == |messages| + 1
    && forall i :: 0 <= i < |messages| ==> MessageBy(sources, traces[i], traces[i + 1], configs, messages[i], clocks[i])
  }

  lemma MessagesExtend(
      traces: seq<Trace>, clocks: seq<nat>, sources: set<string>, configs: seq<Config>, messages: seq<Message>, i: nat,
      now: nat, after: Trace)
    requires i < |messages| && MessagesBy(traces, clocks, sources, configs, messages[..i])
    requires MessageBy(sources, traces[i], after, configs, messages[i], now)
    ensures MessagesBy(traces + [after], clocks + [now], sources, configs, messages[..i + 1])
  {
    hide MessageBy;
    forall j | 0 <= j < i + 1
      ensures MessageBy(sources, (traces + [after])[j], (traces + [after])[j + 1], configs, messages[..i + 1][j],
                        (clocks + [now])[j])
    {
      if j < i {
        assert MessageBy(sources, traces[j], traces[j + 1], configs, messages[..i][j], clocks[j]);
      }
    }
  }

  /** What a shutdown records: how many messages it took, the traces between them, the clocks. */
  datatype ShutdownLog = ShutdownLog(taken: nat, traces: seq<Trace>, clocks: seq<nat>)

  /**
    A shutdown: draining is set, messages of workers are taken while any runs and time is left, and what then still
    runs is killed in one last step.
  */
  predicate ShutdownBy(
      log: ShutdownLog, sources: set<string>, before: Trace, after: Trace, configs: seq<Config>, inbox: seq<Message>)
  {
    && log.taken <= |inbox| && MessagesBy(log.traces, log.clocks, sources, configs, inbox[..log.taken])
    && log.traces[0] == before + [Step(SetDraining(true), Final(sources, before).(draining := true))]
    && var last := log.traces[log.taken];
       var s := Final(sources, last);
       if s.tasks == map[] then after == last
       else log.taken == |inbox| && after == last + [Step(Kill, s.(tasks := map[], stopped := true))]
  }
}
