/**
  The orchestrator's mutable state: the two tables of live issues and, kept beside them by hand, the indexes of
  claimed keys, tracker ids and workspaces that make a claim check three set lookups.
*/
module State {
  import opened Prelude
  import opened Names
  import opened Domain
  import opened Model
  import opened Capacity
  import Retry
  import Utf8

  // ---- What the indexes must hold

  function IssueIds(s: Svc): set<string> {
    set k | k in Live(s) :: OwnerOf(s, k).issueId
  }

  function WorkspaceKeys(s: Svc): set<string> {
    set k | k in Live(s) :: OwnerOf(s, k).workspaceKey
  }

  lemma IndexesUnchanged(s: Svc, t: Svc)
    requires SameOwners(s, t) && Live(s) == Live(t)
    ensures IssueIds(t) == IssueIds(s) && WorkspaceKeys(t) == WorkspaceKeys(s)
  {
    forall k | k in Live(s) ensures OwnerOf(s, k) == OwnerOf(t, k) {}
  }

  lemma IndexesShrink(s: Svc, t: Svc, key: string)
    requires Exclusive(s) && SameOwners(s, t) && key in Live(s) && Live(t) == Live(s) - {key}
    ensures IssueIds(t) == IssueIds(s) - {OwnerOf(s, key).issueId}
    ensures WorkspaceKeys(t) == WorkspaceKeys(s) - {OwnerOf(s, key).workspaceKey}
  {
    hide OwnerOf;
    forall k | k in Live(t)
      ensures Apart(OwnerOf(s, k), OwnerOf(s, key)) && OwnerOf(t, k) == OwnerOf(s, k)
    {
    }
    assert forall k :: k in Live(s) && k != key ==> k in Live(t);
  }

  lemma IndexesGrow(s: Svc, t: Svc, key: string)
    requires Live(t) == Live(s) + {key}
    requires forall k :: k in Live(s) && k != key ==> OwnerOf(t, k) == OwnerOf(s, k)
    requires key in Live(s) ==> OwnerOf(s, key) == OwnerOf(t, key)
    ensures IssueIds(t) == IssueIds(s) + {OwnerOf(t, key).issueId}
    ensures WorkspaceKeys(t) == WorkspaceKeys(s) + {OwnerOf(t, key).workspaceKey}
  {
    assert key in Live(t);
    forall k | k in Live(s) ensures OwnerOf(t, k) == OwnerOf(s, k) {}
  }

  /** A claim check against exact indexes is the check against the tables. */
  lemma IndexLookup(s: Svc, sourceId: string, issue: Issue)
    ensures Unclaimed(s, sourceId, issue) <==>
            && SourceIssueKey(sourceId, issue.id) !in Live(s)
            && issue.id !in IssueIds(s) + s.leaked
            && SourceWorkspaceKey(sourceId, issue.identifier) !in WorkspaceKeys(s)
  {
    forall k | k in Live(s)
      ensures OwnerOf(s, k).issueId in IssueIds(s) && OwnerOf(s, k).workspaceKey in WorkspaceKeys(s)
    {
    }
  }

  /** The three indexes say exactly what the tables of `s` say. */
  predicate IndexesOf(s: Svc, claimed: set<string>, issueIds: set<string>, workspaceKeys: set<string>) {
    claimed == Live(s) && issueIds == IssueIds(s) + s.leaked && workspaceKeys == WorkspaceKeys(s)
  }

  /** Everything the orchestrator's state keeps true of its tables and indexes. */
  predicate Sound(s: Svc, claimed: set<string>, issueIds: set<string>, workspaceKeys: set<string>) {
    s.running.Keys !! s.retries.Keys && ClaimsInv(s) && IndexesOf(s, claimed, issueIds, workspaceKeys)
  }

  /** `retry` may be put under `key`: whether or not its claims are still indexed. */
  predicate Requeueable(
      s: Svc, key: string, retry: RetryEntry, claimed: set<string>, issueIds: set<string>, workspaceKeys: set<string>)
  {
    && key == SourceIssueKey(retry.sourceId, retry.issueId) && key !in Live(s) && s.running.Keys !! s.retries.Keys
    && ClaimsInv(Waiting(s, key, retry))
    && (|| IndexesOf(s, claimed, issueIds, workspaceKeys)
        || IndexesOf(Waiting(s, key, retry), claimed, issueIds, workspaceKeys))
  }

  lemma RequeueSound(
      s: Svc, key: string, retry: RetryEntry, claimed: set<string>, issueIds: set<string>, workspaceKeys: set<string>)
    requires Requeueable(s, key, retry, claimed, issueIds, workspaceKeys)
    ensures Sound(Waiting(s, key, retry), claimed + {key}, issueIds + {retry.issueId},
                  workspaceKeys + {retry.workspaceKey})
  {
    WaitingOwners(s, key, retry);
    IndexesGrow(s, Waiting(s, key, retry), key);
  }

  lemma TakenRetrySound(
      s: Svc, key: string, retry: RetryEntry, claimed: set<string>, issueIds: set<string>, workspaceKeys: set<string>)
    requires key !in Live(s) && Sound(Waiting(s, key, retry), claimed, issueIds, workspaceKeys)
    ensures Sound(s, claimed - {key}, issueIds - ({retry.issueId} - IssueIds(s)),
                  workspaceKeys - ({retry.workspaceKey} - WorkspaceKeys(s)))
  {
    var t := Waiting(s, key, retry);
    WaitingOwners(s, key, retry);
    IndexesShrink(t, s, key);
    assert OwnerOf(t, key).issueId !in s.leaked;
    SameOwnersKeepClaims(t, s);
  }

  /** The tables without whatever stands under `key`. */
  function Freed(s: Svc, key: string): Svc {
    s.(running := s.running - {key}, retries := s.retries - {key})
  }

  lemma FreedOwners(s: Svc, key: string)
    requires s.running.Keys !! s.retries.Keys
    ensures SameOwners(s, Freed(s, key)) && Live(Freed(s, key)) == Live(s) - {key}
  {
  }

  lemma NewRunningOwners(s: Svc, key: string, e: RunningEntry)
    requires key !in Live(s)
    ensures var t := WithRunning(s, key, e);
            && Live(t) == Live(s) + {key} && OwnerOf(t, key) == Owner(e.sourceId, e.issue.id, e.workspaceKey)
            && forall k :: k in Live(s) ==> OwnerOf(t, k) == OwnerOf(s, k)
  {
  }

  /** The workspace an entry displaced under `key` leaves behind. */
  function DisplacedWorkspace(s: Svc, key: string): set<string> {
    if key in Live(s) then {OwnerOf(s, key).workspaceKey} else {}
  }

  function OwnedId(s: Svc, key: string): set<string> {
    if key in Live(s) then {OwnerOf(s, key).issueId} else {}
  }

  lemma FreedIndexes(s: Svc, key: string)
    requires s.running.Keys !! s.retries.Keys && Exclusive(s)
    ensures var t := Freed(s, key);
            && IssueIds(s) == IssueIds(t) + OwnedId(s, key) && IssueIds(t) !! OwnedId(s, key)
            && WorkspaceKeys(s) == WorkspaceKeys(t) + DisplacedWorkspace(s, key)
            && WorkspaceKeys(t) !! DisplacedWorkspace(s, key)
  {
    FreedOwners(s, key);
    if key in Live(s) {
      IndexesShrink(s, Freed(s, key), key);
      assert OwnerOf(s, key).issueId in IssueIds(s) && OwnerOf(s, key).workspaceKey in WorkspaceKeys(s);
    } else {
      IndexesUnchanged(s, Freed(s, key));
    }
  }

  /** Claiming `key` for an issue that is otherwise unclaimed, displacing what stood there. */
  lemma ClaimKeepsClaims(s: Svc, sourceId: string, issue: Issue, e: RunningEntry)
    requires s.running.Keys !! s.retries.Keys && ClaimsInv(s) && sourceId in s.sources && ':' !in issue.id
    requires Unclaimed(Freed(s, SourceIssueKey(sourceId, issue.id)), sourceId, issue)
    requires Owner(e.sourceId, e.issue.id, e.workspaceKey) == ClaimOf(sourceId, issue)
    ensures var key := SourceIssueKey(sourceId, issue.id); ClaimsInv(WithRunning(Freed(s, key), key, e))
  {
    var key := SourceIssueKey(sourceId, issue.id);
    FreedOwners(s, key);
    SameOwnersKeepClaims(s, Freed(s, key));
    NewRunningOwners(Freed(s, key), key, e);
    NewClaimKeepsClaims(Freed(s, key), WithRunning(Freed(s, key), key, e), sourceId, issue);
  }

  lemma ClaimedSets(kept: set<string>, gone: set<string>, own: set<string>)
    ensures kept + gone + own - (gone - (kept + own)) == kept + own
  {
  }

  lemma ReleasedSets(kept: set<string>, gone: set<string>, leaked: set<string>, name: string)
    requires kept !! gone && kept !! leaked
    ensures kept + gone + leaked - ({name} - kept) == kept + (leaked + gone - {name})
  {
  }

  lemma ClaimSound(
      s: Svc, key: string, e: RunningEntry, claimed: set<string>, issueIds: set<string>, workspaceKeys: set<string>)
    requires Sound(s, claimed, issueIds, workspaceKeys)
    requires key == SourceIssueKey(e.sourceId, e.issue.id) && ':' !in e.issue.id
    requires ClaimsInv(WithRunning(Freed(s, key), key, e))
    ensures var t := WithRunning(Freed(s, key), key, e);
            && e.issue.id in IssueIds(t)
            && Sound(t, claimed + {key}, issueIds + {e.issue.id},
                     workspaceKeys + {e.workspaceKey} - (DisplacedWorkspace(s, key) - WorkspaceKeys(t)))
  {
    var b := Freed(s, key);
    var t := WithRunning(b, key, e);
    assert IssueIds(s) + {e.issue.id} == IssueIds(b) + {e.issue.id} by {
      FreedIndexes(s, key);
      OwnIdOnly(s, key, e.sourceId, e.issue.id);
    }
    assert WorkspaceKeys(s) == WorkspaceKeys(b) + DisplacedWorkspace(s, key) by { FreedIndexes(s, key); }
    ClaimedTables(s, key, e);
    ClaimedSets(WorkspaceKeys(b), DisplacedWorkspace(s, key), {e.workspaceKey});
  }

  lemma ClaimedTables(s: Svc, key: string, e: RunningEntry)
    requires s.running.Keys !! s.retries.Keys
    ensures var t := WithRunning(Freed(s, key), key, e);
            && t.running.Keys !! t.retries.Keys && Live(t) == Live(s) + {key}
            && IssueIds(t) == IssueIds(Freed(s, key)) + {e.issue.id}
            && WorkspaceKeys(t) == WorkspaceKeys(Freed(s, key)) + {e.workspaceKey}
  {
    FreedOwners(s, key);
    NewRunningOwners(Freed(s, key), key, e);
    IndexesGrow(Freed(s, key), WithRunning(Freed(s, key), key, e), key);
  }

  /** What stands under an issue's key has that issue's id. */
  lemma OwnIdOnly(s: Svc, key: string, sourceId: string, issueId: string)
    requires ClaimsInv(s) && key == SourceIssueKey(sourceId, issueId) && ':' !in issueId
    ensures OwnedId(s, key) <= {issueId}
  {
    if key in Live(s) {
      assert KeyFits(s.sources, key, OwnerOf(s, key));
      SourceIssueKeyInjective(sourceId, issueId, OwnerOf(s, key).sourceId, OwnerOf(s, key).issueId);
    }
  }

  /** The workspace keys of what stands under `key`, as the program collects them. */
  function DisplacedList(s: Svc, key: string): seq<string> {
    (if key in s.retries then [s.retries[key].workspaceKey] else [])
    + (if key in s.running then [s.running[key].workspaceKey] else [])
  }

  lemma DisplacedListed(s: Svc, key: string)
    requires s.running.Keys !! s.retries.Keys
    ensures (set w | w in DisplacedList(s, key)) == DisplacedWorkspace(s, key)
  {
  }

  /** Forgetting `key` for a caller that names `issueId`: another id that stood there stays claimed. */
  function Forgotten(s: Svc, key: string, issueId: string): Svc {
    Freed(s, key).(leaked := s.leaked + OwnedId(s, key) - {issueId})
  }

  lemma FreedIdsNotLeaked(s: Svc, key: string)
    requires s.running.Keys !! s.retries.Keys && ClaimsInv(s)
    ensures IssueIds(Freed(s, key)) !! s.leaked
  {
    FreedOwners(s, key);
    forall id | id in IssueIds(Freed(s, key))
      ensures id !in s.leaked
    {
      var k :| k in Live(Freed(s, key)) && OwnerOf(Freed(s, key), k).issueId == id;
      assert OwnerOf(Freed(s, key), k) == OwnerOf(s, k);
    }
  }

  lemma ForgottenOwners(s: Svc, key: string, issueId: string)
    requires s.running.Keys !! s.retries.Keys
    ensures SameOwners(s, Forgotten(s, key, issueId))
  {
  }

  lemma ForgottenClaims(s: Svc, key: string, issueId: string)
    requires s.running.Keys !! s.retries.Keys && ClaimsInv(s)
    ensures ClaimsInv(Forgotten(s, key, issueId))
  {
    hide OwnerOf, SourceIssueKey;
    var t := Forgotten(s, key, issueId);
    if key in Live(s) {
      assert KeyFits(s.sources, key, OwnerOf(s, key));
    }
    assert SameOwners(s, t) by { ForgottenOwners(s, key, issueId); }
    forall k | k in Live(t)
      ensures OwnerOf(s, k).issueId !in OwnedId(s, key)
    {
      if key in Live(s) {
        assert Apart(OwnerOf(s, k), OwnerOf(s, key));
      }
    }
    SameOwnersKeepClaims(s, t);
  }

  lemma ForgottenSound(
      s: Svc, key: string, issueId: string, claimed: set<string>, issueIds: set<string>, workspaceKeys: set<string>)
    requires Sound(s, claimed, issueIds, workspaceKeys)
    ensures Sound(Forgotten(s, key, issueId), claimed - {key}, issueIds - ({issueId} - IssueIds(Freed(s, key))),
                  workspaceKeys - (DisplacedWorkspace(s, key) - WorkspaceKeys(Freed(s, key))))
  {
    var b, t := Freed(s, key), Forgotten(s, key, issueId);
    ForgottenClaims(s, key, issueId);
    ForgottenTables(s, key, issueId);
    FreedIndexes(s, key);
    FreedIdsNotLeaked(s, key);
    ReleasedSets(IssueIds(b), OwnedId(s, key), s.leaked, issueId);
  }

  lemma ForgottenTables(s: Svc, key: string, issueId: string)
    requires s.running.Keys !! s.retries.Keys
    ensures var b, t := Freed(s, key), Forgotten(s, key, issueId);
            && t.running.Keys !! t.retries.Keys && Live(t) == Live(s) - {key}
            && IssueIds(t) == IssueIds(b) && WorkspaceKeys(t) == WorkspaceKeys(b)
  {
    assert SameOwners(Freed(s, key), Forgotten(s, key, issueId));
    IndexesUnchanged(Freed(s, key), Forgotten(s, key, issueId));
  }

  lemma SoundTables(s: Svc, claimed: set<string>, issueIds: set<string>, workspaceKeys: set<string>)
    requires Sound(s, claimed, issueIds, workspaceKeys)
    ensures s.running.Keys !! s.retries.Keys && ClaimsInv(s)
  {
  }

  /** An update that changes no owner needs no change of the indexes. */
  lemma SameOwnersSound(s: Svc, t: Svc, claimed: set<string>, issueIds: set<string>, workspaceKeys: set<string>)
    requires Sound(s, claimed, issueIds, workspaceKeys)
    requires SameOwners(s, t) && Live(t) == Live(s) && t.leaked == s.leaked && t.running.Keys !! t.retries.Keys
    ensures Sound(t, claimed, issueIds, workspaceKeys)
  {
    SameOwnersKeepClaims(s, t);
    IndexesUnchanged(s, t);
  }

  lemma UpdateRunningSound(
      s: Svc, key: string, e: RunningEntry, claimed: set<string>, issueIds: set<string>, workspaceKeys: set<string>)
    requires Sound(s, claimed, issueIds, workspaceKeys) && key in s.running
    requires Owner(e.sourceId, e.issue.id, e.workspaceKey) == OwnerOf(s, key)
    ensures Sound(WithRunning(s, key, e), claimed, issueIds, workspaceKeys)
  {
    WithRunningOwners(s, key, e);
    SameOwnersSound(s, WithRunning(s, key, e), claimed, issueIds, workspaceKeys);
  }

  lemma UpdateRetrySound(
      s: Svc, key: string, r: RetryEntry, claimed: set<string>, issueIds: set<string>, workspaceKeys: set<string>)
    requires Sound(s, claimed, issueIds, workspaceKeys) && key in s.retries
    requires Owner(r.sourceId, r.issueId, r.workspaceKey) == OwnerOf(s, key)
    ensures Sound(Waiting(s, key, r), claimed, issueIds, workspaceKeys)
  {
    WaitingSameOwners(s, key, r);
    SameOwnersSound(s, Waiting(s, key, r), claimed, issueIds, workspaceKeys);
  }

  /** Claims and indexes do not look at the statistics. */
  lemma StatisticsSound(s: Svc, t: Svc, claimed: set<string>, issueIds: set<string>, workspaceKeys: set<string>)
    requires Sound(s, claimed, issueIds, workspaceKeys)
    requires t.sources == s.sources && t.running == s.running && t.retries == s.retries && t.leaked == s.leaked
    ensures Sound(t, claimed, issueIds, workspaceKeys)
  {
    assert SameOwners(s, t);
    SameOwnersSound(s, t, claimed, issueIds, workspaceKeys);
  }

  /** A worker's exit leaves room for its own retry, with the claims it already has. */
  lemma ExitRequeueable(
      s: Svc, key: string, reason: WorkerExitReason, cap: nat, now: nat,
      claimed: set<string>, issueIds: set<string>, workspaceKeys: set<string>)
    requires Sound(s, claimed, issueIds, workspaceKeys) && key in s.running
    ensures var retry := RetryAfterExit(s.running[key], reason, cap, now);
            var left := s.(running := s.running - {key}, tasks := s.tasks - {key});
            && Waiting(left, key, retry) == Exit(s, key, reason, cap, now)
            && Requeueable(left, key, retry, claimed, issueIds, workspaceKeys)
  {
    ExitOwners(s, key, reason, cap, now);
    SameOwnersSound(s, Exit(s, key, reason, cap, now), claimed, issueIds, workspaceKeys);
    assert KeyFits(s.sources, key, OwnerOf(s, key));
  }

  datatype ReconcileDecision = NoRunningEntry | RefreshedActive | CancelTerminal | CancelNonActive | MissingFromTracker

  /** What reconciliation decides about a running issue, given what the tracker says of it now. */
  function Decide(running: bool, latest: Option<Issue>, config: Config): ReconcileDecision {
    if !running then NoRunningEntry
    else if latest.None? then MissingFromTracker
    else if config.IsTerminalState(latest.value.state) then CancelTerminal
    else if !config.IsActiveState(latest.value.state) then CancelNonActive
    else RefreshedActive
  }

  /** The decision by the states' names, whatever their case: being terminal counts first, then being active. */
  lemma DecideMeaning(running: bool, latest: Option<Issue>, config: Config)
    ensures match Decide(running, latest, config)
            case NoRunningEntry => !running
            case MissingFromTracker => running && latest == None
            case CancelTerminal => running && latest.Some? && OneOf(config.terminalStates, latest.value.state)
            case CancelNonActive =>
              && running && latest.Some? && !OneOf(config.terminalStates, latest.value.state)
              && !OneOf(config.activeStates, latest.value.state)
            case RefreshedActive =>
              && running && latest.Some? && !OneOf(config.terminalStates, latest.value.state)
              && OneOf(config.activeStates, latest.value.state)
  {
    hide OneOf;
    if latest.Some? {
      StatesMeaning(config, latest.value.state);
    }
  }

  class OrchestratorState {
    var draining: bool
    var running: map<string, RunningEntry>
    var claimed: set<string>
    var claimedIssueIds: set<string>
    var claimedWorkspaceKeys: set<string>
    var retryAttempts: map<string, RetryEntry>
    var completed: set<string>
    var codexTotals: TokenTotals
    var recentEvents: map<string, seq<RecentEvent>>
    /** The configured sources, and the tracker ids that are claimed although no live issue has them. */
    ghost const sources: set<string>
    ghost var leaked: set<string>

    /** The state without its indexes and without worker tasks. */
    ghost function Claims(): Svc
      reads this
    {
      Svc(sources, running, retryAttempts, map[], 0, draining, leaked, codexTotals, recentEvents, true)
    }

    ghost predicate Valid()
      reads this
    {
      Sound(Claims(), claimed, claimedIssueIds, claimedWorkspaceKeys)
    }

    constructor (ghost sources: set<string>)
      ensures this.sources == sources
      ensures Valid() && Claims() == Initial(sources).(stopped := true) && completed == {}
    {
      draining := false;
      running, claimed, claimedIssueIds, claimedWorkspaceKeys, retryAttempts := map[], {}, {}, {}, map[];
      completed, codexTotals, recentEvents := {}, NO_TOKENS, map[];
      leaked := {};
      this.sources := sources;
    }

    /** Whether the issue, its tracker id or its workspace is taken. */
    predicate IsIssueOrWorkspaceClaimedForSource(sourceId: string, issue: Issue)
      reads this
    {
      || SourceIssueKey(sourceId, issue.id) in claimed
      || issue.id in claimedIssueIds
      || SourceWorkspaceKey(sourceId, issue.identifier) in claimedWorkspaceKeys
    }

    lemma ClaimCheckIsExact(sourceId: string, issue: Issue)
      requires Valid()
      ensures IsIssueOrWorkspaceClaimedForSource(sourceId, issue) <==> !Unclaimed(Claims(), sourceId, issue)
    {
      IndexLookup(Claims(), sourceId, issue);
    }

    // ---- Indexes one by one

    predicate OwnedByRunning(issueId: string)
      reads this
    {
      exists k :: k in running && running[k].issue.id == issueId
    }

    predicate OwnedByRetry(issueId: string)
      reads this
    {
      exists k :: k in retryAttempts && retryAttempts[k].issueId == issueId
    }

    predicate WorkspaceOwnedByRunning(workspaceKey: string)
      reads this
    {
      exists k :: k in running && running[k].workspaceKey == workspaceKey
    }

    predicate WorkspaceOwnedByRetry(workspaceKey: string)
      reads this
    {
      exists k :: k in retryAttempts && retryAttempts[k].workspaceKey == workspaceKey
    }

    lemma OwnedIsIndexed(issueId: string, workspaceKey: string)
      requires running.Keys !! retryAttempts.Keys
      ensures OwnedByRunning(issueId) || OwnedByRetry(issueId) <==> issueId in IssueIds(Claims())
      ensures WorkspaceOwnedByRunning(workspaceKey) || WorkspaceOwnedByRetry(workspaceKey) <==>
              workspaceKey in WorkspaceKeys(Claims())
    {
      var s := Claims();
      forall k | k in Live(s)
        ensures k in running ==> OwnerOf(s, k).issueId == running[k].issue.id
        ensures k in running ==> OwnerOf(s, k).workspaceKey == running[k].workspaceKey
        ensures k in retryAttempts ==> OwnerOf(s, k).issueId == retryAttempts[k].issueId
        ensures k in retryAttempts ==> OwnerOf(s, k).workspaceKey == retryAttempts[k].workspaceKey
      {
      }
      assert forall k :: k in running ==> k in Live(s);
      assert forall k :: k in retryAttempts ==> k in Live(s);
    }

    method ReleaseTrackerIssueIdIfUnowned(issueId: string)
      requires running.Keys !! retryAttempts.Keys
      modifies this`claimedIssueIds
      ensures claimedIssueIds == old(claimedIssueIds) - ({issueId} - IssueIds(Claims()))
    {
      OwnedIsIndexed(issueId, "");
      if !OwnedByRunning(issueId) && !OwnedByRetry(issueId) {
        claimedIssueIds := claimedIssueIds - {issueId};
      }
    }

    method ReleaseWorkspaceKeyIfUnowned(workspaceKey: string)
      requires running.Keys !! retryAttempts.Keys
      modifies this`claimedWorkspaceKeys
      ensures claimedWorkspaceKeys == old(claimedWorkspaceKeys) - ({workspaceKey} - WorkspaceKeys(Claims()))
    {
      OwnedIsIndexed("", workspaceKey);
      if !WorkspaceOwnedByRunning(workspaceKey) && !WorkspaceOwnedByRetry(workspaceKey) {
        claimedWorkspaceKeys := claimedWorkspaceKeys - {workspaceKey};
      }
    }

    method ClaimRetry(retry: RetryEntry)
      modifies this`claimed, this`claimedIssueIds, this`claimedWorkspaceKeys
      ensures claimed == old(claimed) + {SourceIssueKey(retry.sourceId, retry.issueId)}
      ensures claimedIssueIds == old(claimedIssueIds) + {retry.issueId}
      ensures claimedWorkspaceKeys == old(claimedWorkspaceKeys) + {retry.workspaceKey}
    {
      claimed := claimed + {SourceIssueKey(retry.sourceId, retry.issueId)};
      claimedIssueIds := claimedIssueIds + {retry.issueId};
      claimedWorkspaceKeys := claimedWorkspaceKeys + {retry.workspaceKey};
    }

    // ---- Retries

    /** Puts a retry that is not in the tables into them. */
    method RequeueRetry(retry: RetryEntry)
      requires Requeueable(Claims(), SourceIssueKey(retry.sourceId, retry.issueId), retry,
                           claimed, claimedIssueIds, claimedWorkspaceKeys)
      modifies this`retryAttempts, this`claimed, this`claimedIssueIds, this`claimedWorkspaceKeys
      ensures Valid()
      ensures Claims() == Waiting(old(Claims()), SourceIssueKey(retry.sourceId, retry.issueId), retry)
    {
      hide Sound, Requeueable, SourceIssueKey;
      ghost var s := Claims();
      var key := SourceIssueKey(retry.sourceId, retry.issueId);
      RequeueSound(s, key, retry, claimed, claimedIssueIds, claimedWorkspaceKeys);
      retryAttempts := retryAttempts[key := retry];
      ClaimRetry(retry);
      assert Claims() == Waiting(s, key, retry);
    }

    /** Undoes the claims of a retry just taken out of the table. */
    method ReleaseRetryClaim(retry: RetryEntry)
      requires SourceIssueKey(retry.sourceId, retry.issueId) !in Live(Claims())
      requires Sound(Waiting(Claims(), SourceIssueKey(retry.sourceId, retry.issueId), retry),
                     claimed, claimedIssueIds, claimedWorkspaceKeys)
      modifies this`claimed, this`claimedIssueIds, this`claimedWorkspaceKeys
      ensures Valid()
      ensures Claims() == old(Claims())
    {
      ghost var s := Claims();
      var key := SourceIssueKey(retry.sourceId, retry.issueId);
      TakenRetrySound(s, key, retry, claimed, claimedIssueIds, claimedWorkspaceKeys);
      claimed := claimed - {key};
      ReleaseTrackerIssueIdIfUnowned(retry.issueId);
      ReleaseWorkspaceKeyIfUnowned(retry.workspaceKey);
      assert Claims() == s;
    }

    // ---- Workers

    /** Takes `issue` for a worker about to start. Whatever stood under its key gives way. */
    method ClaimRunningOnTargetForSource(
        sourceId: string, issue: Issue, attempt: Option<nat>, target: ExecutionTarget, workspacePath: string,
        startedAt: int)
      requires Valid() && sourceId in sources && ':' !in issue.id
      requires Unclaimed(Freed(Claims(), SourceIssueKey(sourceId, issue.id)), sourceId, issue)
      modifies this`running, this`retryAttempts, this`claimed, this`claimedIssueIds, this`claimedWorkspaceKeys
      ensures Valid()
      ensures var key := SourceIssueKey(sourceId, issue.id);
              Claims() == WithRunning(Freed(old(Claims()), key), key,
                                      ClaimedEntry(sourceId, issue, attempt, target, workspacePath, startedAt, 0))
    {
      hide Sound, ClaimsInv, Unclaimed, SourceIssueKey, SourceWorkspaceKey, IssueIds, WorkspaceKeys, Live,
           DisplacedWorkspace, DisplacedList;
      SoundTables(Claims(), claimed, claimedIssueIds, claimedWorkspaceKeys);
      ghost var s := Claims();
      var key := SourceIssueKey(sourceId, issue.id);
      var workspaceKey := SourceWorkspaceKey(sourceId, issue.identifier);
      var entry := RunningEntry(issue, sourceId, issue.identifier, workspaceKey, startedAt, attempt, target,
                                workspacePath, 0, None, false);
      ClaimKeepsClaims(s, sourceId, issue, entry);
      ClaimSound(s, key, entry, claimed, claimedIssueIds, claimedWorkspaceKeys);
      DisplacedListed(s, key);
      claimed := claimed + {key};
      claimedIssueIds := claimedIssueIds + {issue.id};
      claimedWorkspaceKeys := claimedWorkspaceKeys + {workspaceKey};
      var displaced := PlaceRunning(key, entry);
      ReleaseWorkspaceKeys(displaced);
      ReleaseTrackerIssueIdIfUnowned(issue.id);
      assert claimedIssueIds == old(claimedIssueIds) + {issue.id};
      assert Claims() == WithRunning(Freed(s, key), key, entry);
    }

    /** Puts an entry into the running table in place of whatever stands under its key. */
    method PlaceRunning(key: string, entry: RunningEntry) returns (displaced: seq<string>)
      modifies this`running, this`retryAttempts
      ensures Claims() == WithRunning(Freed(old(Claims()), key), key, entry)
      ensures displaced == DisplacedList(old(Claims()), key)
    {
      displaced := if key in retryAttempts then [retryAttempts[key].workspaceKey] else [];
      retryAttempts := retryAttempts - {key};
      displaced := displaced + if key in running then [running[key].workspaceKey] else [];
      assert running[key := entry] == (running - {key})[key := entry];
      running := running[key := entry];
    }

    /** Takes whatever stands under a key out of both tables. */
    method RemoveEntries(key: string) returns (workspaceKeys: seq<string>)
      modifies this`running, this`retryAttempts
      ensures Claims() == Freed(old(Claims()), key)
      ensures (set w | w in workspaceKeys) == (set w | w in DisplacedList(old(Claims()), key))
    {
      workspaceKeys := if key in running then [running[key].workspaceKey] else [];
      running := running - {key};
      workspaceKeys := workspaceKeys + if key in retryAttempts then [retryAttempts[key].workspaceKey] else [];
      retryAttempts := retryAttempts - {key};
    }

    method ReleaseWorkspaceKeys(workspaceKeys: seq<string>)
      requires running.Keys !! retryAttempts.Keys
      modifies this`claimedWorkspaceKeys
      ensures claimedWorkspaceKeys ==
                old(claimedWorkspaceKeys) - ((set w | w in workspaceKeys) - WorkspaceKeys(Claims()))
    {
      for n := 0 to |workspaceKeys|
        invariant claimedWorkspaceKeys ==
                  old(claimedWorkspaceKeys) - ((set w | w in workspaceKeys[..n]) - WorkspaceKeys(Claims()))
      {
        assert workspaceKeys[..n + 1] == workspaceKeys[..n] + [workspaceKeys[n]];
        ReleaseWorkspaceKeyIfUnowned(workspaceKeys[n]);
      }
      assert workspaceKeys[..|workspaceKeys|] == workspaceKeys;
    }

    method SetRunningGeneration(key: string, generation: nat) returns (found: bool)
      requires Valid()
      modifies this`running
      ensures Valid()
      ensures found <==> key in old(running)
      ensures running == if found then old(running)[key := old(running)[key].(generation := generation)]
              else old(running)
    {
      found := key in running;
      if found {
        UpdateRunning(key, running[key].(generation := generation));
      }
    }

    /** The worker at `key` ended; its issue waits for a continuation or for another attempt. */
    method WorkerExitByKey(key: string, reason: WorkerExitReason, maxRetryBackoffMs: nat, nowMs: nat)
      returns (r: Option<RetryEntry>)
      requires Valid()
      modifies this
      ensures Valid()
      ensures key !in old(running) ==> r == None && Claims() == old(Claims()) && completed == old(completed)
      ensures key in old(running) ==>
                && Claims() == Exit(old(Claims()), key, reason, maxRetryBackoffMs, nowMs)
                && r == Some(retryAttempts[key])
                && completed == old(completed) + if reason.NormalExit? then {key} else {}
    {
      hide Sound, Requeueable, SourceIssueKey;
      if key !in running {
        return None;
      }
      ghost var s := Claims();
      ExitRequeueable(s, key, reason, maxRetryBackoffMs, nowMs, claimed, claimedIssueIds, claimedWorkspaceKeys);
      var entry := running[key];
      var attempt, dueAt, error;
      if reason.NormalExit? {
        completed := completed + {key};
        attempt, dueAt, error := 1, Retry.ContinuationRetryDueAtMs(nowMs), None;
      } else {
        var previous := if entry.retryAttempt.Some? then entry.retryAttempt.value else 0;
        attempt := Max(SaturatingAdd(previous, 1, U32_MAX), 1);
        dueAt := Retry.FailureRetryDueAtMs(attempt, maxRetryBackoffMs, nowMs);
        error := reason.ErrorMessage();
      }
      var retry := RetryEntry(entry.sourceId, entry.target, entry.workspacePath, entry.issue.id, entry.identifier,
                              entry.workspaceKey, attempt, dueAt, error);
      assert retry == RetryAfterExit(entry, reason, maxRetryBackoffMs, nowMs);
      running := running - {key};
      assert Claims() == s.(running := s.running - {key}, tasks := s.tasks - {key});
      RequeueRetry(retry);
      r := Some(retry);
    }

    /** Forgets an issue: its worker, its retry and its event history. */
    method ReleaseForSource(sourceId: string, issueId: string)
      requires Valid()
      modifies this`running, this`retryAttempts, this`claimed, this`claimedIssueIds, this`claimedWorkspaceKeys,
               this`recentEvents, this`leaked
      ensures Valid()
      ensures var key := SourceIssueKey(sourceId, issueId);
              Claims() == Release(old(Claims()), key).(leaked := old(leaked) + OwnedId(old(Claims()), key) - {issueId})
    {
      hide Sound, ClaimsInv, SourceIssueKey, IssueIds, WorkspaceKeys, Live, DisplacedWorkspace, DisplacedList, OwnedId;
      SoundTables(Claims(), claimed, claimedIssueIds, claimedWorkspaceKeys);
      ghost var s := Claims();
      var key := SourceIssueKey(sourceId, issueId);
      ForgottenSound(s, key, issueId, claimed, claimedIssueIds, claimedWorkspaceKeys);
      DisplacedListed(s, key);
      var workspaceKeys := RemoveEntries(key);
      claimed := claimed - {key};
      ReleaseTrackerIssueIdIfUnowned(issueId);
      ReleaseWorkspaceKeys(workspaceKeys);
      leaked := leaked + OwnedId(s, key) - {issueId};
      assert Claims() == Forgotten(s, key, issueId);
      ForgetHistory(key);
    }

    /** The indexes do not look at the event history. */
    method ForgetHistory(key: string)
      requires Valid()
      modifies this`recentEvents
      ensures Valid() && recentEvents == old(recentEvents) - {key}
    {
      hide Sound;
      ghost var s := Claims();
      recentEvents := recentEvents - {key};
      StatisticsSound(s, Claims(), claimed, claimedIssueIds, claimedWorkspaceKeys);
    }

    /** Brings a running entry up to date with the tracker and decides whether its worker may go on. */
    method ReconcileRunningIssueForSource(sourceId: string, issueId: string, latest: Option<Issue>, config: Config)
      returns (decision: ReconcileDecision)
      requires Valid()
      requires var key := SourceIssueKey(sourceId, issueId);
               key in running && latest.Some? ==> latest.value.id == running[key].issue.id
      modifies this`running
      ensures Valid()
      ensures var key := SourceIssueKey(sourceId, issueId);
              && decision == Decide(key in old(running), latest, config)
              && running == match decision
                 case NoRunningEntry => old(running)
                 case MissingFromTracker => old(running)[key := old(running)[key].(cancelRequested := true)]
                 case RefreshedActive =>
                   old(running)[key := old(running)[key].(issue := latest.value, identifier := latest.value.identifier)]
                 case _ => old(running)[key := old(running)[key].(issue := latest.value,
                                                                  identifier := latest.value.identifier,
                                                                   cancelRequested := true)]
    {
      var key := SourceIssueKey(sourceId, issueId);
      if key !in running {
        return NoRunningEntry;
      }
      var entry := running[key];
      if latest.None? {
        UpdateRunning(key, entry.(cancelRequested := true));
        return MissingFromTracker;
      }
      var refreshed := entry.(issue := latest.value, identifier := latest.value.identifier);
      if config.IsTerminalState(latest.value.state) {
        UpdateRunning(key, refreshed.(cancelRequested := true));
        return CancelTerminal;
      }
      if !config.IsActiveState(latest.value.state) {
        UpdateRunning(key, refreshed.(cancelRequested := true));
        return CancelNonActive;
      }
      UpdateRunning(key, refreshed);
      return RefreshedActive;
    }

    /** Writes a running entry back; what it owns is unchanged. */
    method UpdateRunning(key: string, entry: RunningEntry)
      requires Valid() && key in running
      requires Owner(entry.sourceId, entry.issue.id, entry.workspaceKey) == OwnerOf(Claims(), key)
      modifies this`running
      ensures Valid() && running == old(running)[key := entry]
    {
      hide Sound;
      UpdateRunningSound(Claims(), key, entry, claimed, claimedIssueIds, claimedWorkspaceKeys);
      running := running[key := entry];
      assert Claims() == WithRunning(old(Claims()), key, entry);
    }

    /** Writes a retry back with another attempt, time or error. */
    method UpdateRetry(key: string, retry: RetryEntry)
      requires Valid() && key in retryAttempts
      requires Owner(retry.sourceId, retry.issueId, retry.workspaceKey) == OwnerOf(Claims(), key)
      modifies this`retryAttempts
      ensures Valid() && retryAttempts == old(retryAttempts)[key := retry]
    {
      hide Sound;
      UpdateRetrySound(Claims(), key, retry, claimed, claimedIssueIds, claimedWorkspaceKeys);
      retryAttempts := retryAttempts[key := retry];
      assert Claims() == Waiting(old(Claims()), key, retry);
    }

    // ---- Worker events

    /** The session and the totals after an event of a running issue. */
    method AdvanceSession(session: Option<LiveSession>, ev: CodexEvent) returns (next: Option<LiveSession>)
      modifies this`codexTotals
      ensures next == SessionAfter(session, ev)
      ensures codexTotals == TotalsAfter(old(codexTotals), session, ev)
    {
      if ev.threadId.None? || ev.turnId.None? {
        return if session.Some? then Some(session.value.(lastEventAt := ev.timestamp)) else None;
      }
      var threadId, turnId := ev.threadId.value, ev.turnId.value;
      var current := if session.Some? then session.value else LiveSession(threadId, turnId, ev.timestamp, NO_TOKENS);
      if current.threadId != threadId || current.turnId != turnId {
        current := LiveSession(threadId, turnId, ev.timestamp, NO_TOKENS);
      }
      current := current.(lastEventAt := ev.timestamp);
      if ev.tokens.Some? {
        var total := ev.tokens.value;
        var inputDelta := total.input - current.lastReported.input;
        var outputDelta := total.output - current.lastReported.output;
        var totalDelta := total.total - current.lastReported.total;
        if inputDelta > 0 {
          codexTotals := codexTotals.(input := codexTotals.input + inputDelta);
        }
        if outputDelta > 0 {
          codexTotals := codexTotals.(output := codexTotals.output + outputDelta);
        }
        if totalDelta > 0 {
          codexTotals := codexTotals.(total := codexTotals.total + totalDelta);
        }
        current := current.(lastReported := total);
      }
      next := Some(current);
    }

    method PushRecentEvent(key: string, summary: RecentEvent)
      modifies this`recentEvents
      ensures recentEvents == old(recentEvents)[key := PushEvent(HistoryOf(old(recentEvents), key), summary)]
    {
      var events := if key in recentEvents then recentEvents[key] else [];
      events := events + [summary];
      if |events| > RECENT_EVENT_HISTORY_LIMIT {
        events := events[1..];
      }
      recentEvents := recentEvents[key := events];
    }

    /** Records an event of the worker at `key`; an event of an issue that is not running changes nothing. */
    method ApplyCodexEvent(key: string, ev: CodexEvent)
      requires Valid()
      modifies this`running, this`codexTotals, this`recentEvents
      ensures Valid()
      ensures Claims() == ObservedEvent(old(Claims()), key, ev)
    {
      hide Sound, SessionAfter, TotalsAfter, PushEvent;
      if key !in running {
        return;
      }
      var message := if ev.message.Some? then Some(Utf8.BoundedMessage(ev.message.value)) else None;
      var summary := RecentEvent(ev.timestamp, ev.event, message);
      var entry := running[key];
      ghost var s := Claims();
      var session := AdvanceSession(entry.session, ev);
      PushRecentEvent(key, summary);
      StatisticsSound(s, Claims(), claimed, claimedIssueIds, claimedWorkspaceKeys);
      UpdateRunning(key, entry.(session := session));
      assert Claims() == ObservedEvent(old(Claims()), key, ev);
    }

    // ---- Queries

    function RunningIssueIdsForSource(sourceId: string): (ids: set<string>)
      reads this
      ensures forall k :: k in running && running[k].sourceId == sourceId ==> running[k].issue.id in ids
      ensures forall id :: id in ids ==>
                exists k :: k in running && running[k].sourceId == sourceId && running[k].issue.id == id
    {
      set k | k in running && running[k].sourceId == sourceId :: running[k].issue.id
    }

    function DueRetryKeysForSource(sourceId: string, nowMs: nat): set<string>
      reads this
    {
      set k | k in retryAttempts && retryAttempts[k].sourceId == sourceId && retryAttempts[k].dueAt <= nowMs
    }

    /** Running issues of the source that were silent for longer than the timeout; no timeout, no stalls. */
    function StalledIssueIdsForSource(sourceId: string, config: Config, now: int): set<string>
      reads this
    {
      if config.stallTimeoutMs <= 0 then {}
      else
        set k | k in running && running[k].sourceId == sourceId
                && Max(now - running[k].LastSign(), 0) > config.stallTimeoutMs
          :: running[k].issue.id
    }

    /** Running issues per lower-case state. */
    method RunningStateCounts() returns (counts: map<string, nat>)
      ensures forall state :: CountOf(counts, state) == StateCount(running, state)
    {
      hide StateCount, AsciiLower;
      counts := map[];
      var left := running.Keys;
      ghost var seen: map<string, RunningEntry> := map[];
      forall state { NothingCounted(state); }
      while left != {}
        invariant left <= running.Keys && seen.Keys == running.Keys - left
        invariant forall k :: k in seen ==> seen[k] == running[k]
        invariant forall state :: CountOf(counts, state) == StateCount(seen, state)
        decreases |left|
      {
        var k :| k in left;
        var state := AsciiLower(running[k].issue.state);
        ghost var before, fewer := counts, seen;
        left, seen := left - {k}, seen[k := running[k]];
        counts := counts[state := CountOf(counts, state) + 1];
        OneMoreCounted(before, counts, fewer, seen, k, running[k]);
      }
      assert seen == running;
    }
  }

  function CountOf(counts: map<string, nat>, state: string): nat {
    if state in counts then counts[state] else 0
  }

  lemma OneMoreCounted(
      counts: map<string, nat>, more: map<string, nat>, seen: map<string, RunningEntry>,
      after: map<string, RunningEntry>, key: string, e: RunningEntry)
    requires key !in seen && forall state :: CountOf(counts, state) == StateCount(seen, state)
    requires after == seen[key := e]
    requires var state := AsciiLower(e.issue.state); more == counts[state := CountOf(counts, state) + 1]
    ensures forall state :: CountOf(more, state) == StateCount(after, state)
  {
    hide StateCount, AsciiLower;
    forall state
      ensures CountOf(more, state) == StateCount(after, state)
    {
      StateCountAdds(seen, key, e, state);
    }
  }
}
