/**
  The orchestrator as a transition system. Its state holds the two tables of live issues, the registry of worker
  tasks and the statistics, but none of the claim indexes the program keeps beside them: what is claimed follows
  from the tables. One action is one thing the service loop does to one issue, or one operator command.
*/
module Model {
  import opened Prelude
  import opened Names
  import opened Domain
  import opened Retry
  import Utf8

  const RECENT_EVENT_HISTORY_LIMIT: nat := 32

  /**
    `leaked` holds tracker ids that stay claimed without a live issue; only a stray abort puts one there.
    `stopped` is set by the forced shutdown.
  */
  datatype Svc = Svc(
    sources: set<string>,
    running: map<string, RunningEntry>,
    retries: map<string, RetryEntry>,
    tasks: map<string, WorkerTask>,
    nextGeneration: nat,
    draining: bool,
    leaked: set<string>,
    totals: TokenTotals,
    recent: map<string, seq<RecentEvent>>,
    stopped: bool)

  function Initial(sources: set<string>): Svc {
    Svc(sources, map[], map[], map[], 0, false, {}, NO_TOKENS, map[], false)
  }

  // ---- What is claimed

  function Live(s: Svc): set<string> {
    s.running.Keys + s.retries.Keys
  }

  /** What a live issue keeps to itself. */
  datatype Owner = Owner(sourceId: string, issueId: string, workspaceKey: string)

  function OwnerOf(s: Svc, key: string): Owner
    requires key in Live(s)
  {
    if key in s.running
    then Owner(s.running[key].sourceId, s.running[key].issue.id, s.running[key].workspaceKey)
    else Owner(s.retries[key].sourceId, s.retries[key].issueId, s.retries[key].workspaceKey)
  }

  /** The claim an issue would make. */
  function ClaimOf(sourceId: string, issue: Issue): Owner {
    Owner(sourceId, issue.id, SourceWorkspaceKey(sourceId, issue.identifier))
  }

  predicate Apart(a: Owner, b: Owner) {
    a.issueId != b.issueId && a.workspaceKey != b.workspaceKey
  }

  /** No live issue or leaked id stands in the way of the issue. */
  predicate Unclaimed(s: Svc, sourceId: string, issue: Issue) {
    && SourceIssueKey(sourceId, issue.id) !in Live(s)
    && issue.id !in s.leaked
    && forall k :: k in Live(s) ==> Apart(OwnerOf(s, k), ClaimOf(sourceId, issue))
  }

  // ---- Who may be dispatched, and where

  function KeysInState(running: map<string, RunningEntry>, state: string): set<string> {
    set k | k in running && AsciiLower(running[k].issue.state) == state
  }

  /** Running issues in a lower-case state. */
  function StateCount(running: map<string, RunningEntry>, state: string): nat {
    |KeysInState(running, state)|
  }

  predicate OnHost(task: WorkerTask, host: string) {
    task.target.Ssh? && AsciiLower(task.target.host) == AsciiLower(host)
  }

  function KeysOnHost(tasks: map<string, WorkerTask>, host: string): set<string> {
    set k | k in tasks && OnHost(tasks[k], host)
  }

  /** Workers on an SSH host, whatever the case its name is written in. */
  function HostCount(tasks: map<string, WorkerTask>, host: string): nat {
    |KeysOnHost(tasks, host)|
  }

  function StateLimit(config: Config, state: string): nat {
    if state in config.maxConcurrentAgentsByState then config.maxConcurrentAgentsByState[state]
    else config.maxConcurrentAgents
  }

  predicate Blocked(issue: Issue, config: Config) {
    && AsciiLower(issue.state) == "todo"
    && exists i :: 0 <= i < |issue.blockers|
                   && (issue.blockers[i].None? || !config.IsTerminalState(issue.blockers[i].value))
  }

  /** The issue may be worked on now, judging by the tables alone. */
  predicate Eligible(s: Svc, config: Config, issue: Issue) {
    && issue.RequiredFieldsPresent()
    && !config.IsTerminalState(issue.state)
    && config.IsActiveState(issue.state)
    && Unclaimed(s, config.sourceId, issue)
    && |s.running| < config.maxConcurrentAgents
    && StateCount(s.running, AsciiLower(issue.state)) < StateLimit(config, AsciiLower(issue.state))
    && !Blocked(issue, config)
  }

  function FirstFreeHost(tasks: map<string, WorkerTask>, hosts: seq<string>, limit: nat): Option<ExecutionTarget> {
    if hosts == [] then None
    else if HostCount(tasks, hosts[0]) < limit then Some(Ssh(hosts[0]))
    else FirstFreeHost(tasks, hosts[1..], limit)
  }

  function SelectExecutionTarget(tasks: map<string, WorkerTask>, config: Config): Option<ExecutionTarget> {
    if config.sshHosts == [] then Some(Local)
    else FirstFreeHost(tasks, config.sshHosts, config.maxConcurrentAgentsPerHost)
  }

  /** A continuation stays on its machine, if there is room; another attempt may go anywhere. */
  function RetryTarget(tasks: map<string, WorkerTask>, config: Config, retry: RetryEntry): Option<ExecutionTarget> {
    if retry.error.None? then
      if retry.target.Ssh? && HostCount(tasks, retry.target.host) >= config.maxConcurrentAgentsPerHost then None
      else Some(retry.target)
    else SelectExecutionTarget(tasks, config)
  }

  // ---- Actions

  /** Preparing a workspace gives its path, or an error that ends the attempt before a worker starts. */
  datatype Setup = Ready(path: string) | Broken(error: string)

  /**
    An action carries what the loop was told when it took it: `refreshed` is the tracker's answer about running
    issues, `candidates` the source's candidate list, `config` the source's configuration.
  */
  datatype Action =
    | Stall(key: string, config: Config, nowUtc: int, now: nat)
    | RefreshIssue(key: string, config: Config, refreshed: seq<Issue>)
    | Cancel(key: string, config: Config, refreshed: seq<Issue>)
    | Postpone(key: string, cap: nat, now: nat)
    | Dispatch(config: Config, issue: Issue, attempt: Option<nat>, target: ExecutionTarget, startedAt: int,
               setup: Setup, now: nat)
    | DropRetry(key: string, sourceId: string, candidates: seq<Issue>, now: nat)
    | Event(key: string, generation: nat, event: CodexEvent)
    | Outcome(key: string, generation: nat, reason: WorkerExitReason, terminal: bool, cap: nat, now: nat)
    | SetDraining(draining: bool)
    | Abort(sourceId: string, issueId: string, generation: nat, cap: nat, now: nat)
    | Promote(key: string, now: nat)
    | Kill

  predicate Matches(s: Svc, key: string, generation: nat) {
    key in s.tasks && s.tasks[key].generation == generation
  }

  /** The worker of the source was silent for longer than the timeout; no timeout, no stall. */
  predicate IsStalled(e: RunningEntry, config: Config, now: int) {
    && e.sourceId == config.sourceId && config.stallTimeoutMs > 0
    && Max(now - e.LastSign(), 0) > config.stallTimeoutMs
  }

  /** What the tracker's answer says of the issue that runs at `key`. */
  function Latest(s: Svc, key: string, refreshed: seq<Issue>): Option<Issue>
    requires key in s.running
  {
    FindIssue(refreshed, s.running[key].issue.id)
  }

  predicate Enabled(s: Svc, a: Action) {
    && !s.stopped
    && match a
       case Stall(key, config, nowUtc, _) => key in s.running && IsStalled(s.running[key], config, nowUtc)
       case RefreshIssue(key, config, refreshed) =>
         key in s.running && s.running[key].sourceId == config.sourceId && config.MayGoOn(Latest(s, key, refreshed))
       case Cancel(key, config, refreshed) =>
         key in s.running && s.running[key].sourceId == config.sourceId && !config.MayGoOn(Latest(s, key, refreshed))
       case Postpone(key, _, now) => key in s.retries && s.retries[key].dueAt <= now
       case DropRetry(key, sourceId, candidates, now) =>
         && key in s.retries && s.retries[key].dueAt <= now && s.retries[key].sourceId == sourceId
         && FindIssue(candidates, s.retries[key].issueId).None?
       case Dispatch(config, issue, attempt, target, _, _, now) =>
         var key := SourceIssueKey(config.sourceId, issue.id);
         && !s.draining && config.sourceId in s.sources && ':' !in issue.id
         && Eligible(WithoutRetry(s, key), config, issue)
         && (if attempt.None? then key !in s.retries && SelectExecutionTarget(s.tasks, config) == Some(target)
             else key in s.retries && s.retries[key].attempt == attempt.value && s.retries[key].dueAt <= now
                  && RetryTarget(s.tasks, config, s.retries[key]) == Some(target))
       case _ => true
  }

  function WithoutRetry(s: Svc, key: string): Svc {
    s.(retries := s.retries - {key})
  }

  // ---- Effects

  /** The retry a worker leaves behind. */
  function RetryAfterExit(e: RunningEntry, reason: WorkerExitReason, cap: nat, now: nat): RetryEntry {
    var previous := if e.retryAttempt.Some? then e.retryAttempt.value else 0;
    var attempt := if reason.NormalExit? then 1 else Max(SaturatingAdd(previous, 1, U32_MAX), 1);
    var dueAt := if reason.NormalExit? then ContinuationRetryDueAtMs(now) else FailureRetryDueAtMs(attempt, cap, now);
    RetryEntry(e.sourceId, e.target, e.workspacePath, e.issue.id, e.identifier, e.workspaceKey, attempt, dueAt,
               if reason.NormalExit? then None else reason.ErrorMessage())
  }

  function ClaimedEntry(
      sourceId: string, issue: Issue, attempt: Option<nat>, target: ExecutionTarget, path: string, startedAt: int,
      generation: nat): RunningEntry
  {
    RunningEntry(issue, sourceId, issue.identifier, SourceWorkspaceKey(sourceId, issue.identifier), startedAt, attempt,
                 target, path, generation, None, false)
  }

  /** The worker at `key` ends and its issue waits for a retry. */
  function Exit(s: Svc, key: string, reason: WorkerExitReason, cap: nat, now: nat): Svc
    requires key in s.running
  {
    s.(running := s.running - {key},
       tasks := s.tasks - {key},
       retries := s.retries[key := RetryAfterExit(s.running[key], reason, cap, now)])
  }

  /** The issue at `key` is forgotten. */
  function Release(s: Svc, key: string): Svc {
    s.(running := s.running - {key}, retries := s.retries - {key}, tasks := s.tasks - {key}, recent := s.recent - {key})
  }

  function PostponedRetry(r: RetryEntry, cap: nat, now: nat): RetryEntry {
    var attempt := SaturatingAdd(r.attempt, 1, U32_MAX);
    r.(attempt := attempt, error := Some("retry poll failed"), dueAt := FailureRetryDueAtMs(attempt, cap, now))
  }

  function Dispatched(
      s: Svc, config: Config, issue: Issue, attempt: Option<nat>, target: ExecutionTarget, startedAt: int, setup: Setup,
      now: nat): Svc
  {
    var key := SourceIssueKey(config.sourceId, issue.id);
    var base := WithoutRetry(s, key);
    match setup
    case Broken(error) =>
      var entry := ClaimedEntry(config.sourceId, issue, attempt, target, "", startedAt, 0);
      base.(retries := base.retries[key := RetryAfterExit(entry, Failed(error), config.maxRetryBackoffMs, now)])
    case Ready(path) =>
      var generation := s.nextGeneration + 1;
      var entry := ClaimedEntry(config.sourceId, issue, attempt, target, path, startedAt, generation);
      base.(running := base.running[key := entry],
            tasks := base.tasks[key := WorkerTask(generation, target)],
            nextGeneration := generation)
  }

  /** The session after an event: ids that differ from the current ones start a new session. */
  function SessionAfter(session: Option<LiveSession>, ev: CodexEvent): Option<LiveSession> {
    if ev.threadId.Some? && ev.turnId.Some? then
      var current := CurrentSession(session, ev);
      Some(current.(lastEventAt := ev.timestamp,
                    lastReported := if ev.tokens.Some? then ev.tokens.value else current.lastReported))
    else if session.Some? then Some(session.value.(lastEventAt := ev.timestamp))
    else None
  }

  function CurrentSession(session: Option<LiveSession>, ev: CodexEvent): LiveSession
    requires ev.threadId.Some? && ev.turnId.Some?
  {
    if session.Some? && session.value.threadId == ev.threadId.value && session.value.turnId == ev.turnId.value
    then session.value
    else LiveSession(ev.threadId.value, ev.turnId.value, ev.timestamp, NO_TOKENS)
  }

  function AddIncrease(totals: TokenTotals, before: TokenTotals, after: TokenTotals): TokenTotals {
    TokenTotals(totals.input + Max(after.input - before.input, 0),
                totals.output + Max(after.output - before.output, 0),
                totals.total + Max(after.total - before.total, 0))
  }

  function TotalsAfter(totals: TokenTotals, session: Option<LiveSession>, ev: CodexEvent): TokenTotals {
    if ev.threadId.Some? && ev.turnId.Some? && ev.tokens.Some?
    then AddIncrease(totals, CurrentSession(session, ev).lastReported, ev.tokens.value)
    else totals
  }

  function Summary(ev: CodexEvent): RecentEvent {
    RecentEvent(ev.timestamp, ev.event, if ev.message.Some? then Some(Utf8.BoundedMessage(ev.message.value)) else None)
  }

  function HistoryOf(recent: map<string, seq<RecentEvent>>, key: string): seq<RecentEvent> {
    if key in recent then recent[key] else []
  }

  /** Appends and, when the history is over its limit, drops the oldest event. */
  function PushEvent(history: seq<RecentEvent>, e: RecentEvent): seq<RecentEvent> {
    var longer := history + [e];
    if |longer| > RECENT_EVENT_HISTORY_LIMIT then longer[1..] else longer
  }

  function ObservedEvent(s: Svc, key: string, ev: CodexEvent): Svc {
    if key !in s.running then s
    else
      var e := s.running[key];
      s.(running := s.running[key := e.(session := SessionAfter(e.session, ev))],
         totals := TotalsAfter(s.totals, e.session, ev),
         recent := s.recent[key := PushEvent(HistoryOf(s.recent, key), Summary(ev))])
  }

  /** An abort of a task whose key the command spells through a source that is not configured. */
  predicate IsStray(s: Svc, a: Action) {
    a.Abort? && a.sourceId !in s.sources && Matches(s, SourceIssueKey(a.sourceId, a.issueId), a.generation)
  }

  function Aborted(s: Svc, a: Action): Svc
    requires a.Abort?
  {
    var key := SourceIssueKey(a.sourceId, a.issueId);
    if !Matches(s, key, a.generation) then s
    else if key !in s.running then s.(tasks := s.tasks - {key})
    else if a.sourceId in s.sources then Exit(s, key, Failed("worker aborted by operator"), a.cap, a.now)
    else
      var id := s.running[key].issue.id;
      Release(s, key).(leaked := if id == a.issueId then s.leaked else s.leaked + {id})
  }

  function Apply(s: Svc, a: Action): Svc
    requires Enabled(s, a)
  {
    match a
    case Stall(key, config, _, now) => Exit(s, key, Stalled("codex stalled"), config.maxRetryBackoffMs, now)
    case RefreshIssue(key, _, refreshed) =>
      var latest := Latest(s, key, refreshed).value;
      s.(running := s.running[key := s.running[key].(issue := latest, identifier := latest.identifier)])
    case Cancel(key, _, _) => Release(s, key)
    case Postpone(key, cap, now) => s.(retries := s.retries[key := PostponedRetry(s.retries[key], cap, now)])
    case DropRetry(key, _, _, _) => WithoutRetry(s, key)
    case Dispatch(config, issue, attempt, target, startedAt, setup, now) =>
      Dispatched(s, config, issue, attempt, target, startedAt, setup, now)
    case Event(key, generation, event) => if Matches(s, key, generation) then ObservedEvent(s, key, event) else s
    case Outcome(key, generation, reason, terminal, cap, now) =>
      if !Matches(s, key, generation) || key !in s.running then s
      else if terminal then Release(s, key)
      else Exit(s, key, reason, cap, now)
    case SetDraining(draining) => s.(draining := draining)
    case Abort(_, _, _, _, _) => Aborted(s, a)
    case Promote(key, now) =>
      if key in s.retries then s.(retries := s.retries[key := s.retries[key].(dueAt := now)]) else s
    case Kill => s.(tasks := map[], stopped := true)
  }

  // ---- The invariant

  predicate KeyFits(sources: set<string>, key: string, owner: Owner) {
    owner.sourceId in sources && ':' !in owner.issueId && key == SourceIssueKey(owner.sourceId, owner.issueId)
  }

  /**
    Every live issue stands under its own key; no two share a tracker id or a workspace; no leaked id is live, and
    like every tracker id it has no colon.
  */
  predicate ClaimsInv(s: Svc) {
    && (forall k :: k in Live(s) ==> KeyFits(s.sources, k, OwnerOf(s, k)))
    && (forall k :: k in Live(s) ==> OwnerOf(s, k).issueId !in s.leaked)
    && (forall id :: id in s.leaked ==> ':' !in id)
    && Exclusive(s)
  }

  predicate Exclusive(s: Svc) {
    forall j, k {:trigger Apart(OwnerOf(s, j), OwnerOf(s, k))} ::
      j in Live(s) && k in Live(s) && j != k ==> Apart(OwnerOf(s, j), OwnerOf(s, k))
  }

  /** Worker tasks and running entries agree until a forced shutdown drops the tasks. */
  predicate InStep(s: Svc) {
    if s.stopped then s.tasks == map[]
    else
      && s.tasks.Keys == s.running.Keys
      && forall k :: k in s.tasks ==> s.tasks[k] == WorkerTask(s.running[k].generation, s.running[k].target)
  }

  predicate GenerationsIssued(s: Svc) {
    && (forall k :: k in s.tasks ==> 0 < s.tasks[k].generation <= s.nextGeneration)
    && (forall j, k :: j in s.tasks && k in s.tasks && j != k ==> s.tasks[j].generation != s.tasks[k].generation)
  }

  predicate TablesInv(s: Svc) {
    s.running.Keys !! s.retries.Keys && InStep(s) && GenerationsIssued(s)
  }

  predicate Inv(s: Svc) {
    ClaimsInv(s) && TablesInv(s)
  }

  lemma InitialInv(sources: set<string>)
    ensures Inv(Initial(sources))
  {
  }

  // ---- Claims

  /** Nothing new is claimed and no live issue changes what it owns. */
  predicate SameOwners(s: Svc, t: Svc) {
    && t.sources == s.sources
    && Live(t) <= Live(s)
    && forall k :: k in Live(t) ==> OwnerOf(t, k) == OwnerOf(s, k)
  }

  lemma SameOwnersKeepClaims(s: Svc, t: Svc)
    requires ClaimsInv(s) && SameOwners(s, t)
    requires forall k :: k in Live(t) ==> OwnerOf(s, k).issueId !in t.leaked - s.leaked
    requires forall id :: id in t.leaked - s.leaked ==> ':' !in id
    ensures ClaimsInv(t)
  {
    forall j, k | j in Live(t) && k in Live(t) && j != k
      ensures Apart(OwnerOf(t, j), OwnerOf(t, k))
    {
      assert Apart(OwnerOf(s, j), OwnerOf(s, k));
    }
  }

  /** A key freed for an unclaimed issue can be given to it. */
  lemma NewClaimKeepsClaims(s: Svc, t: Svc, sourceId: string, issue: Issue)
    requires ClaimsInv(s) && Unclaimed(s, sourceId, issue) && sourceId in s.sources && ':' !in issue.id
    requires var key := SourceIssueKey(sourceId, issue.id);
             && t.sources == s.sources && t.leaked == s.leaked && Live(t) == Live(s) + {key}
             && OwnerOf(t, key) == ClaimOf(sourceId, issue)
             && forall k :: k in Live(s) ==> OwnerOf(t, k) == OwnerOf(s, k)
    ensures ClaimsInv(t)
  {
    hide OwnerOf, SourceIssueKey, SourceWorkspaceKey, Live;
    var key := SourceIssueKey(sourceId, issue.id);
    forall j, k | j in Live(t) && k in Live(t) && j != k
      ensures Apart(OwnerOf(t, j), OwnerOf(t, k))
    {
      if j != key && k != key {
        assert Apart(OwnerOf(s, j), OwnerOf(s, k));
      }
    }
  }

  // ---- Each effect keeps the invariant

  lemma ExitOwners(s: Svc, key: string, reason: WorkerExitReason, cap: nat, now: nat)
    requires key in s.running && s.running.Keys !! s.retries.Keys
    ensures SameOwners(s, Exit(s, key, reason, cap, now))
  {
  }

  lemma ExitTables(s: Svc, key: string, reason: WorkerExitReason, cap: nat, now: nat)
    requires TablesInv(s) && key in s.running
    ensures TablesInv(Exit(s, key, reason, cap, now))
  {
  }

  lemma ExitKeepsInv(s: Svc, key: string, reason: WorkerExitReason, cap: nat, now: nat)
    requires Inv(s) && key in s.running
    ensures Inv(Exit(s, key, reason, cap, now))
  {
    ExitOwners(s, key, reason, cap, now);
    ExitTables(s, key, reason, cap, now);
    SameOwnersKeepClaims(s, Exit(s, key, reason, cap, now));
  }

  lemma ReleaseOwners(s: Svc, key: string)
    requires s.running.Keys !! s.retries.Keys
    ensures SameOwners(s, Release(s, key)) && Live(Release(s, key)) == Live(s) - {key}
  {
  }

  lemma ReleaseTables(s: Svc, key: string)
    requires TablesInv(s)
    ensures TablesInv(Release(s, key))
  {
  }

  /** Forgetting an issue, and perhaps keeping its id aside: nobody else has it. */
  lemma ReleaseKeepsInv(s: Svc, key: string, aside: set<string>)
    requires Inv(s) && key in Live(s) && aside <= {OwnerOf(s, key).issueId}
    ensures Inv(Release(s, key).(leaked := s.leaked + aside))
  {
    ReleaseOwners(s, key);
    ReleaseTables(s, key);
    var t := Release(s, key).(leaked := s.leaked + aside);
    assert Live(t) == Live(Release(s, key));
    assert forall k :: k in Live(t) ==> OwnerOf(t, k) == OwnerOf(Release(s, key), k);
    forall k | k in Live(t)
      ensures OwnerOf(s, k).issueId !in aside
    {
      assert Apart(OwnerOf(s, k), OwnerOf(s, key));
    }
    assert KeyFits(s.sources, key, OwnerOf(s, key));
    SameOwnersKeepClaims(s, t);
  }

  lemma PlainReleaseKeepsInv(s: Svc, key: string)
    requires Inv(s) && key in Live(s)
    ensures Inv(Release(s, key))
  {
    ReleaseKeepsInv(s, key, {});
    assert s.leaked + {} == s.leaked;
  }

  lemma WithoutRetryOwners(s: Svc, key: string)
    ensures SameOwners(s, WithoutRetry(s, key))
    ensures Live(WithoutRetry(s, key)) == if key in s.running then Live(s) else Live(s) - {key}
  {
  }

  lemma WithoutRetryKeepsInv(s: Svc, key: string)
    requires Inv(s)
    ensures Inv(WithoutRetry(s, key))
  {
    WithoutRetryOwners(s, key);
    SameOwnersKeepClaims(s, WithoutRetry(s, key));
  }

  function Waiting(s: Svc, key: string, r: RetryEntry): Svc {
    s.(retries := s.retries[key := r])
  }

  lemma WaitingTables(s: Svc, key: string, r: RetryEntry)
    requires TablesInv(s) && key !in s.running
    ensures TablesInv(Waiting(s, key, r))
  {
  }

  lemma WaitingOwners(s: Svc, key: string, r: RetryEntry)
    requires key !in Live(s)
    ensures var t := Waiting(s, key, r);
            && Live(t) == Live(s) + {key} && OwnerOf(t, key) == Owner(r.sourceId, r.issueId, r.workspaceKey)
            && forall k :: k in Live(s) ==> OwnerOf(t, k) == OwnerOf(s, k)
  {
  }

  lemma NewRetryKeepsInv(s: Svc, sourceId: string, issue: Issue, r: RetryEntry)
    requires Inv(s) && Unclaimed(s, sourceId, issue) && sourceId in s.sources && ':' !in issue.id
    requires Owner(r.sourceId, r.issueId, r.workspaceKey) == ClaimOf(sourceId, issue)
    ensures Inv(Waiting(s, SourceIssueKey(sourceId, issue.id), r))
  {
    var key := SourceIssueKey(sourceId, issue.id);
    WaitingTables(s, key, r);
    WaitingOwners(s, key, r);
    NewClaimKeepsClaims(s, Waiting(s, key, r), sourceId, issue);
  }

  function Started(s: Svc, key: string, e: RunningEntry): Svc {
    s.(running := s.running[key := e], tasks := s.tasks[key := WorkerTask(e.generation, e.target)],
       nextGeneration := e.generation)
  }

  lemma StartedTables(s: Svc, key: string, e: RunningEntry)
    requires TablesInv(s) && !s.stopped && key !in Live(s) && e.generation == s.nextGeneration + 1
    ensures TablesInv(Started(s, key, e))
  {
  }

  lemma StartedOwners(s: Svc, key: string, e: RunningEntry)
    requires key !in Live(s)
    ensures var t := Started(s, key, e);
            && Live(t) == Live(s) + {key} && OwnerOf(t, key) == Owner(e.sourceId, e.issue.id, e.workspaceKey)
            && forall k :: k in Live(s) ==> OwnerOf(t, k) == OwnerOf(s, k)
  {
  }

  lemma NewWorkerKeepsInv(s: Svc, sourceId: string, issue: Issue, e: RunningEntry)
    requires Inv(s) && !s.stopped && Unclaimed(s, sourceId, issue) && sourceId in s.sources && ':' !in issue.id
    requires Owner(e.sourceId, e.issue.id, e.workspaceKey) == ClaimOf(sourceId, issue)
    requires e.generation == s.nextGeneration + 1
    ensures Inv(Started(s, SourceIssueKey(sourceId, issue.id), e))
  {
    var key := SourceIssueKey(sourceId, issue.id);
    StartedTables(s, key, e);
    StartedOwners(s, key, e);
    NewClaimKeepsClaims(s, Started(s, key, e), sourceId, issue);
  }

  /** The entry a dispatched worker gets. */
  function EntryOf(s: Svc, a: Action): RunningEntry
    requires a.Dispatch? && a.setup.Ready?
  {
    ClaimedEntry(a.config.sourceId, a.issue, a.attempt, a.target, a.setup.path, a.startedAt, s.nextGeneration + 1)
  }

  /** The retry a dispatch without workspace leaves. */
  function FailedSetupRetry(a: Action): RetryEntry
    requires a.Dispatch? && a.setup.Broken?
  {
    RetryAfterExit(ClaimedEntry(a.config.sourceId, a.issue, a.attempt, a.target, "", a.startedAt, 0),
                   Failed(a.setup.error),
                   a.config.maxRetryBackoffMs, a.now)
  }

  /** What a dispatch was allowed by. */
  lemma DispatchGuard(s: Svc, a: Action)
    requires a.Dispatch? && Enabled(s, a)
    ensures var key := SourceIssueKey(a.config.sourceId, a.issue.id);
            && !s.stopped && !s.draining && a.config.sourceId in s.sources && ':' !in a.issue.id
            && Unclaimed(WithoutRetry(s, key), a.config.sourceId, a.issue) && key !in Live(WithoutRetry(s, key))
            && (if a.attempt.None? then key !in s.retries
                else key in s.retries && s.retries[key].attempt == a.attempt.value && s.retries[key].dueAt <= a.now
                     && (s.retries[key].error.None? ==> a.target == s.retries[key].target))
  {
    hide Apply, SourceIssueKey, SourceWorkspaceKey, StateCount, StateLimit, Blocked, Config.IsActiveState, HostCount,
         Config.IsTerminalState, SelectExecutionTarget;
  }

  /** A dispatch takes the retry, if any, out of its table and puts one new entry under the free key. */
  lemma DispatchShape(s: Svc, a: Action)
    requires Inv(s) && a.Dispatch? && Enabled(s, a)
    ensures var key := SourceIssueKey(a.config.sourceId, a.issue.id);
            var base := WithoutRetry(s, key);
            && key !in s.running && key !in s.tasks && key !in Live(base)
            && (a.attempt.None? ==> base == s)
            && Apply(s, a) == if a.setup.Ready? then Started(base, key, EntryOf(s, a))
                              else Waiting(base, key, FailedSetupRetry(a))
  {
    hide ClaimsInv, SourceIssueKey, SourceWorkspaceKey, Eligible, SelectExecutionTarget, RetryTarget, RetryAfterExit,
         Unclaimed;
    var key := SourceIssueKey(a.config.sourceId, a.issue.id);
    DispatchGuard(s, a);
    if a.attempt.None? {
      assert s.retries - {key} == s.retries;
    }
  }

  lemma DispatchKeepsInv(s: Svc, a: Action)
    requires Inv(s) && a.Dispatch? && Enabled(s, a)
    ensures Inv(Apply(s, a))
  {
    hide Inv, Enabled, Apply, Unclaimed, SourceIssueKey;
    var key := SourceIssueKey(a.config.sourceId, a.issue.id);
    DispatchGuard(s, a);
    DispatchShape(s, a);
    WithoutRetryKeepsInv(s, key);
    if a.setup.Ready? {
      NewWorkerKeepsInv(WithoutRetry(s, key), a.config.sourceId, a.issue, EntryOf(s, a));
    } else {
      NewRetryKeepsInv(WithoutRetry(s, key), a.config.sourceId, a.issue, FailedSetupRetry(a));
    }
  }

  /** A stray abort names the issue by another id than the tracker's: the default source and a whole key as id. */
  lemma StrayIsAlias(s: Svc, a: Action)
    requires Inv(s) && !s.stopped && IsStray(s, a)
    ensures a.sourceId == DEFAULT_SOURCE_ID && DEFAULT_SOURCE_ID !in s.sources && ':' in a.issueId
    ensures SourceIssueKey(a.sourceId, a.issueId) in s.running
    ensures s.running[SourceIssueKey(a.sourceId, a.issueId)].issue.id != a.issueId
  {
    var key := SourceIssueKey(a.sourceId, a.issueId);
    var owner := OwnerOf(s, key);
    assert KeyFits(s.sources, key, owner);
    KeyCollision(a.sourceId, a.issueId, owner.sourceId, owner.issueId);
  }

  lemma AbortKeepsInv(s: Svc, a: Action)
    requires Inv(s) && a.Abort? && Enabled(s, a)
    ensures Inv(Apply(s, a))
  {
    var key := SourceIssueKey(a.sourceId, a.issueId);
    if Matches(s, key, a.generation) {
      if a.sourceId in s.sources {
        ExitKeepsInv(s, key, Failed("worker aborted by operator"), a.cap, a.now);
      } else {
        StrayIsAlias(s, a);
        ReleaseKeepsInv(s, key, {s.running[key].issue.id});
      }
    }
  }

  function WithRunning(s: Svc, key: string, e: RunningEntry): Svc {
    s.(running := s.running[key := e])
  }

  lemma WithRunningOwners(s: Svc, key: string, e: RunningEntry)
    requires key in s.running && Owner(e.sourceId, e.issue.id, e.workspaceKey) == OwnerOf(s, key)
    ensures SameOwners(s, WithRunning(s, key, e))
  {
  }

  lemma WithRunningTables(s: Svc, key: string, e: RunningEntry)
    requires TablesInv(s) && key in s.running
    requires e.generation == s.running[key].generation && e.target == s.running[key].target
    ensures TablesInv(WithRunning(s, key, e))
  {
  }

  lemma UpdateRunningKeepsInv(s: Svc, key: string, e: RunningEntry)
    requires Inv(s) && key in s.running
    requires Owner(e.sourceId, e.issue.id, e.workspaceKey) == OwnerOf(s, key)
    requires e.generation == s.running[key].generation && e.target == s.running[key].target
    ensures Inv(WithRunning(s, key, e))
  {
    WithRunningOwners(s, key, e);
    WithRunningTables(s, key, e);
    SameOwnersKeepClaims(s, WithRunning(s, key, e));
  }

  lemma WaitingSameOwners(s: Svc, key: string, r: RetryEntry)
    requires key in s.retries && key !in s.running && Owner(r.sourceId, r.issueId, r.workspaceKey) == OwnerOf(s, key)
    ensures SameOwners(s, Waiting(s, key, r))
  {
  }

  lemma UpdateRetryKeepsInv(s: Svc, key: string, r: RetryEntry)
    requires Inv(s) && key in s.retries
    requires Owner(r.sourceId, r.issueId, r.workspaceKey) == OwnerOf(s, key)
    ensures Inv(Waiting(s, key, r))
  {
    WaitingSameOwners(s, key, r);
    WaitingTables(s, key, r);
    SameOwnersKeepClaims(s, Waiting(s, key, r));
  }

  lemma SameTablesKeepClaims(s: Svc, t: Svc)
    requires ClaimsInv(s)
    requires t.sources == s.sources && t.running == s.running && t.retries == s.retries && t.leaked == s.leaked
    ensures ClaimsInv(t)
  {
    assert SameOwners(s, t);
    SameOwnersKeepClaims(s, t);
  }

  /** The invariant does not look at the statistics or at the drain mode, and survives a forced shutdown. */
  lemma StatisticsKeepInv(s: Svc, draining: bool, totals: TokenTotals, recent: map<string, seq<RecentEvent>>)
    requires Inv(s)
    ensures Inv(s.(draining := draining, totals := totals, recent := recent))
    ensures Inv(s.(tasks := map[], stopped := true))
  {
    SameTablesKeepClaims(s, s.(draining := draining, totals := totals, recent := recent));
    SameTablesKeepClaims(s, s.(tasks := map[], stopped := true));
  }

  lemma EventKeepsInv(s: Svc, a: Action)
    requires Inv(s) && a.Event? && Enabled(s, a)
    ensures Inv(Apply(s, a))
  {
    if Matches(s, a.key, a.generation) && a.key in s.running {
      var t := Apply(s, a);
      UpdateRunningKeepsInv(s, a.key, t.running[a.key]);
      StatisticsKeepInv(s.(running := t.running), s.draining, t.totals, t.recent);
    }
  }

  lemma OutcomeKeepsInv(s: Svc, a: Action)
    requires Inv(s) && a.Outcome? && Enabled(s, a)
    ensures Inv(Apply(s, a))
  {
    if Matches(s, a.key, a.generation) && a.key in s.running {
      if a.terminal {
        PlainReleaseKeepsInv(s, a.key);
      } else {
        ExitKeepsInv(s, a.key, a.reason, a.cap, a.now);
      }
    }
  }

  /** Every action keeps the invariant. */
  lemma StepKeepsInv(s: Svc, a: Action)
    requires Inv(s) && Enabled(s, a)
    ensures Inv(Apply(s, a))
  {
    match a
    case Stall(key, config, _, now) => ExitKeepsInv(s, key, Stalled("codex stalled"), config.maxRetryBackoffMs, now);
    case Cancel(key, _, _) => PlainReleaseKeepsInv(s, key);
    case DropRetry(key, _, _, _) => WithoutRetryKeepsInv(s, key);
    case Dispatch(_, _, _, _, _, _, _) => DispatchKeepsInv(s, a);
    case Abort(_, _, _, _, _) => AbortKeepsInv(s, a);
    case Outcome(_, _, _, _, _, _) => OutcomeKeepsInv(s, a);
    case RefreshIssue(key, _, refreshed) =>
      var latest := Latest(s, key, refreshed).value;
      UpdateRunningKeepsInv(s, key, s.running[key].(issue := latest, identifier := latest.identifier));
    case Postpone(key, cap, now) => UpdateRetryKeepsInv(s, key, PostponedRetry(s.retries[key], cap, now));
    case Promote(key, now) =>
      if key in s.retries {
        UpdateRetryKeepsInv(s, key, s.retries[key].(dueAt := now));
      }
    case Event(_, _, _) => EventKeepsInv(s, a);
    case SetDraining(draining) => StatisticsKeepInv(s, draining, s.totals, s.recent);
    case Kill => StatisticsKeepInv(s, s.draining, s.totals, s.recent);
  }

  // ---- What the effects come to

  /**
    `r` is the retry that the worker of `e` leaves: the same issue on the same machine and in the same workspace. A
    normal exit is continued after a second; any other counts as one more attempt and waits ten seconds, doubled with
    every attempt, up to the cap. No time exceeds the largest one.
  */
  predicate IsRetryOf(r: RetryEntry, e: RunningEntry, reason: WorkerExitReason, cap: nat, now: nat) {
    && r.sourceId == e.sourceId && r.issueId == e.issue.id && r.identifier == e.identifier
    && r.workspaceKey == e.workspaceKey && r.target == e.target && r.workspacePath == e.workspacePath
    && if reason.NormalExit? then r.error == None && r.attempt == 1 && r.dueAt == Min(now + 1_000, U64_MAX)
       else
         && r.error == Some(if reason.CanceledByReconciliation? then "canceled by reconciliation" else reason.message)
         && r.attempt == Min((if e.retryAttempt.Some? then e.retryAttempt.value else 0) + 1, U32_MAX)
         && r.dueAt == Min(now + Min(10_000 * Pow2(r.attempt - 1), cap), U64_MAX)
  }

  lemma RetryAfterExitMeaning(e: RunningEntry, reason: WorkerExitReason, cap: nat, now: nat)
    requires cap <= U64_MAX
    ensures IsRetryOf(RetryAfterExit(e, reason, cap, now), e, reason, cap, now)
  {
    hide FailureRetryDelayMs, Pow2;
    FailureDelayClosedForm(RetryAfterExit(e, reason, cap, now).attempt, cap);
  }

  /** A retry that could not even be considered counts as one more attempt and waits as after a failure. */
  lemma PostponedMeaning(r: RetryEntry, cap: nat, now: nat)
    requires cap <= U64_MAX
    ensures var n := PostponedRetry(r, cap, now);
            && n.(attempt := r.attempt, error := r.error, dueAt := r.dueAt) == r
            && n.attempt == Min(r.attempt + 1, U32_MAX) && n.error == Some("retry poll failed")
            && n.dueAt == Min(now + Min(10_000 * Pow2(n.attempt - 1), cap), U64_MAX)
  {
    hide FailureRetryDelayMs, Pow2;
    FailureDelayClosedForm(PostponedRetry(r, cap, now).attempt, cap);
  }

  /** A running total follows a report up by what it rose since the last one, and not down. */
  predicate FollowsUp(before: int, lastReport: int, report: int, after: int) {
    if report > lastReport then after - before == report - lastReport else after == before
  }

  /** The last report of the event's own thread and turn; a new one starts from nothing. */
  function LastReportFor(session: Option<LiveSession>, ev: CodexEvent): TokenTotals {
    match session
    case Some(l) => if ev.threadId == Some(l.threadId) && ev.turnId == Some(l.turnId) then l.lastReported
                    else TokenTotals(0, 0, 0)
    case None => TokenTotals(0, 0, 0)
  }

  /** What an event adds to the totals, and what it leaves of the session. */
  lemma EventMeaning(totals: TokenTotals, session: Option<LiveSession>, ev: CodexEvent)
    ensures var t, last := TotalsAfter(totals, session, ev), LastReportFor(session, ev);
            if ev.threadId.Some? && ev.turnId.Some? && ev.tokens.Some? then
              && FollowsUp(totals.input, last.input, ev.tokens.value.input, t.input)
              && FollowsUp(totals.output, last.output, ev.tokens.value.output, t.output)
              && FollowsUp(totals.total, last.total, ev.tokens.value.total, t.total)
            else t == totals
    ensures var after := SessionAfter(session, ev);
            && (after.None? <==> session.None? && (ev.threadId.None? || ev.turnId.None?))
            && (after.Some? ==>
                  && after.value.lastEventAt == ev.timestamp
                  && if ev.threadId.Some? && ev.turnId.Some? then
                       && after.value.threadId == ev.threadId.value && after.value.turnId == ev.turnId.value
                       && after.value.lastReported ==
                          if ev.tokens.Some? then ev.tokens.value else LastReportFor(session, ev)
                     else session.Some? && after.value == session.value.(lastEventAt := ev.timestamp))
  {
  }

  /** `t` says the same as `s` of everything but the issue at `key`, and gives out no generation. */
  predicate OnlyAt(s: Svc, t: Svc, key: string) {
    && t.running - {key} == s.running - {key} && t.retries - {key} == s.retries - {key}
    && t.tasks - {key} == s.tasks - {key} && t.recent - {key} == s.recent - {key}
    && t.sources == s.sources && t.nextGeneration == s.nextGeneration && t.draining == s.draining
    && t.stopped == s.stopped
  }

  /** The worker at `key` has ended and its issue waits; its history stays. */
  predicate LeftWaiting(s: Svc, t: Svc, key: string, reason: WorkerExitReason, cap: nat, now: nat) {
    && OnlyAt(s, t, key) && t.leaked == s.leaked && t.totals == s.totals && t.recent == s.recent
    && key in s.running && key !in t.running && key !in t.tasks
    && key in t.retries && IsRetryOf(t.retries[key], s.running[key], reason, cap, now)
  }

  /** Nothing is left of the issue at `key`. */
  predicate GoneFrom(s: Svc, t: Svc, key: string) {
    && OnlyAt(s, t, key) && t.totals == s.totals
    && key !in t.running && key !in t.retries && key !in t.tasks && key !in t.recent
  }

  lemma ExitMeaning(s: Svc, key: string, reason: WorkerExitReason, cap: nat, now: nat)
    requires key in s.running && cap <= U64_MAX
    ensures LeftWaiting(s, Exit(s, key, reason, cap, now), key, reason, cap, now)
  {
    hide RetryAfterExit, IsRetryOf;
    RetryAfterExitMeaning(s.running[key], reason, cap, now);
    assert s.retries[key := RetryAfterExit(s.running[key], reason, cap, now)] - {key} == s.retries - {key};
    assert s.running - {key} - {key} == s.running - {key} && s.tasks - {key} - {key} == s.tasks - {key};
  }

  lemma ReleaseMeaning(s: Svc, key: string)
    ensures GoneFrom(s, Release(s, key), key) && Release(s, key).leaked == s.leaked
  {
    assert s.running - {key} - {key} == s.running - {key} && s.tasks - {key} - {key} == s.tasks - {key};
    assert s.retries - {key} - {key} == s.retries - {key} && s.recent - {key} - {key} == s.recent - {key};
  }

  /**
    A dispatch puts the issue in the place of its retry: a worker of the next generation in the prepared workspace, or,
    if that could not be prepared, the retry an attempt leaves that failed for this reason before it had a workspace.
  */
  lemma DispatchMeaning(s: Svc, a: Action)
    requires Inv(s) && a.Dispatch? && Enabled(s, a) && a.config.maxRetryBackoffMs <= U64_MAX
    ensures var t, key, g := Apply(s, a), SourceIssueKey(a.config.sourceId, a.issue.id), s.nextGeneration + 1;
            var entry := RunningEntry(a.issue, a.config.sourceId, a.issue.identifier,
                                      SourceWorkspaceKey(a.config.sourceId, a.issue.identifier), a.startedAt, a.attempt,
                                      a.target, if a.setup.Ready? then a.setup.path else "",
                                      if a.setup.Ready? then g else 0, None, false);
            && OnlyAt(s, t.(nextGeneration := s.nextGeneration), key)
            && t.leaked == s.leaked && t.totals == s.totals && t.recent == s.recent
            && match a.setup
               case Ready(_) =>
                 && key in t.running && t.running[key] == entry && key in t.tasks
                   && t.tasks[key] == WorkerTask(g, a.target)
                 && key !in t.retries && t.nextGeneration == g
               case Broken(error) =>
                 && key !in t.running && key !in t.tasks && t.nextGeneration == s.nextGeneration && key in t.retries
                 && IsRetryOf(t.retries[key], entry, Failed(error), a.config.maxRetryBackoffMs, a.now)
  {
    hide Inv, Enabled, Apply, SourceIssueKey, SourceWorkspaceKey, RetryAfterExit, IsRetryOf, OnlyAt, Started, Waiting;
    DispatchShape(s, a);
    var key := SourceIssueKey(a.config.sourceId, a.issue.id);
    if a.setup.Ready? {
      StartedMeaning(s, key, EntryOf(s, a));
    } else {
      WaitingMeaning(s, key, FailedSetupRetry(a));
      var entry := ClaimedEntry(a.config.sourceId, a.issue, a.attempt, a.target, "", a.startedAt, 0);
      RetryAfterExitMeaning(entry, Failed(a.setup.error), a.config.maxRetryBackoffMs, a.now);
    }
  }

  lemma StartedMeaning(s: Svc, key: string, e: RunningEntry)
    ensures var t := Started(WithoutRetry(s, key), key, e);
            && OnlyAt(s, t.(nextGeneration := s.nextGeneration), key)
            && t.leaked == s.leaked && t.totals == s.totals && t.recent == s.recent
            && key in t.running && t.running[key] == e && key in t.tasks && key !in t.retries
            && t.tasks[key] == WorkerTask(e.generation, e.target) && t.nextGeneration == e.generation
  {
    assert s.retries - {key} - {key} == s.retries - {key};
    assert s.running[key := e] - {key} == s.running - {key};
    assert s.tasks[key := WorkerTask(e.generation, e.target)] - {key} == s.tasks - {key};
  }

  lemma WaitingMeaning(s: Svc, key: string, r: RetryEntry)
    ensures var t := Waiting(WithoutRetry(s, key), key, r);
            && OnlyAt(s, t, key) && t == s.(retries := t.retries) && key in t.retries && t.retries[key] == r
  {
    assert (s.retries - {key})[key := r] - {key} == s.retries - {key};
  }
}
