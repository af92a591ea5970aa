/** The entities of the orchestrator. Timestamps and monotonic clocks are milliseconds. */
module Domain {
  import opened Prelude
  import opened Names

  datatype ExecutionTarget = Local | Ssh(host: string)

  /** `blockers` holds the state of each blocking issue, None when the tracker does not give one. */
  datatype Issue = Issue(
    id: string,
    identifier: string,
    title: string,
    priority: Option<int>,
    state: string,
    createdAt: Option<int>,
    blockers: seq<Option<string>>)
  {
    predicate RequiredFieldsPresent() {
      !(id == "" || identifier == "" || title == "" || state == "")
    }
  }

  /** The first issue with an id. */
  function FindIssue(issues: seq<Issue>, id: string): (r: Option<Issue>)
    ensures r.Some? ==> r.value in issues && r.value.id == id
    ensures r.None? <==> forall i :: 0 <= i < |issues| ==> issues[i].id != id
  {
    if issues == [] then None
    else if issues[0].id == id then Some(issues[0])
    else FindIssue(issues[1..], id)
  }

  /** It is the first of them in the list. */
  lemma {:induction false} FindIssueIsFirst(issues: seq<Issue>, id: string) returns (first: nat)
    ensures FindIssue(issues, id) == if first < |issues| then Some(issues[first]) else None
    ensures first < |issues| ==> issues[first].id == id
    ensures forall j :: 0 <= j < first && j < |issues| ==> issues[j].id != id
  {
    if issues == [] || issues[0].id == id {
      first := 0;
    } else {
      var rest := FindIssueIsFirst(issues[1..], id);
      first := rest + 1;
      assert forall j :: 1 <= j < |issues| ==> issues[1..][j - 1] == issues[j];
    }
  }

  datatype TokenTotals = TokenTotals(input: int, output: int, total: int)

  const NO_TOKENS := TokenTotals(0, 0, 0)

  /** One conversation of a worker; a new thread or turn id starts a new one. */
  datatype LiveSession = LiveSession(threadId: string, turnId: string, lastEventAt: int, lastReported: TokenTotals)

  datatype RunningEntry = RunningEntry(
    issue: Issue,
    sourceId: string,
    identifier: string,
    workspaceKey: string,
    startedAt: int,
    retryAttempt: Option<nat>,
    target: ExecutionTarget,
    workspacePath: string,
    generation: nat,
    session: Option<LiveSession>,
    cancelRequested: bool)
  {
    /** When the worker last gave a sign of life. */
    function LastSign(): int {
      if session.Some? then session.value.lastEventAt else startedAt
    }
  }

  datatype RetryEntry = RetryEntry(
    sourceId: string,
    target: ExecutionTarget,
    workspacePath: string,
    issueId: string,
    identifier: string,
    workspaceKey: string,
    attempt: nat,
    dueAt: nat,
    error: Option<string>)

  datatype WorkerTask = WorkerTask(generation: nat, target: ExecutionTarget)

  datatype CodexEvent = CodexEvent(
    event: string,
    timestamp: int,
    threadId: Option<string>,
    turnId: Option<string>,
    message: Option<string>,
    tokens: Option<TokenTotals>)

  datatype RecentEvent = RecentEvent(at: int, event: string, message: Option<string>)

  datatype WorkerExitReason =
    | NormalExit
    | Failed(message: string)
    | TimedOut(message: string)
    | Stalled(message: string)
    | CanceledByReconciliation
  {
    function ErrorMessage(): Option<string> {
      match this
      case NormalExit => None
      case CanceledByReconciliation => Some("canceled by reconciliation")
      case _ => Some(message)
    }
  }

  datatype Config = Config(
    sourceId: string,
    activeStates: seq<string>,
    terminalStates: seq<string>,
    maxConcurrentAgents: nat,
    maxConcurrentAgentsByState: map<string, nat>,
    sshHosts: seq<string>,
    maxConcurrentAgentsPerHost: nat,
    maxRetryBackoffMs: nat,
    stallTimeoutMs: int)
  {
    predicate IsActiveState(state: string) {
      exists i :: 0 <= i < |activeStates| && AsciiLower(activeStates[i]) == AsciiLower(state)
    }

    predicate IsTerminalState(state: string) {
      exists i :: 0 <= i < |terminalStates| && AsciiLower(terminalStates[i]) == AsciiLower(state)
    }

    /** A running issue may go on while the tracker has it, in a state that is active and not terminal. */
    predicate MayGoOn(latest: Option<Issue>) {
      latest.Some? && !IsTerminalState(latest.value.state) && IsActiveState(latest.value.state)
    }
  }

  /** The state is one of these, whatever the case it is written in. */
  predicate OneOf(states: seq<string>, state: string) {
    exists i :: 0 <= i < |states| && SameLetters(states[i], state)
  }

  /** States are compared regardless of ASCII case, and a running issue goes on only in an active, not terminal one. */
  lemma StatesMeaning(config: Config, state: string)
    ensures config.IsActiveState(state) <==> OneOf(config.activeStates, state)
    ensures config.IsTerminalState(state) <==> OneOf(config.terminalStates, state)
    ensures forall latest: Option<Issue> :: latest.Some? && latest.value.state == state ==>
              (config.MayGoOn(latest) <==> OneOf(config.activeStates, state) && !OneOf(config.terminalStates, state))
    ensures !config.MayGoOn(None)
  {
    forall i | 0 <= i < |config.activeStates|
      ensures AsciiLower(config.activeStates[i]) == AsciiLower(state) <==> SameLetters(config.activeStates[i], state)
    {
      LowerCaseMeaning(config.activeStates[i], state);
    }
    forall i | 0 <= i < |config.terminalStates|
      ensures AsciiLower(config.terminalStates[i]) == AsciiLower(state) <==>
                SameLetters(config.terminalStates[i], state)
    {
      LowerCaseMeaning(config.terminalStates[i], state);
    }
  }
}
