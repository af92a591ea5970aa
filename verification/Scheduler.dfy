/** The eligibility check, answered from the orchestrator's indexes. */
module Scheduler {
  import opened Prelude
  import opened Names
  import opened Domain
  import opened Model
  import opened Capacity
  import opened State

  datatype DispatchIneligibleReason =
    | MissingRequiredFields
    | InactiveState
    | TerminalState
    | AlreadyRunningOrClaimed
    | GlobalSlotsExhausted
    | StateSlotsExhausted
    | TodoBlocked

  function AvailableGlobalSlots(state: OrchestratorState, config: Config): nat
    reads state
  {
    SaturatingSub(config.maxConcurrentAgents, |state.running|)
  }

  predicate PerStateSlotAvailable(issue: Issue, state: OrchestratorState, config: Config)
    reads state
  {
    var key := AsciiLower(issue.state);
    StateCount(state.running, key) < StateLimit(config, key)
  }

  function DispatchIneligibleReasonForSource(sourceId: string, issue: Issue, state: OrchestratorState, config: Config)
    : Option<DispatchIneligibleReason>
    reads state
  {
    if !issue.RequiredFieldsPresent() then Some(MissingRequiredFields)
    else if config.IsTerminalState(issue.state) then Some(TerminalState)
    else if !config.IsActiveState(issue.state) then Some(InactiveState)
    else if state.IsIssueOrWorkspaceClaimedForSource(sourceId, issue) then Some(AlreadyRunningOrClaimed)
    else if AvailableGlobalSlots(state, config) == 0 then Some(GlobalSlotsExhausted)
    else if !PerStateSlotAvailable(issue, state, config) then Some(StateSlotsExhausted)
    else if Blocked(issue, config) then Some(TodoBlocked)
    else None
  }

  /** Three lookups in hand-kept indexes decide as the tables would. */
  lemma EligibilityIsExact(issue: Issue, state: OrchestratorState, config: Config)
    requires state.Valid()
    ensures DispatchIneligibleReasonForSource(config.sourceId, issue, state, config).None? <==>
            Eligible(state.Claims(), config, issue)
  {
    state.ClaimCheckIsExact(config.sourceId, issue);
  }
}
