/**
 The event vocabulary of internal/event/event.go: the closed list of event
 types and the record that travels on the bus.
 */
module Events {

  datatype EventType =
    | RunSubmitted | RunClassified | RunPlanned | RunStrategySelected | RunEnriched
    | RunScheduled | RunDequeued | RunCompleted | RunFailed | RunCancelled
    | AgentExecuting | AgentToolCalled | AgentCompleted
    | SandboxCreated | SandboxDestroyed
    | VerifyStarted | VerifyPassed | VerifyFailed
    | RefineTriggered
    | LintStarted | LintPassed | LintFailed
    | ClassifyRequested | ArchitectRequested | StepBackRequested | PlanRequested
    | StrategyRequested | ModelRouteRequested | EnrichRequested
    | ExecuteRequested | VerifyRequested | LintRequested
    | DAGStarted | DAGChainStarted | DAGNodeStarted | DAGNodeCompleted | DAGChainCompleted
    | DAGSynthesisStarted | DAGSynthesisCompleted | DAGCompleted
    | ReportGenerated | ReviewGenerated | RunArchitected | RunSteppedBack | RunModelRouted
    | SecurityReviewed | PerformanceReviewed | RefactoringReviewed | MCPInjected
    | BrainLessonExtracted | BrainLessonRecalled
    | GovernanceApprovalRequired | GovernanceApproved | GovernanceDenied
    | BudgetThresholdReached | BudgetExceeded

  /** The payload fields this model needs; wall-clock durations are left out. */
  datatype Payload =
    | NoPayload
    | Exit(exitCode: int)
    | GateInfo(attempt: nat, exitCode: int, tail: string, error: string)
    | Refine(attempt: nat, maxAttempts: int)
    | Denied(attempt: nat, reasons: seq<string>)
    | FailureInfo(reason: string, error: string)

  /** `timestamp` is 0 for Go's zero time; `id` is "" where the model does not need it. */
  datatype Event = Event(id: string, runID: string, typ: EventType, payload: Payload, timestamp: int)

  /** What the state machine's scan for an "error" field finds in a payload. */
  function ErrorText(p: Payload): string {
    match p
    case GateInfo(_, _, _, error) => error
    case FailureInfo(_, error) => error
    case _ => ""
  }

  /** The `*.requested` commands that sequence the reactive refine cycle. */
  predicate IsCycleCommand(t: EventType) {
    t == ExecuteRequested || t == VerifyRequested || t == LintRequested
  }

  /** What can fall among a run's own events: those commands, and what the scheduler says of its queue. */
  predicate IsAside(t: EventType) {
    IsCycleCommand(t) || t == RunScheduled || t == RunDequeued
  }
}
