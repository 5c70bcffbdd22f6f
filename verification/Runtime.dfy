/** The run state machine of internal/runtime: transition table, observation-only list and ExecutionState. */
module Runtime {
  import opened Common
  import opened Events

  datatype Phase =
    | Submitted | Classified | Planned | Enriched | SandboxReady | Executing
    | AgentDone | Verifying | Refining | Linting | AwaitingApproval
    | Reporting | Learning | Completed | Failed | Cancelled
  {
    predicate IsTerminal() {
      Completed? || Failed? || Cancelled?
    }
  }

  datatype Error = Terminal | MismatchedRunID | InvalidTransition | MissingRunID

  function Move(legal: bool, to: Phase): Option<Phase> {
    if legal then Some(to) else None
  }

  /** A run can fail or be cancelled from any phase of the table that is not terminal. */
  predicate Abortable(p: Phase) {
    match p
    case Submitted | Classified | Planned | Enriched | SandboxReady | Executing
       | AgentDone | Verifying | Refining | Linting | AwaitingApproval => true
    case _ => false
  }

  /** The closed table, grouped by event; None is ErrInvalidTransition. */
  function LookupTransition(from: Phase, typ: EventType): (next: Option<Phase>)
    ensures next.Some? ==> !from.IsTerminal()
  {
    match typ
    case RunClassified => Move(from == Submitted, Classified)
    case RunPlanned => Move(from == Classified, Planned)
    case RunEnriched => Move(from == Classified || from == Planned, Enriched)
    case SandboxCreated => Move(from == Enriched || from == Submitted, SandboxReady)
    case AgentExecuting => Move(from == SandboxReady, Executing)
    case AgentCompleted => Move(from == Executing, AgentDone)
    case VerifyStarted => Move(from == AgentDone, Verifying)
    case VerifyPassed => Move(from == Verifying, AgentDone)
    case VerifyFailed => Move(from == Verifying, Refining)
    case RefineTriggered => Move(from == Refining, Executing)
    case LintStarted => Move(from == AgentDone, Linting)
    case LintPassed => Move(from == Linting, AgentDone)
    case LintFailed => Move(from == Linting, Refining)
    case RunCompleted => Move(from == AgentDone, Completed)
    case GovernanceApprovalRequired => Move(from == Submitted, AwaitingApproval)
    case GovernanceApproved => Move(from == AwaitingApproval, Submitted)
    case RunCancelled => Move(Abortable(from), Cancelled)
    case RunFailed => Move(Abortable(from), Failed)
    case _ => None
  }

  /** The list as the source writes it; five observational types are absent from it. */
  predicate IsObservationOnly(t: EventType) {
    match t
    case RunSubmitted | SandboxDestroyed | AgentToolCalled | BrainLessonRecalled
       | BrainLessonExtracted | GovernanceDenied | BudgetThresholdReached | BudgetExceeded
       | RunScheduled | RunDequeued | RunStrategySelected
       | DAGStarted | DAGChainStarted | DAGNodeStarted | DAGNodeCompleted | DAGChainCompleted
       | DAGSynthesisStarted | DAGSynthesisCompleted | DAGCompleted
       | ReportGenerated | ReviewGenerated | RunArchitected
       | SecurityReviewed | PerformanceReviewed | RefactoringReviewed
       | ClassifyRequested | ArchitectRequested | PlanRequested | StrategyRequested
       | EnrichRequested | ExecuteRequested | VerifyRequested | LintRequested => true
    case _ => false
  }

  /** The value of an ExecutionState. */
  datatype State = State(
    runID: string,
    phase: Phase,
    attempt: int,
    maxAttempts: int,
    eventCount: nat,
    createdAt: int,
    updatedAt: int,
    lastEventID: string,
    lastError: string,
    duration: int)

  const REFINE_CAP_ERROR := "refine cap exceeded"

  function NewState(runID: string, now: int): State {
    State(runID, Submitted, 1, 3, 0, now, now, "", "", 0)
  }

  /** A timestamp of 0 is Go's zero time: the clock is read instead. */
  function At(ev: Event, now: int): int {
    if ev.timestamp != 0 then ev.timestamp else now
  }

  function Recorded(s: State, ev: Event, now: int): State {
    s.(eventCount := s.eventCount + 1, lastEventID := ev.id, updatedAt := At(ev, now))
  }

  function Timed(s: State, ev: Event, now: int): State {
    if s.createdAt != 0 then s.(duration := At(ev, now) - s.createdAt) else s
  }

  /** A legal move: the refine cap and the terminal metadata are applied here. */
  function Advance(s: State, ev: Event, now: int, next: Phase): State {
    if ev.typ == RefineTriggered && s.attempt >= s.maxAttempts then
      Recorded(Timed(s.(phase := Failed, lastError := REFINE_CAP_ERROR), ev, now), ev, now)
    else
      var bumped := if ev.typ == RefineTriggered then s.(attempt := s.attempt + 1) else s;
      var moved := Recorded(bumped.(phase := next), ev, now);
      var noted := if next == Failed && ErrorText(ev.payload) != ""
                   then moved.(lastError := ErrorText(ev.payload)) else moved;
      if next.IsTerminal() then Timed(noted, ev, now) else noted
  }

  datatype Applied = Accepted(state: State) | Rejected(error: Error)

  /** One event against one state, as a value. */
  function Step(s: State, ev: Event, now: int): Applied {
    if s.phase.IsTerminal() then Rejected(Terminal)
    else if ev.runID != "" && s.runID != "" && ev.runID != s.runID then Rejected(MismatchedRunID)
    else if IsObservationOnly(ev.typ) then Accepted(Recorded(s, ev, now))
    else match LookupTransition(s.phase, ev.typ)
      case None => Rejected(InvalidTransition)
      case Some(next) => Accepted(Advance(s, ev, now, next))
  }

  /** The error-swallowing application used by projections. */
  function Observe(s: State, ev: Event, now: int): State {
    match Step(s, ev, now)
    case Accepted(s') => s'
    case Rejected(_) => s
  }

  /** A stamped event: the event and the clock reading at its application. */
  datatype Stamped = Stamped(ev: Event, now: int)

  /** The error-swallowing fold over a stream. */
  function Project(s: State, evs: seq<Stamped>): State {
    Fold(OBSERVE, s, evs)
  }

  const OBSERVE: (State, Stamped) -> State := (s: State, e: Stamped) => Observe(s, e.ev, e.now)

  /** The strict fold: stops at the first rejection, as Replay does. */
  function ReplayFrom(s: State, evs: seq<Stamped>): (State, Option<Error>)
    decreases |evs|
  {
    if evs == [] then (s, None)
    else match Step(s, evs[0].ev, evs[0].now)
      case Accepted(s') => ReplayFrom(s', evs[1..])
      case Rejected(e) => (s, Some(e))
  }

  /** The object the server and the replay code hold; Apply is its only mutator. */
  class ExecutionState {
    const runID: string
    var phase: Phase
    var attempt: int
    const maxAttempts: int
    var eventCount: nat
    var createdAt: int
    var updatedAt: int
    var lastEventID: string
    var lastError: string
    var duration: int

    ghost function Value(): State
      reads this
    {
      State(runID, phase, attempt, maxAttempts, eventCount, createdAt, updatedAt,
            lastEventID, lastError, duration)
    }

    constructor (runID: string, now: int)
      ensures Value() == NewState(runID, now)
    {
      this.runID, phase, attempt, maxAttempts, eventCount := runID, Submitted, 1, 3, 0;
      createdAt, updatedAt, lastEventID, lastError, duration := now, now, "", "", 0;
    }

    /** Accepts or rejects one event; a rejection leaves every field as it was. */
    method Apply(ev: Event, now: int) returns (err: Option<Error>)
      modifies this
      ensures Value() == Observe(old(Value()), ev, now)
      ensures err == (match Step(old(Value()), ev, now)
                      case Accepted(_) => None
                      case Rejected(e) => Some(e))
      ensures err.Some? ==> Value() == old(Value())
    {
      if phase.IsTerminal() {
        return Some(Terminal);
      }
      if ev.runID != "" && runID != "" && ev.runID != runID {
        return Some(MismatchedRunID);
      }
      if IsObservationOnly(ev.typ) {
        RecordEvent(ev, now);
        return None;
      }
      var next := LookupTransition(phase, ev.typ);
      if next == None {
        return Some(InvalidTransition);
      }
      AdvanceTo(ev, now, next.value);
      return None;
    }

    method AdvanceTo(ev: Event, now: int, next: Phase)
      modifies this
      ensures Value() == Advance(old(Value()), ev, now, next)
    {
      if ev.typ == RefineTriggered {
        if attempt >= maxAttempts {
          phase := Failed;
          lastError := REFINE_CAP_ERROR;
          MarkTerminal(ev, now);
          RecordEvent(ev, now);
          return;
        }
        attempt := attempt + 1;
      }
      phase := next;
      RecordEvent(ev, now);
      if next == Failed {
        var msg := ErrorText(ev.payload);
        if msg != "" {
          lastError := msg;
        }
      }
      if next.IsTerminal() {
        MarkTerminal(ev, now);
      }
    }

    method RecordEvent(ev: Event, now: int)
      modifies this
      ensures Value() == Recorded(old(Value()), ev, now)
    {
      eventCount := eventCount + 1;
      lastEventID := ev.id;
      if ev.timestamp != 0 {
        updatedAt := ev.timestamp;
      } else {
        updatedAt := now;
      }
    }

    method MarkTerminal(ev: Event, now: int)
      modifies this
      ensures Value() == Timed(old(Value()), ev, now)
    {
      var end := ev.timestamp;
      if end == 0 {
        end := now;
      }
      if createdAt != 0 {
        duration := end - createdAt;
      }
    }
  }

  /** The state Replay starts from: the first event names the run and anchors the clock. */
  function ReplayStart(runID: string, evs: seq<Stamped>, now: int): State {
    var id := if evs != [] && evs[0].ev.runID != "" then evs[0].ev.runID else runID;
    var s := NewState(id, now);
    if evs != [] && evs[0].ev.timestamp != 0
    then s.(createdAt := evs[0].ev.timestamp, updatedAt := evs[0].ev.timestamp) else s
  }

  lemma ReplayNext(s: State, evs: seq<Stamped>, i: nat)
    requires i < |evs|
    ensures var r := Step(s, evs[i].ev, evs[i].now);
      && (r.Accepted? ==> ReplayFrom(s, evs[i..]) == ReplayFrom(r.state, evs[i + 1..]))
      && (r.Rejected? ==> ReplayFrom(s, evs[i..]) == (s, Some(r.error)))
  {
    assert evs[i..][1..] == evs[i + 1..];
  }

  /** The events one after the other, up to the first that is rejected. */
  method Feed(state: ExecutionState, evs: seq<Stamped>) returns (err: Option<Error>)
    modifies state
    ensures (state.Value(), err) == ReplayFrom(old(state.Value()), evs)
  {
    err := None;
    for i := 0 to |evs|
      invariant err == None
      invariant ReplayFrom(old(state.Value()), evs) == ReplayFrom(state.Value(), evs[i..])
    {
      ReplayNext(state.Value(), evs, i);
      err := state.Apply(evs[i].ev, evs[i].now);
      if err.Some? {
        return;
      }
    }
  }

  /** Strict replay: the partial state is returned together with the first error. */
  method Replay(runID: string, evs: seq<Stamped>, now: int) returns (state: ExecutionState?, err: Option<Error>)
    ensures state == null <==> ReplayStart(runID, evs, now).runID == ""
    ensures state == null ==> err == Some(MissingRunID)
    ensures state != null ==>
      fresh(state) && (state.Value(), err) == ReplayFrom(ReplayStart(runID, evs, now), evs)
  {
    var id := runID;
    if evs != [] && evs[0].ev.runID != "" {
      id := evs[0].ev.runID;
    }
    if id == "" {
      return null, Some(MissingRunID);
    }
    state := new ExecutionState(id, now);
    if evs != [] && evs[0].ev.timestamp != 0 {
      state.createdAt := evs[0].ev.timestamp;
      state.updatedAt := evs[0].ev.timestamp;
    }
    err := Feed(state, evs);
  }
}
