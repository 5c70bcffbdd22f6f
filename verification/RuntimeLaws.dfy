/** Laws of the run state machine over every event stream. */
module RuntimeLaws {
  import opened Common
  import opened Events
  import opened Runtime

  lemma ProjectAppend(s: State, a: seq<Stamped>, b: seq<Stamped>)
    ensures Project(s, a + b) == Project(Project(s, a), b)
  {
    FoldAppend(OBSERVE, s, a, b);
  }

  /** A terminal phase absorbs everything: the whole state is frozen. */
  lemma {:induction false} TerminalIsFinal(s: State, evs: seq<Stamped>)
    requires s.phase.IsTerminal()
    ensures Project(s, evs) == s
    decreases |evs|
  {
    if evs != [] {
      TerminalIsFinal(s, evs[1..]);
    }
  }

  lemma AcceptanceCounts(s: State, ev: Event, now: int)
    ensures Observe(s, ev, now).eventCount == s.eventCount + (if Step(s, ev, now).Accepted? then 1 else 0)
  {
  }

  /** A strict replay that meets no error agrees with the error-swallowing projection. */
  lemma {:induction false} ReplayAgreesWithProject(s: State, evs: seq<Stamped>)
    requires ReplayFrom(s, evs).1 == None
    ensures ReplayFrom(s, evs).0 == Project(s, evs)
    ensures Project(s, evs).eventCount == s.eventCount + |evs|
    decreases |evs|
  {
    if evs != [] {
      assert Observe(s, evs[0].ev, evs[0].now).eventCount == s.eventCount + 1 by {
        AcceptanceCounts(s, evs[0].ev, evs[0].now);
      }
      ReplayAgreesWithProject(Observe(s, evs[0].ev, evs[0].now), evs[1..]);
    }
  }

  ghost predicate Bounded(s: State) {
    1 <= s.attempt <= s.maxAttempts
  }

  /** Whatever is fed to a run, its attempt counter stays within 1..maxAttempts and never falls. */
  lemma {:induction false} AttemptStaysBounded(s: State, evs: seq<Stamped>)
    requires Bounded(s)
    ensures Bounded(Project(s, evs))
    ensures s.attempt <= Project(s, evs).attempt
    ensures Project(s, evs).maxAttempts == s.maxAttempts && Project(s, evs).runID == s.runID
    decreases |evs|
  {
    if evs != [] {
      AttemptStaysBounded(Observe(s, evs[0].ev, evs[0].now), evs[1..]);
    }
  }

  /** The part of a state that decides what happens next. */
  function Position(s: State): (Phase, int, int, string) {
    (s.phase, s.attempt, s.maxAttempts, s.runID)
  }

  lemma ObserveByPosition(s: State, t: State, ev: Event, now: int)
    requires Position(s) == Position(t)
    ensures Position(Observe(s, ev, now)) == Position(Observe(t, ev, now))
  {
  }

  function Erase(evs: seq<Stamped>): seq<Stamped>
    decreases |evs|
  {
    if evs == [] then []
    else if IsObservationOnly(evs[0].ev.typ) then Erase(evs[1..])
    else [evs[0]] + Erase(evs[1..])
  }

  /** Deleting every observation-only event changes neither phase nor attempt. */
  lemma {:induction false} ObservationsAreInert(s: State, t: State, evs: seq<Stamped>)
    requires Position(s) == Position(t)
    ensures Position(Project(s, evs)) == Position(Project(t, Erase(evs)))
    decreases |evs|
  {
    if evs != [] {
      var s' := Observe(s, evs[0].ev, evs[0].now);
      if IsObservationOnly(evs[0].ev.typ) {
        ObservationsAreInert(s', t, evs[1..]);
      } else {
        ObserveByPosition(s, t, evs[0].ev, evs[0].now);
        ObservationsAreInert(s', Observe(t, evs[0].ev, evs[0].now), evs[1..]);
        var rest := Erase(evs[1..]);
        assert ([evs[0]] + rest)[1..] == rest;
      }
    }
  }

  /** 1 when the machine accepts this event and it has one of the types, else 0. */
  function Hit(s: State, e: Stamped, types: set<EventType>): nat {
    One(e.ev.typ in types && Step(s, e.ev, e.now).Accepted?)
  }

  function One(b: bool): nat {
    if b then 1 else 0
  }

  /** How many events of some type the machine accepted while running the stream. */
  function AcceptedCount(s: State, evs: seq<Stamped>, types: set<EventType>): nat
    decreases |evs|
  {
    if evs == [] then 0
    else Hit(s, evs[0], types) + AcceptedCount(Observe(s, evs[0].ev, evs[0].now), evs[1..], types)
  }

  /** Agent completions still owed before the run can complete, besides those of retries. */
  function AgentOwed(p: Phase): nat {
    match p
    case Submitted | Classified | Planned | Enriched | SandboxReady | AwaitingApproval | Executing => 1
    case _ => 0
  }

  lemma StepBalancesRetries(s: State, e: Stamped)
    requires Observe(s, e.ev, e.now).phase !in {Failed, Cancelled}
    ensures var t := Observe(s, e.ev, e.now);
      var retries := Hit(s, e, {RefineTriggered});
      && Hit(s, e, {VerifyFailed, LintFailed}) + One(s.phase == Refining) == retries + One(t.phase == Refining)
      && t.attempt == s.attempt + retries
  {
  }

  lemma StepBalancesApprovals(s: State, e: Stamped)
    requires Observe(s, e.ev, e.now).phase !in {Failed, Cancelled}
    ensures Hit(s, e, {GovernanceApprovalRequired}) + One(s.phase == AwaitingApproval)
         == Hit(s, e, {GovernanceApproved}) + One(Observe(s, e.ev, e.now).phase == AwaitingApproval)
  {
  }

  lemma StepBalancesAgents(s: State, e: Stamped)
    requires Observe(s, e.ev, e.now).phase !in {Failed, Cancelled}
    ensures Hit(s, e, {AgentCompleted}) + AgentOwed(Observe(s, e.ev, e.now).phase)
         == Hit(s, e, {RefineTriggered}) + AgentOwed(s.phase)
  {
  }

  /** The balance from an arbitrary state: what is owed depends only on the phase it is in. */
  lemma {:induction false} BalanceFrom(s: State, evs: seq<Stamped>)
    requires Project(s, evs).phase == Completed
    ensures var end := Project(s, evs);
      var retries := AcceptedCount(s, evs, {RefineTriggered});
      && AcceptedCount(s, evs, {VerifyFailed, LintFailed}) + One(s.phase == Refining) == retries
      && end.attempt == s.attempt + retries
      && AcceptedCount(s, evs, {GovernanceApprovalRequired}) + One(s.phase == AwaitingApproval)
         == AcceptedCount(s, evs, {GovernanceApproved})
      && AcceptedCount(s, evs, {AgentCompleted}) == retries + AgentOwed(s.phase)
    decreases |evs|
  {
    if evs != [] {
      var t := Observe(s, evs[0].ev, evs[0].now);
      assert t.phase !in {Failed, Cancelled} by {
        if t.phase.IsTerminal() { TerminalIsFinal(t, evs[1..]); }
      }
      StepBalancesRetries(s, evs[0]);
      StepBalancesApprovals(s, evs[0]);
      StepBalancesAgents(s, evs[0]);
      BalanceFrom(t, evs[1..]);
    }
  }

  /**
   In every completed run the accepted gate failures, the accepted refinements and
   the extra attempts are equal; the agent finished once per attempt; and every
   approval asked for was granted.
   */
  lemma CompletedRunBalances(runID: string, now: int, evs: seq<Stamped>)
    requires Project(NewState(runID, now), evs).phase == Completed
    ensures var s := NewState(runID, now);
      var end := Project(s, evs);
      && AcceptedCount(s, evs, {VerifyFailed, LintFailed}) == end.attempt - 1
      && AcceptedCount(s, evs, {RefineTriggered}) == end.attempt - 1
      && AcceptedCount(s, evs, {AgentCompleted}) == end.attempt
      && AcceptedCount(s, evs, {GovernanceApprovalRequired}) == AcceptedCount(s, evs, {GovernanceApproved})
      && end.attempt <= 3
  {
    BalanceFrom(NewState(runID, now), evs);
    AttemptStaysBounded(NewState(runID, now), evs);
  }

  // ----- the table, phase by phase

  /** The types with a row in some phase, other than failure and cancellation. */
  predicate HasRow(typ: EventType) {
    match typ
    case RunClassified | RunPlanned | RunEnriched | SandboxCreated | AgentExecuting | AgentCompleted
       | RefineTriggered | RunCompleted | VerifyStarted | VerifyPassed | VerifyFailed
       | LintStarted | LintPassed | LintFailed | GovernanceApprovalRequired | GovernanceApproved => true
    case _ => false
  }

  /** Where a live run in each phase can go, besides failing and being cancelled. */
  function Onward(from: Phase, typ: EventType): (to: Option<Phase>)
    ensures to.Some? ==> HasRow(typ)
  {
    match from
    case Submitted =>
      if typ == RunClassified then Some(Classified)
      else if typ == SandboxCreated then Some(SandboxReady)
      else if typ == GovernanceApprovalRequired then Some(AwaitingApproval)
      else None
    case AwaitingApproval => if typ == GovernanceApproved then Some(Submitted) else None
    case Classified =>
      if typ == RunPlanned then Some(Planned) else if typ == RunEnriched then Some(Enriched) else None
    case Planned => if typ == RunEnriched then Some(Enriched) else None
    case Enriched => if typ == SandboxCreated then Some(SandboxReady) else None
    case SandboxReady => if typ == AgentExecuting then Some(Executing) else None
    case Executing => if typ == AgentCompleted then Some(AgentDone) else None
    case AgentDone =>
      if typ == VerifyStarted then Some(Verifying)
      else if typ == LintStarted then Some(Linting)
      else if typ == RunCompleted then Some(Completed)
      else None
    case Verifying =>
      if typ == VerifyPassed then Some(AgentDone) else if typ == VerifyFailed then Some(Refining) else None
    case Linting => if typ == LintPassed then Some(AgentDone) else if typ == LintFailed then Some(Refining) else None
    case Refining => if typ == RefineTriggered then Some(Executing) else None
    case Reporting | Learning | Completed | Failed | Cancelled => None
  }

  /** The eleven phases in which a run is live; nothing leads to Reporting or Learning. */
  predicate Live(p: Phase) {
    p in {Submitted, Classified, Planned, Enriched, SandboxReady, Executing, AgentDone, Verifying, Refining, Linting,
          AwaitingApproval}
  }

  lemma AbortMoves(from: Phase)
    ensures LookupTransition(from, RunFailed) == if Live(from) then Some(Failed) else None
    ensures LookupTransition(from, RunCancelled) == if Live(from) then Some(Phase.Cancelled) else None
  {
  }

  lemma StartMoves(from: Phase)
    ensures LookupTransition(from, RunClassified) == Onward(from, RunClassified)
    ensures LookupTransition(from, RunPlanned) == Onward(from, RunPlanned)
    ensures LookupTransition(from, RunEnriched) == Onward(from, RunEnriched)
    ensures LookupTransition(from, SandboxCreated) == Onward(from, SandboxCreated)
  {
  }

  lemma AgentMoves(from: Phase)
    ensures LookupTransition(from, AgentExecuting) == Onward(from, AgentExecuting)
    ensures LookupTransition(from, AgentCompleted) == Onward(from, AgentCompleted)
  {
  }

  lemma LoopMoves(from: Phase)
    ensures LookupTransition(from, RefineTriggered) == Onward(from, RefineTriggered)
    ensures LookupTransition(from, RunCompleted) == Onward(from, RunCompleted)
  {
  }

  lemma VerifyMoves(from: Phase)
    ensures LookupTransition(from, VerifyStarted) == Onward(from, VerifyStarted)
    ensures LookupTransition(from, VerifyPassed) == Onward(from, VerifyPassed)
    ensures LookupTransition(from, VerifyFailed) == Onward(from, VerifyFailed)
  {
  }

  lemma LintMoves(from: Phase)
    ensures LookupTransition(from, LintStarted) == Onward(from, LintStarted)
    ensures LookupTransition(from, LintPassed) == Onward(from, LintPassed)
    ensures LookupTransition(from, LintFailed) == Onward(from, LintFailed)
  {
  }

  lemma ApprovalIsAsked(from: Phase)
    ensures LookupTransition(from, GovernanceApprovalRequired) == Onward(from, GovernanceApprovalRequired)
  {
  }

  lemma ApprovalIsGranted(from: Phase)
    ensures LookupTransition(from, GovernanceApproved) == Onward(from, GovernanceApproved)
  {
  }

  lemma NoRowNoMove(from: Phase, typ: EventType)
    requires !HasRow(typ) && typ != RunFailed && typ != RunCancelled
    ensures LookupTransition(from, typ) == None
  {
  }

  lemma RowMoves(from: Phase, typ: EventType)
    requires HasRow(typ)
    ensures LookupTransition(from, typ) == Onward(from, typ)
  {
    match typ
    case RunClassified | RunPlanned | RunEnriched | SandboxCreated => StartMoves(from);
    case AgentExecuting | AgentCompleted => AgentMoves(from);
    case RefineTriggered | RunCompleted => LoopMoves(from);
    case VerifyStarted | VerifyPassed | VerifyFailed => VerifyMoves(from);
    case LintStarted | LintPassed | LintFailed => LintMoves(from);
    case GovernanceApprovalRequired => ApprovalIsAsked(from);
    case GovernanceApproved => ApprovalIsGranted(from);
    case _ =>
  }

  /** The table, with the rows of each phase together: every move it has and no other. */
  lemma TableIsExact(from: Phase, typ: EventType)
    ensures LookupTransition(from, RunFailed) == if Live(from) then Some(Failed) else None
    ensures LookupTransition(from, RunCancelled) == if Live(from) then Some(Phase.Cancelled) else None
    ensures typ != RunFailed && typ != RunCancelled ==> LookupTransition(from, typ) == Onward(from, typ)
  {
    AbortMoves(from);
    if HasRow(typ) {
      RowMoves(from, typ);
    } else if typ != RunFailed && typ != RunCancelled {
      NoRowNoMove(from, typ);
    }
  }

  /** Events that are in no row and on no list: the machine rejects them in every phase. */
  const UNLISTED: set<EventType> :=
    {RunSteppedBack, RunModelRouted, MCPInjected, StepBackRequested, ModelRouteRequested}

  ghost predicate Moves(typ: EventType) {
    exists from: Phase :: LookupTransition(from, typ).Some?
  }

  /** A phase from which the event moves the machine, if there is one. */
  function Origin(typ: EventType): Phase {
    match typ
    case RunPlanned | RunEnriched => Classified
    case AgentExecuting => SandboxReady
    case AgentCompleted => Executing
    case VerifyStarted | LintStarted | RunCompleted => AgentDone
    case VerifyPassed | VerifyFailed => Verifying
    case LintPassed | LintFailed => Linting
    case RefineTriggered => Refining
    case GovernanceApproved => AwaitingApproval
    case _ => Submitted
  }

  lemma OriginMoves(from: Phase, typ: EventType)
    ensures LookupTransition(from, typ).Some? ==> LookupTransition(Origin(typ), typ).Some?
  {
  }

  /** Every event type moves the machine from some phase, or is observation only, or is one of five left out. */
  lemma EveryTypeIsHandled(typ: EventType)
    ensures IsObservationOnly(typ) <==> !Moves(typ) && typ !in UNLISTED
    ensures Moves(typ) ==> typ !in UNLISTED
  {
    forall from: Phase ensures LookupTransition(from, typ).Some? ==> LookupTransition(Origin(typ), typ).Some? {
      OriginMoves(from, typ);
    }
    OriginIsListed(typ);
  }

  lemma OriginIsListed(typ: EventType)
    ensures IsObservationOnly(typ) || typ in UNLISTED <==> LookupTransition(Origin(typ), typ) == None
    ensures !(IsObservationOnly(typ) && typ in UNLISTED)
  {
  }

  /** Wherever a live run is, it can be cancelled and it can fail; both are final and keep the attempt. */
  lemma LiveRunsCanEnd(s: State, ev: Event, now: int)
    requires ev.runID == s.runID && (ev.typ == RunCancelled || ev.typ == RunFailed)
    requires s.phase in {Submitted, Classified, Planned, Enriched, SandboxReady, Executing, AgentDone, Verifying,
                         Refining, Linting, AwaitingApproval}
    ensures Step(s, ev, now).Accepted?
    ensures var t := Step(s, ev, now).state;
      && t.phase == (if ev.typ == RunCancelled then Cancelled else Failed) && t.attempt == s.attempt
  {
  }

  lemma ScheduledIsNoted(s: State, ev: Event, now: int)
    requires s.phase == Submitted && ev.runID == s.runID && ev.typ == RunScheduled
    ensures Observe(s, ev, now) == Recorded(s, ev, now)
  {
  }

  /** A run cancelled while it is queued is projected as cancelled at its first attempt. */
  lemma QueuedRunIsCancelled(runID: string, now: int, scheduled: Stamped, cancelled: Stamped)
    requires scheduled.ev.runID == runID && scheduled.ev.typ == RunScheduled
    requires cancelled.ev.runID == runID && cancelled.ev.typ == RunCancelled
    ensures var end := Project(NewState(runID, now), [scheduled, cancelled]);
      end.phase == Cancelled && end.attempt == 1 && end.maxAttempts == 3
  {
    var start := NewState(runID, now);
    var queued := Observe(start, scheduled.ev, scheduled.now);
    assert Project(start, [scheduled, cancelled]) == Observe(queued, cancelled.ev, cancelled.now) by {
      assert [scheduled, cancelled] == [scheduled] + [cancelled];
      ProjectAppend(start, [scheduled], [cancelled]);
      FoldOne(OBSERVE, start, scheduled);
      FoldOne(OBSERVE, queued, cancelled);
    }
    assert queued.phase == Submitted && queued.attempt == 1 && queued.maxAttempts == 3 && queued.runID == runID by {
      ScheduledIsNoted(start, scheduled.ev, scheduled.now);
    }
    LiveRunsCanEnd(queued, cancelled.ev, cancelled.now);
  }

  /** The time an event counts for: its own, or the clock's when it has none. */
  function TimeOf(ev: Event, now: int): int {
    if ev.timestamp == 0 then now else ev.timestamp
  }

  /** A run fails by run.failed, or by a refinement at the cap. */
  lemma FailedBy(s: State, ev: Event, now: int)
    requires Step(s, ev, now).Accepted? && Step(s, ev, now).state.phase == Failed
    ensures ev.typ == RunFailed || (ev.typ == RefineTriggered && s.attempt >= s.maxAttempts)
  {
    FailedMoves(s.phase, ev.typ);
  }

  lemma FailedMoves(from: Phase, typ: EventType)
    ensures LookupTransition(from, typ) == Some(Failed) ==> typ == RunFailed
  {
    TableIsExact(from, typ);
    NothingOnwardFails(from, typ);
  }

  lemma NothingOnwardFails(from: Phase, typ: EventType)
    ensures Onward(from, typ) != Some(Failed)
  {
  }

  /** What every accepted event leaves in the record: one more event, its id and its time. */
  lemma AcceptedIsRecorded(s: State, ev: Event, now: int)
    requires Step(s, ev, now).Accepted?
    ensures var t := Step(s, ev, now).state;
      && t.runID == s.runID && t.maxAttempts == s.maxAttempts && t.createdAt == s.createdAt
      && t.eventCount == s.eventCount + 1 && t.lastEventID == ev.id && t.updatedAt == TimeOf(ev, now)
  {
  }

  /** On entering a terminal phase the duration since creation is noted, and never before. */
  lemma EndIsTimed(s: State, ev: Event, now: int)
    requires Step(s, ev, now).Accepted?
    ensures var t := Step(s, ev, now).state;
      t.duration == if t.phase in {Completed, Failed, Phase.Cancelled} && s.createdAt != 0
                    then TimeOf(ev, now) - s.createdAt else s.duration
  {
  }

  lemma {:induction false} ReplayedDuration(s: State, evs: seq<Stamped>)
    requires evs != [] && s.createdAt != 0 && ReplayFrom(s, evs).1 == None
    requires ReplayFrom(s, evs).0.phase in {Completed, Failed, Phase.Cancelled}
    ensures var last := evs[|evs| - 1];
      ReplayFrom(s, evs).0.duration == TimeOf(last.ev, last.now) - s.createdAt
    decreases |evs|
  {
    EndIsTimed(s, evs[0].ev, evs[0].now);
    AcceptedIsRecorded(s, evs[0].ev, evs[0].now);
    if |evs| > 1 {
      ReplayedDuration(Step(s, evs[0].ev, evs[0].now).state, evs[1..]);
    }
  }

  /** A replayed run took the time between its first event and its last, whenever it is replayed. */
  lemma ReplayTakesAsLong(runID: string, evs: seq<Stamped>, now: int)
    requires evs != [] && evs[0].ev.timestamp != 0
    ensures var (end, err) := ReplayFrom(ReplayStart(runID, evs, now), evs);
      var last := evs[|evs| - 1];
      err == None && end.phase in {Completed, Failed, Phase.Cancelled} ==>
        end.duration == TimeOf(last.ev, last.now) - evs[0].ev.timestamp
  {
    var start := ReplayStart(runID, evs, now);
    var (end, err) := ReplayFrom(start, evs);
    if err == None && end.phase in {Completed, Failed, Phase.Cancelled} {
      ReplayedDuration(start, evs);
    }
  }

  /** The last error is that of the failure, or that the refine cap was exceeded; nothing else touches it. */
  lemma ErrorIsNoted(s: State, ev: Event, now: int)
    requires Step(s, ev, now).Accepted?
    ensures Step(s, ev, now).state.lastError ==
      if ev.typ == RefineTriggered && s.attempt >= s.maxAttempts then "refine cap exceeded"
      else if ev.typ == RunFailed && ErrorText(ev.payload) != "" then ErrorText(ev.payload)
      else s.lastError
  {
    if Step(s, ev, now).state.phase == Failed {
      FailedBy(s, ev, now);
    }
  }

  /** The refine cap: at the cap a refinement fails the run, below it it starts the next attempt. */
  lemma RefineCounts(s: State, ev: Event, now: int)
    requires s.phase == Refining && ev.runID == s.runID && ev.typ == RefineTriggered
    ensures Step(s, ev, now).Accepted?
    ensures var t := Step(s, ev, now).state;
      if s.attempt < s.maxAttempts then t.phase == Executing && t.attempt == s.attempt + 1
      else t.phase == Failed && t.attempt == s.attempt
  {
  }

  /** When an event is refused, and why. */
  lemma RefusedExactly(s: State, ev: Event, now: int)
    ensures Step(s, ev, now) == Rejected(Terminal) <==> s.phase in {Completed, Failed, Phase.Cancelled}
    ensures Step(s, ev, now) == Rejected(MismatchedRunID) <==>
      s.phase !in {Completed, Failed, Phase.Cancelled} && ev.runID != "" && s.runID != "" && ev.runID != s.runID
    ensures Step(s, ev, now) == Rejected(InvalidTransition) <==>
      s.phase !in {Completed, Failed, Phase.Cancelled} && (ev.runID == "" || s.runID == "" || ev.runID == s.runID)
      && !IsObservationOnly(ev.typ) && LookupTransition(s.phase, ev.typ) == None
  {
  }
}
