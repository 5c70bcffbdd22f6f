/**
 Everything a run publishes: the pass of internal/kernel/kernel.go, which Execute of
 internal/orchestrator/execute.go puts ahead of the run, the way of
 internal/orchestrator/run.go to its attempt loop with the seven exits on that way, the
 loop itself, and the last event. It also says that the event which closes streams comes last, and that
 both drivers of the loop publish the same run once the cycle commands are erased.
 RunTracking.dfy walks the state machine over all of it.
 */
module RunStream {
  import opened Common
  import opened Events
  import opened RefineCycle
  import opened ReactiveCycle
  import Sse

  /** A kernel stage that is gated off, that runs without a result, or that has one to publish. */
  datatype Report = Skipped | Silent | Told

  /**
   One pass of the kernel: `reactive` announces each stage first, `recalled` is about lessons
   found. The enrich stage is skipped in a kernel built without a brain; with one the enricher
   never fails, so the stage is Told, although the kernel would log a failure and go on.
   */
  datatype Pass = Pass(
    reactive: bool, architect: Report, stepBack: Report, plan: Report,
    strategy: bool, route: bool, enrich: Report, recalled: bool)

  /**
   Execute passes the prompt through the kernel ahead of Run; Run on its own does so after
   the sandbox. A pass without a bus, or ahead of a run that has no id yet, names no run and
   leaves no trace in its log: that is NoKernel.
   */
  datatype Kernel = NoKernel | Ahead(pass: Pass) | Inside(pass: Pass)

  /** What precedes the attempt loop when nothing goes wrong. */
  datatype Entry = Entry(kernel: Kernel, approved: bool, tools: bool)

  /** The exits of Run before the attempt loop, in the order of the source. */
  datatype Exit =
    | GovernanceDenies | ApprovalFails | WorktreeFails | ToolsFail | AuthFails | SandboxFails | LaunchFails

  datatype Course = Aborts(exit: Exit, error: string) | Runs(world: World)

  // ----- the kernel's pass

  function When(c: bool, ev: Event): seq<Event> {
    if c then [ev] else []
  }

  function Plain(o: Options, typ: EventType): Event {
    Msg(o, typ, NoPayload)
  }

  function StageEvents(o: Options, k: Pass, r: Report, command: EventType, result: EventType): seq<Event> {
    When(k.reactive && r != Skipped, Plain(o, command)) + When(r == Told, Plain(o, result))
  }

  /** A stage that always has a result when it is configured. */
  function Sure(configured: bool): Report {
    if configured then Told else Skipped
  }

  /** Recall comes between the command and the result of the enrich stage. */
  function EnrichEvents(o: Options, k: Pass): seq<Event> {
    When(k.reactive && k.enrich != Skipped, Plain(o, EnrichRequested))
    + When(k.recalled && k.enrich != Skipped, Plain(o, BrainLessonRecalled))
    + When(k.enrich == Told, Plain(o, RunEnriched))
  }

  function DesignEvents(o: Options, k: Pass): seq<Event> {
    StageEvents(o, k, Told, ClassifyRequested, RunClassified)
    + StageEvents(o, k, k.architect, ArchitectRequested, RunArchitected)
    + StageEvents(o, k, k.stepBack, StepBackRequested, RunSteppedBack)
  }

  function ShapeEvents(o: Options, k: Pass): seq<Event> {
    StageEvents(o, k, k.plan, PlanRequested, RunPlanned)
    + StageEvents(o, k, Sure(k.strategy), StrategyRequested, RunStrategySelected)
    + StageEvents(o, k, Sure(k.route), ModelRouteRequested, RunModelRouted)
  }

  /** Classify, architect, step back, plan, strategy, model route, enrich. */
  function PassEvents(o: Options, k: Pass): seq<Event> {
    DesignEvents(o, k) + ShapeEvents(o, k) + EnrichEvents(o, k)
  }

  // ----- the way to the attempt loop

  function Opening(o: Options, k: Kernel): seq<Event> {
    (if k.Ahead? then PassEvents(o, k.pass) else []) + [Plain(o, RunSubmitted)]
  }

  function Approval(o: Options, approved: bool): seq<Event> {
    if approved then [Plain(o, GovernanceApprovalRequired), Plain(o, GovernanceApproved)] else []
  }

  function Cleared(o: Options, e: Entry): seq<Event> {
    Opening(o, e.kernel) + Approval(o, e.approved)
  }

  function Equipped(o: Options, e: Entry): seq<Event> {
    Cleared(o, e) + When(e.tools, Plain(o, MCPInjected))
  }

  function Boxed(o: Options, e: Entry): seq<Event> {
    Equipped(o, e) + [Plain(o, SandboxCreated)]
  }

  /** Everything published before the loop when nothing goes wrong. */
  function Prelude(o: Options, e: Entry): seq<Event> {
    Boxed(o, e) + (if e.kernel.Inside? then PassEvents(o, e.kernel.pass) else []) + [Plain(o, AgentExecuting)]
  }

  /** What an early exit has published when it gives up. */
  function BeforeExit(o: Options, e: Entry, x: Exit): seq<Event> {
    match x
    case GovernanceDenies => Opening(o, e.kernel) + [Plain(o, GovernanceDenied)]
    case ApprovalFails => Opening(o, e.kernel) + [Plain(o, GovernanceApprovalRequired)]
    case WorktreeFails => Cleared(o, e)
    case ToolsFail => Cleared(o, e)
    case AuthFails => Equipped(o, e)
    case SandboxFails => Equipped(o, e)
    case LaunchFails => Prelude(o, e)
  }

  function Reason(x: Exit): string {
    match x
    case GovernanceDenies => "governance"
    case ApprovalFails => "approval"
    case WorktreeFails => "worktree"
    case ToolsFail => "mcp"
    case AuthFails => "auth"
    case SandboxFails => "sandbox"
    case LaunchFails => "exec"
  }

  /** Every early exit announces its failure, except the one that could not apply the credentials. */
  function AbortedEvents(o: Options, e: Entry, x: Exit, error: string): seq<Event> {
    BeforeExit(o, e, x) + When(x != AuthFails, Msg(o, RunFailed, FailureInfo(Reason(x), error)))
  }

  /** The loop's events followed by the finalization's. */
  function RunEvents(o: Options, w: World): seq<Event> {
    Attempts(o, w, InitialCore).1 + FinalEvents(o, w, Attempts(o, w, InitialCore).0)
  }

  /** Everything one call of Run publishes, with the kernel pass that Execute puts before it. */
  function Published(o: Options, e: Entry, c: Course): seq<Event> {
    match c
    case Aborts(x, error) => AbortedEvents(o, e, x, error)
    case Runs(w) => Prelude(o, e) + RunEvents(o, w)
  }

  // ----- which events those are

  /** The types a run publishes inside its attempt loop. */
  predicate LoopType(t: EventType) {
    match t
    case AgentExecuting | AgentCompleted | VerifyStarted | VerifyPassed | VerifyFailed
       | LintStarted | LintPassed | LintFailed | RefineTriggered | GovernanceDenied => true
    case _ => false
  }

  ghost predicate InLoop(o: Options, evs: seq<Event>) {
    forall i :: 0 <= i < |evs| ==> evs[i].runID == o.runID && LoopType(evs[i].typ)
  }

  lemma InLoopAppend(o: Options, a: seq<Event>, b: seq<Event>)
    requires InLoop(o, a) && InLoop(o, b)
    ensures InLoop(o, a + b)
  {
  }

  lemma RefineInLoop(o: Options, w: World, c: Core, g: Gate, failExit: int)
    ensures InLoop(o, RefineOrExhaust(o, w, c, g, failExit).events)
  {
  }

  lemma GateInLoop(o: Options, w: World, c: Core, g: Gate)
    ensures InLoop(o, GateStep(o, w, c, g).events)
  {
    var started := [Msg(o, StartedType(g), GateInfo(c.attempts, 0, "", ""))];
    match w.Ask(g, c.attempts)
    case GateError(e) =>
      InLoopAppend(o, started, [Msg(o, FailedType(g), GateInfo(c.attempts, 0, "", e))]);
    case GateRan(out) =>
      var failed := [Msg(o, FailedType(g), GateInfo(c.attempts, out.exitCode, out.tail, ""))];
      InLoopAppend(o, started, failed);
      InLoopAppend(o, started, [Msg(o, PassedType(g), GateInfo(c.attempts, 0, "", ""))]);
      var c1 := if g == Verify then c.(lastVerify := Some(out)) else c;
      RefineInLoop(o, w, c1, g, out.exitCode);
      InLoopAppend(o, started + failed, RefineOrExhaust(o, w, c1, g, out.exitCode).events);
  }

  lemma IfActiveInLoop(o: Options, w: World, e: Effect, g: Gate)
    requires InLoop(o, e.events)
    ensures InLoop(o, GateIfActive(o, w, e, g).events)
  {
    GateInLoop(o, w, e.core, g);
    InLoopAppend(o, e.events, GateStep(o, w, e.core, g).events);
  }

  lemma AttemptInLoop(o: Options, w: World, c: Core)
    ensures InLoop(o, Attempt(o, w, c).events)
  {
    var a := AgentStep(o, w, c);
    assert InLoop(o, a.events);
    IfActiveInLoop(o, w, a, Verify);
    IfActiveInLoop(o, w, GateIfActive(o, w, a, Verify), Lint);
  }

  lemma {:induction false} LoopInLoop(o: Options, w: World, c: Core)
    ensures InLoop(o, Attempts(o, w, c).1)
    decreases Left(o, c)
  {
    ReloopConsumesAttempt(o, w, c);
    AttemptInLoop(o, w, c);
    var e := Attempt(o, w, c);
    if e.outcome == Reloop {
      LoopInLoop(o, w, e.core);
      InLoopAppend(o, e.events, Attempts(o, w, e.core).1);
    }
  }

  /** The run's own events, without the one that ends it. */
  ghost predicate Underway(o: Options, evs: seq<Event>) {
    forall i :: 0 <= i < |evs| ==>
      evs[i].runID == o.runID && !Sse.IsTerminal(evs[i].typ) && !IsAside(evs[i].typ)
  }

  lemma UnderwayAppend(o: Options, a: seq<Event>, b: seq<Event>)
    requires Underway(o, a) && Underway(o, b)
    ensures Underway(o, a + b)
  {
  }

  lemma StageIsUnderway(o: Options, k: Pass, r: Report, command: EventType, result: EventType)
    requires !Sse.IsTerminal(command) && !IsAside(command)
    requires !Sse.IsTerminal(result) && !IsAside(result)
    ensures Underway(o, StageEvents(o, k, r, command, result))
  {
  }

  /** A sequence of three parts, none of which ends the run. */
  lemma JoinedIsUnderway(o: Options, a: seq<Event>, b: seq<Event>, c: seq<Event>, all: seq<Event>)
    requires Underway(o, a) && Underway(o, b) && Underway(o, c) && all == a + b + c
    ensures Underway(o, all)
  {
    UnderwayAppend(o, a, b);
    UnderwayAppend(o, a + b, c);
  }

  lemma DesignIsUnderway(o: Options, k: Pass)
    ensures Underway(o, DesignEvents(o, k))
  {
    var a := StageEvents(o, k, Told, ClassifyRequested, RunClassified);
    var b := StageEvents(o, k, k.architect, ArchitectRequested, RunArchitected);
    var c := StageEvents(o, k, k.stepBack, StepBackRequested, RunSteppedBack);
    assert Underway(o, a) by { StageIsUnderway(o, k, Told, ClassifyRequested, RunClassified); }
    assert Underway(o, b) by { StageIsUnderway(o, k, k.architect, ArchitectRequested, RunArchitected); }
    assert Underway(o, c) by { StageIsUnderway(o, k, k.stepBack, StepBackRequested, RunSteppedBack); }
    JoinedIsUnderway(o, a, b, c, DesignEvents(o, k));
  }

  lemma ShapeIsUnderway(o: Options, k: Pass)
    ensures Underway(o, ShapeEvents(o, k))
  {
    var a := StageEvents(o, k, k.plan, PlanRequested, RunPlanned);
    var b := StageEvents(o, k, Sure(k.strategy), StrategyRequested, RunStrategySelected);
    var c := StageEvents(o, k, Sure(k.route), ModelRouteRequested, RunModelRouted);
    assert Underway(o, a) by { StageIsUnderway(o, k, k.plan, PlanRequested, RunPlanned); }
    assert Underway(o, b) by { StageIsUnderway(o, k, Sure(k.strategy), StrategyRequested, RunStrategySelected); }
    assert Underway(o, c) by { StageIsUnderway(o, k, Sure(k.route), ModelRouteRequested, RunModelRouted); }
    JoinedIsUnderway(o, a, b, c, ShapeEvents(o, k));
  }

  lemma EnrichIsUnderway(o: Options, k: Pass)
    ensures Underway(o, EnrichEvents(o, k))
  {
  }

  lemma PassIsUnderway(o: Options, k: Pass)
    ensures Underway(o, PassEvents(o, k))
  {
    DesignIsUnderway(o, k);
    ShapeIsUnderway(o, k);
    EnrichIsUnderway(o, k);
    JoinedIsUnderway(o, DesignEvents(o, k), ShapeEvents(o, k), EnrichEvents(o, k), PassEvents(o, k));
  }

  lemma OpeningIsUnderway(o: Options, k: Kernel)
    ensures Underway(o, Opening(o, k))
  {
    if k.Ahead? {
      PassIsUnderway(o, k.pass);
      UnderwayAppend(o, PassEvents(o, k.pass), [Plain(o, RunSubmitted)]);
    }
  }

  lemma EquippedIsUnderway(o: Options, e: Entry)
    ensures Underway(o, Opening(o, e.kernel)) && Underway(o, Cleared(o, e)) && Underway(o, Equipped(o, e))
  {
    OpeningIsUnderway(o, e.kernel);
    UnderwayAppend(o, Opening(o, e.kernel), Approval(o, e.approved));
    UnderwayAppend(o, Cleared(o, e), When(e.tools, Plain(o, MCPInjected)));
  }

  lemma PreludeIsUnderway(o: Options, e: Entry)
    ensures Underway(o, Prelude(o, e))
  {
    EquippedIsUnderway(o, e);
    UnderwayAppend(o, Equipped(o, e), [Plain(o, SandboxCreated)]);
    var inside := if e.kernel.Inside? then PassEvents(o, e.kernel.pass) else [];
    if e.kernel.Inside? {
      PassIsUnderway(o, e.kernel.pass);
    }
    JoinedIsUnderway(o, Boxed(o, e), inside, [Plain(o, AgentExecuting)], Prelude(o, e));
  }

  lemma BeforeExitIsUnderway(o: Options, e: Entry, x: Exit)
    ensures Underway(o, BeforeExit(o, e, x))
  {
    EquippedIsUnderway(o, e);
    PreludeIsUnderway(o, e);
    UnderwayAppend(o, Opening(o, e.kernel), [Plain(o, GovernanceDenied)]);
    UnderwayAppend(o, Opening(o, e.kernel), [Plain(o, GovernanceApprovalRequired)]);
  }

  // ----- where a stream of the run closes

  /** Everything but the event that ends the run, if it publishes one. */
  function Body(o: Options, e: Entry, c: Course): seq<Event> {
    match c
    case Aborts(x, _) => BeforeExit(o, e, x)
    case Runs(w) => Prelude(o, e) + (Attempts(o, w, InitialCore).1 + [Plain(o, SandboxDestroyed)])
  }

  /** The last event of a run that ends in public. */
  function End(o: Options, c: Course): Event {
    match c
    case Aborts(x, error) => Msg(o, RunFailed, FailureInfo(Reason(x), error))
    case Runs(w) => FinalEvents(o, w, Attempts(o, w, InitialCore).0)[1]
  }

  predicate EndsInPublic(c: Course) {
    c.Aborts? ==> c.exit != AuthFails
  }

  lemma InLoopIsUnderway(o: Options, evs: seq<Event>)
    requires InLoop(o, evs)
    ensures Underway(o, evs)
  {
  }

  lemma LoopIsUnderway(o: Options, w: World)
    ensures Underway(o, Attempts(o, w, InitialCore).1 + [Plain(o, SandboxDestroyed)])
  {
    LoopInLoop(o, w, InitialCore);
    InLoopIsUnderway(o, Attempts(o, w, InitialCore).1);
    UnderwayAppend(o, Attempts(o, w, InitialCore).1, [Plain(o, SandboxDestroyed)]);
  }

  lemma BodyIsUnderway(o: Options, e: Entry, c: Course)
    ensures Underway(o, Body(o, e, c))
  {
    match c
    case Aborts(x, _) => BeforeExitIsUnderway(o, e, x);
    case Runs(w) =>
      PreludeIsUnderway(o, e);
      LoopIsUnderway(o, w);
      UnderwayAppend(o, Prelude(o, e), Attempts(o, w, InitialCore).1 + [Plain(o, SandboxDestroyed)]);
  }

  lemma PublishedSplits(o: Options, e: Entry, c: Course)
    ensures Published(o, e, c) == Body(o, e, c) + When(EndsInPublic(c), End(o, c))
    ensures End(o, c).runID == o.runID && Sse.IsTerminal(End(o, c).typ)
  {
    if c.Runs? {
      var (r, loop) := Attempts(o, c.world, InitialCore);
      var last := FinalEvents(o, c.world, r);
      assert last == [Plain(o, SandboxDestroyed)] + [End(o, c)];
      ConcatAssociative(loop, [Plain(o, SandboxDestroyed)], [End(o, c)]);
      ConcatAssociative(Prelude(o, e), loop + [Plain(o, SandboxDestroyed)], [End(o, c)]);
    }
  }

  /** The last event, and no other, is one that closes streams. */
  ghost predicate ClosesAtEnd(evs: seq<Event>) {
    evs != [] && forall i :: 0 <= i < |evs| ==> (Sse.IsTerminal(evs[i].typ) <==> i == |evs| - 1)
  }

  lemma UnderwayStaysOpen(o: Options, body: seq<Event>)
    requires Underway(o, body)
    ensures !Sse.Ends(body)
  {
  }

  /**
   A run publishes a closing event exactly when it does not fail on its credentials, and it
   publishes it last. Which streams that event closes is the subject of RunDelivery.dfy.
   */
  lemma RunEndsItsLog(o: Options, e: Entry, c: Course)
    ensures var evs := Published(o, e, c);
      if EndsInPublic(c) then ClosesAtEnd(evs) && Sse.UpToTerminal(evs) == evs else !Sse.Ends(evs)
  {
    var body := Body(o, e, c);
    BodyIsUnderway(o, e, c);
    PublishedSplits(o, e, c);
    UnderwayStaysOpen(o, body);
    if EndsInPublic(c) {
      Sse.UpToTerminalSnoc(body, End(o, c));
    } else {
      assert Published(o, e, c) == body;
    }
  }

  /** The roles that Coordinate lets publish once Run has been awaited. */
  datatype Advice = Advice(review: bool, security: bool, performance: bool, refactoring: bool, report: bool)

  function AdviceEvents(o: Options, a: Advice): seq<Event> {
    When(a.review, Plain(o, ReviewGenerated)) + When(a.security, Plain(o, SecurityReviewed))
    + When(a.performance, Plain(o, PerformanceReviewed)) + When(a.refactoring, Plain(o, RefactoringReviewed))
    + When(a.report, Plain(o, ReportGenerated))
  }

  // ----- both drivers

  function Own(evs: seq<Event>): seq<Event> {
    Filter(evs, (ev: Event) => !IsAside(ev.typ))
  }

  /**
   The run as it is seen: either driver of the attempt loop, whose commands come on top, and
   the scheduler's announcements wherever they fall, since it makes them outside its lock.
   */
  ghost predicate IsRun(o: Options, e: Entry, w: World, evs: seq<Event>) {
    Own(evs) == Published(o, e, Runs(w))
  }

  /** An event of the run itself comes last. */
  predicate EndsInOwn(evs: seq<Event>) {
    evs != [] && !IsAside(evs[|evs| - 1].typ)
  }

  ghost predicate NoAsides(evs: seq<Event>) {
    forall i :: 0 <= i < |evs| ==> !IsAside(evs[i].typ)
  }

  lemma NoAsidesKept(evs: seq<Event>)
    requires NoAsides(evs)
    ensures Results(evs) == evs && Own(evs) == evs
  {
    FilterAll(evs, (ev: Event) => !IsCycleCommand(ev.typ));
    FilterAll(evs, (ev: Event) => !IsAside(ev.typ));
  }

  lemma ResultsAppend(a: seq<Event>, b: seq<Event>)
    ensures Results(a + b) == Results(a) + Results(b)
  {
    FilterAppend(a, b, (ev: Event) => !IsCycleCommand(ev.typ));
  }

  lemma {:induction false} OwnOfResults(evs: seq<Event>)
    ensures Own(Results(evs)) == Own(evs)
    decreases |evs|
  {
    if evs != [] {
      var rest := Results(evs[1..]);
      assert ([evs[0]] + rest)[1..] == rest;
      OwnOfResults(evs[1..]);
    }
  }

  lemma PublishedIsOwn(o: Options, e: Entry, c: Course)
    ensures NoAsides(Published(o, e, c)) && Own(Published(o, e, c)) == Published(o, e, c)
  {
    assert NoAsides(Published(o, e, c)) by {
      BodyIsUnderway(o, e, c);
      PublishedSplits(o, e, c);
      NoAsidesBefore(o, Body(o, e, c), EndsInPublic(c), End(o, c));
    }
    NoAsidesKept(Published(o, e, c));
  }

  lemma NoAsidesBefore(o: Options, body: seq<Event>, ended: bool, end: Event)
    requires Underway(o, body) && Sse.IsTerminal(end.typ)
    ensures NoAsides(body + When(ended, end))
  {
  }

  lemma FinalIsOwn(o: Options, w: World, c: Core)
    ensures NoAsides(FinalEvents(o, w, c)) && EndsInOwn(FinalEvents(o, w, c))
  {
  }

  lemma EndsLikeSuffix(a: seq<Event>, b: seq<Event>)
    requires EndsInOwn(b)
    ensures EndsInOwn(a + b)
  {
    assert (a + b)[|a + b| - 1] == b[|b| - 1];
  }

  lemma LogIsRun(o: Options, e: Entry, w: World, log: seq<Event>)
    requires Results(log) == Prelude(o, e) + Attempts(o, w, InitialCore).1
    ensures var all := log + FinalEvents(o, w, Attempts(o, w, InitialCore).0);
      Results(all) == Published(o, e, Runs(w)) && IsRun(o, e, w, all) && EndsInOwn(all)
  {
    var (r, evs) := Attempts(o, w, InitialCore);
    var last := FinalEvents(o, w, r);
    assert Results(last) == last && EndsInOwn(last) by {
      FinalIsOwn(o, w, r);
      NoAsidesKept(last);
    }
    EndsLikeSuffix(log, last);
    assert Results(log + last) == Prelude(o, e) + (evs + last) by {
      ResultsAppend(log, last);
      ConcatAssociative(Prelude(o, e), evs, last);
    }
    PublishedIsOwn(o, e, Runs(w));
    OwnOfResults(log + last);
  }

  /** From the attempt loop on: either driver, then the finalization. */
  method Drive(o: Options, e: Entry, w: World, reactive: bool) returns (published: seq<Event>)
    ensures Results(published) == Published(o, e, Runs(w)) && IsRun(o, e, w, published)
    ensures !reactive ==> published == Published(o, e, Runs(w))
    ensures EndsInOwn(published)
  {
    var cycle := new Cycle(o, w);
    cycle.published := Prelude(o, e);
    assert Results(Prelude(o, e)) == Prelude(o, e) by {
      PreludeIsUnderway(o, e);
      NoAsidesKept(Prelude(o, e));
    }
    LoopIsResults(o, w);
    if reactive {
      RunReactive(cycle);
    } else {
      cycle.RunImperative();
      ResultsAppend(Prelude(o, e), Attempts(o, w, InitialCore).1);
      ConcatAssociative(Prelude(o, e), Attempts(o, w, InitialCore).1, FinalEvents(o, w, Attempts(o, w, InitialCore).0));
    }
    LogIsRun(o, e, w, cycle.published);
    published := cycle.published
      + FinalEvents(o, w, Core(cycle.attempts, cycle.exec, cycle.lastVerify, cycle.expired));
  }

  lemma LoopIsResults(o: Options, w: World)
    ensures Results(Attempts(o, w, InitialCore).1) == Attempts(o, w, InitialCore).1
  {
    LoopInLoop(o, w, InitialCore);
    NoAsidesKept(Attempts(o, w, InitialCore).1);
  }
}
