/** The run state machine over everything a run publishes, compared with the Result of the run. */
module RunTracking {
  import opened Common
  import opened Events
  import opened Runtime
  import opened RefineCycle
  import opened ReactiveCycle
  import opened CycleLaws
  import opened CycleTracking
  import opened Governance
  import opened RunStream
  import Sse

  const START := Place(Submitted, 1, 3)

  lemma WalkBetween(p: Place, a: seq<Event>, b: seq<Event>, q: Place, r: Place)
    requires Walk(p, a) == q && Walk(q, b) == r
    ensures Walk(p, a + b) == r
  {
    WalkAppend(p, a, b);
  }

  lemma WalkThrough(p: Place, a: seq<Event>, b: seq<Event>, c: seq<Event>, all: seq<Event>,
                    q: Place, r: Place, t: Place)
    requires all == a + b + c && Walk(p, a) == q && Walk(q, b) == r && Walk(r, c) == t
    ensures Walk(p, all) == t
  {
    WalkAppend(p, a, b);
    WalkAppend(p, a + b, c);
  }

  lemma WalkWhen(p: Place, c: bool, ev: Event)
    ensures Walk(p, When(c, ev)) == if c then Hop(p, ev.typ) else p
  {
    WalkOne(p, ev);
  }

  // ----- the kernel's pass

  /** A stage moves the machine by its result only. */
  lemma StageWalks(o: Options, k: Pass, r: Report, command: EventType, result: EventType, p: Place)
    requires Hop(p, command) == p
    ensures Walk(p, StageEvents(o, k, r, command, result)) == if r == Told then Hop(p, result) else p
  {
    var announced := When(k.reactive && r != Skipped, Plain(o, command));
    WalkWhen(p, k.reactive && r != Skipped, Plain(o, command));
    WalkWhen(p, r == Told, Plain(o, result));
    WalkAppend(p, announced, When(r == Told, Plain(o, result)));
  }

  /** Most of what the kernel publishes is observation only, or has no transition anywhere. */
  predicate Unnoticed(t: EventType) {
    match t
    case ClassifyRequested | ArchitectRequested | StepBackRequested | PlanRequested | StrategyRequested
       | ModelRouteRequested | EnrichRequested | RunArchitected | RunSteppedBack | RunStrategySelected
       | RunModelRouted | BrainLessonRecalled | RunSubmitted | MCPInjected | GovernanceDenied => true
    case _ => false
  }

  lemma UnnoticedStays(p: Place, t: EventType)
    requires Unnoticed(t)
    ensures Hop(p, t) == p
  {
  }

  lemma IdleStageWalks(o: Options, k: Pass, r: Report, command: EventType, result: EventType, p: Place)
    requires Unnoticed(command) && Unnoticed(result)
    ensures Walk(p, StageEvents(o, k, r, command, result)) == p
  {
    UnnoticedStays(p, command);
    UnnoticedStays(p, result);
    StageWalks(o, k, r, command, result, p);
  }

  lemma MovingStageWalks(o: Options, k: Pass, r: Report, command: EventType, result: EventType, p: Place, q: Place)
    requires Unnoticed(command) && q == if r == Told then Hop(p, result) else p
    ensures Walk(p, StageEvents(o, k, r, command, result)) == q
  {
    UnnoticedStays(p, command);
    StageWalks(o, k, r, command, result, p);
  }

  lemma DesignWalks(o: Options, k: Pass, p: Place, q: Place)
    requires q == Hop(p, RunClassified)
    ensures Walk(p, DesignEvents(o, k)) == q
  {
    var a := StageEvents(o, k, Told, ClassifyRequested, RunClassified);
    var b := StageEvents(o, k, k.architect, ArchitectRequested, RunArchitected);
    var c := StageEvents(o, k, k.stepBack, StepBackRequested, RunSteppedBack);
    assert Walk(p, a) == q by { MovingStageWalks(o, k, Told, ClassifyRequested, RunClassified, p, q); }
    assert Walk(q, b) == q by { IdleStageWalks(o, k, k.architect, ArchitectRequested, RunArchitected, q); }
    assert Walk(q, c) == q by { IdleStageWalks(o, k, k.stepBack, StepBackRequested, RunSteppedBack, q); }
    WalkThrough(p, a, b, c, DesignEvents(o, k), q, q, q);
  }

  lemma ShapeWalks(o: Options, k: Pass, p: Place, q: Place)
    requires q == if k.plan == Told then Hop(p, RunPlanned) else p
    ensures Walk(p, ShapeEvents(o, k)) == q
  {
    var a := StageEvents(o, k, k.plan, PlanRequested, RunPlanned);
    var b := StageEvents(o, k, Sure(k.strategy), StrategyRequested, RunStrategySelected);
    var c := StageEvents(o, k, Sure(k.route), ModelRouteRequested, RunModelRouted);
    assert Walk(p, a) == q by { MovingStageWalks(o, k, k.plan, PlanRequested, RunPlanned, p, q); }
    assert Walk(q, b) == q by { IdleStageWalks(o, k, Sure(k.strategy), StrategyRequested, RunStrategySelected, q); }
    assert Walk(q, c) == q by { IdleStageWalks(o, k, Sure(k.route), ModelRouteRequested, RunModelRouted, q); }
    WalkThrough(p, a, b, c, ShapeEvents(o, k), q, q, q);
  }

  lemma EnrichWalks(o: Options, k: Pass, p: Place, q: Place)
    requires q == if k.enrich == Told then Hop(p, RunEnriched) else p
    ensures Walk(p, EnrichEvents(o, k)) == q
  {
    var a := When(k.reactive && k.enrich != Skipped, Plain(o, EnrichRequested));
    var b := When(k.recalled && k.enrich != Skipped, Plain(o, BrainLessonRecalled));
    var c := When(k.enrich == Told, Plain(o, RunEnriched));
    UnnoticedStays(p, EnrichRequested);
    UnnoticedStays(p, BrainLessonRecalled);
    WalkWhen(p, k.reactive && k.enrich != Skipped, Plain(o, EnrichRequested));
    WalkWhen(p, k.recalled && k.enrich != Skipped, Plain(o, BrainLessonRecalled));
    WalkWhen(p, k.enrich == Told, Plain(o, RunEnriched));
    WalkThrough(p, a, b, c, EnrichEvents(o, k), p, p, q);
  }

  /** The three results that can move the machine, in the order in which they come. */
  function AfterPass(k: Pass, p: Place): Place {
    var q := Hop(p, RunClassified);
    var r := if k.plan == Told then Hop(q, RunPlanned) else q;
    if k.enrich == Told then Hop(r, RunEnriched) else r
  }

  lemma PassWalks(o: Options, k: Pass, p: Place)
    ensures Walk(p, PassEvents(o, k)) == AfterPass(k, p)
  {
    var q := Hop(p, RunClassified);
    var r := if k.plan == Told then Hop(q, RunPlanned) else q;
    DesignWalks(o, k, p, q);
    ShapeWalks(o, k, q, r);
    EnrichWalks(o, k, r, AfterPass(k, p));
    WalkThrough(p, DesignEvents(o, k), ShapeEvents(o, k), EnrichEvents(o, k), PassEvents(o, k), q, r, AfterPass(k, p));
  }

  // ----- the way to the attempt loop

  /** Where the machine is when the run is submitted. */
  function Landing(k: Kernel): Phase {
    match k
    case Ahead(p) => if p.enrich == Told then Enriched else if p.plan == Told then Planned else Classified
    case _ => Submitted
  }

  /** The kernel ran ahead of the run and enriched nothing. */
  predicate Stalled(k: Kernel) {
    k.Ahead? && k.pass.enrich != Told
  }

  function Landed(k: Kernel): Place {
    Place(Landing(k), 1, 3)
  }

  /** From the start the pass lands where its last result leads; once the sandbox is ready it is not noticed. */
  lemma AfterPassFrom(k: Pass)
    ensures AfterPass(k, START) == Landed(Ahead(k))
    ensures AfterPass(k, Place(SandboxReady, 1, 3)) == Place(SandboxReady, 1, 3)
  {
  }

  lemma OpeningWalks(o: Options, k: Kernel)
    ensures Walk(START, Opening(o, k)) == Landed(k)
  {
    var submitted := Plain(o, RunSubmitted);
    WalkOne(Landed(k), submitted);
    UnnoticedStays(Landed(k), RunSubmitted);
    if k.Ahead? {
      PassWalks(o, k.pass, START);
      AfterPassFrom(k.pass);
      WalkBetween(START, PassEvents(o, k.pass), [submitted], Landed(k), Landed(k));
    } else {
      assert [] + [submitted] == [submitted];
    }
  }

  /** A request for approval parks a submitted run, and is not noticed in any other phase. */
  lemma ApprovalHops(p: Place)
    requires p.phase in {Submitted, Classified, Planned, Enriched}
    ensures var q := Hop(p, GovernanceApprovalRequired);
      Abortable(q.phase) && q.attempt == p.attempt && Hop(q, GovernanceApproved) == p
  {
  }

  lemma ApprovalWalks(o: Options, approved: bool, p: Place)
    requires p.phase in {Submitted, Classified, Planned, Enriched}
    ensures Walk(p, Approval(o, approved)) == p
  {
    if approved {
      WalkTwo(p, Plain(o, GovernanceApprovalRequired), Plain(o, GovernanceApproved));
      ApprovalHops(p);
    }
  }

  lemma EquippedWalks(o: Options, e: Entry)
    ensures Walk(START, Cleared(o, e)) == Walk(START, Equipped(o, e)) == Landed(e.kernel)
  {
    var p := Landed(e.kernel);
    OpeningWalks(o, e.kernel);
    ApprovalWalks(o, e.approved, p);
    WalkWhen(p, e.tools, Plain(o, MCPInjected));
    UnnoticedStays(p, MCPInjected);
    WalkBetween(START, Opening(o, e.kernel), Approval(o, e.approved), p, p);
    WalkBetween(START, Cleared(o, e), When(e.tools, Plain(o, MCPInjected)), p, p);
  }

  function Ready(k: Kernel): Place {
    if Stalled(k) then Landed(k) else Place(SandboxReady, 1, 3)
  }

  function Launched(k: Kernel): Place {
    if Stalled(k) then Landed(k) else Place(Executing, 1, 3)
  }

  lemma InsideWalks(o: Options, k: Kernel)
    ensures Walk(Ready(k), if k.Inside? then PassEvents(o, k.pass) else []) == Ready(k)
  {
    if k.Inside? {
      PassWalks(o, k.pass, Ready(k));
      AfterPassFrom(k.pass);
    }
  }

  lemma StepsWalk(o: Options, k: Kernel)
    ensures Walk(Landed(k), [Plain(o, SandboxCreated)]) == Ready(k)
    ensures Walk(Ready(k), [Plain(o, AgentExecuting)]) == Launched(k)
  {
    WalkOne(Landed(k), Plain(o, SandboxCreated));
    WalkOne(Ready(k), Plain(o, AgentExecuting));
  }

  lemma PreludeWalks(o: Options, e: Entry)
    ensures Walk(START, Prelude(o, e)) == Launched(e.kernel)
  {
    var p, q, r, k := Landed(e.kernel), Ready(e.kernel), Launched(e.kernel), e.kernel;
    var inside := if k.Inside? then PassEvents(o, k.pass) else [];
    EquippedWalks(o, e);
    StepsWalk(o, k);
    InsideWalks(o, k);
    WalkBetween(START, Equipped(o, e), [Plain(o, SandboxCreated)], p, q);
    WalkThrough(START, Boxed(o, e), inside, [Plain(o, AgentExecuting)], Prelude(o, e), q, q, r);
  }

  /**
   The machine is executing when the loop starts exactly when it was in Submitted or
   Enriched when the run was submitted, which is to say when the kernel did not run ahead
   without enriching. Otherwise it is still where the kernel left it.
   */
  lemma PreludeReachesExecuting(o: Options, e: Entry)
    ensures var end, before := Walk(START, Prelude(o, e)), Walk(START, Opening(o, e.kernel)).phase;
      && end.attempt == 1 && end.cap == 3
      && (end.phase == Executing <==> !Stalled(e.kernel))
      && (end.phase == Executing <==> before in {Submitted, Enriched})
      && (end.phase != Executing ==> end.phase == before)
  {
    PreludeWalks(o, e);
    OpeningWalks(o, e.kernel);
  }

  // ----- runs that reach the attempt loop

  function PhaseOf(s: Status): Phase {
    match s
    case Success => Completed
    case Failure => Failed
    case Cancelled => Phase.Cancelled
  }

  /** The machine ends in the phase of the final status, with the attempt count of the Result. */
  ghost predicate Matches(o: Options, w: World, end: Place) {
    var r := FinalResult(o, w, Attempts(o, w, InitialCore).0);
    end.phase == PhaseOf(r.status) && end.attempt == r.attempts
  }

  function FinalType(s: Status): EventType {
    match s
    case Success => RunCompleted
    case Cancelled => RunCancelled
    case Failure => RunFailed
  }

  lemma FinishWalks(o: Options, w: World, r: Core, m: Place)
    ensures Walk(m, FinalEvents(o, w, r)) == Hop(m, FinalType(FinalStatus(o, w, r)))
  {
    var last := FinalEvents(o, w, r);
    WalkTwo(m, last[0], last[1]);
    assert last == [last[0], last[1]];
    assert Hop(m, SandboxDestroyed) == m;
  }

  /** From Executing at attempt 1, the machine matches the Result exactly when its own cap sufficed. */
  lemma MatchesExactly(o: Options, w: World, m: Place)
    requires m.phase == Executing && m.attempt == 1 <= m.cap
    ensures Matches(o, w, Walk(m, RunEvents(o, w))) <==> Attempts(o, w, InitialCore).0.attempts <= m.cap
  {
    var (r, evs) := Attempts(o, w, InitialCore);
    LoopTracked(o, w, InitialCore, m);
    WalkAppend(m, evs, FinalEvents(o, w, r));
    FinishWalks(o, w, r, Walk(m, evs));
    FinishMatches(o, w, r, evs, Walk(m, evs), m);
  }

  lemma FinishMatches(o: Options, w: World, r: Core, evs: seq<Event>, q: Place, m: Place)
    requires Tracked(o, Effect(r, evs, Stop), q, m)
    ensures var end := Hop(q, FinalType(FinalStatus(o, w, r)));
      (end.phase == PhaseOf(FinalStatus(o, w, r)) && end.attempt == r.attempts) <==> r.attempts <= m.cap
  {
  }

  /** A machine that the kernel left behind notices nothing of the loop. */
  lemma {:induction false} LoopIsUnnoticed(o: Options, p: Place, evs: seq<Event>)
    requires p.phase in {Classified, Planned} && InLoop(o, evs)
    ensures Walk(p, evs) == p
    decreases |evs|
  {
    if evs != [] {
      LoopIsUnnoticed(o, p, evs[1..]);
    }
  }

  /** It can still be failed or cancelled, but not completed. */
  lemma StalledMatches(o: Options, w: World, p: Place)
    requires p.phase in {Classified, Planned} && p.attempt == 1
    ensures var r := Attempts(o, w, InitialCore).0;
      Matches(o, w, Walk(p, RunEvents(o, w))) <==> FinalStatus(o, w, r) != Success && r.attempts == 1
  {
    var (r, evs) := Attempts(o, w, InitialCore);
    LoopInLoop(o, w, InitialCore);
    LoopIsUnnoticed(o, p, evs);
    WalkAppend(p, evs, FinalEvents(o, w, r));
    FinishWalks(o, w, r, p);
    StalledEnds(p, FinalStatus(o, w, r));
  }

  lemma StalledEnds(p: Place, s: Status)
    requires p.phase in {Classified, Planned}
    ensures var end := Hop(p, FinalType(s)); end.attempt == p.attempt && (end.phase == PhaseOf(s) <==> s != Success)
  {
  }

  /** The runs whose Result the machine ends up with. */
  predicate Follows(o: Options, k: Kernel, w: World) {
    var r := Attempts(o, w, InitialCore).0;
    if Stalled(k) then FinalStatus(o, w, r) != Success && r.attempts == 1 else r.attempts <= 3
  }

  lemma WalkMatches(o: Options, e: Entry, w: World)
    ensures Matches(o, w, Walk(START, Published(o, e, Runs(w)))) <==> Follows(o, e.kernel, w)
  {
    PreludeWalks(o, e);
    WalkAppend(START, Prelude(o, e), RunEvents(o, w));
    if Stalled(e.kernel) {
      StalledMatches(o, w, Launched(e.kernel));
    } else {
      MatchesExactly(o, w, Launched(e.kernel));
    }
  }

  ghost predicate NamesRun(o: Options, evs: seq<Event>) {
    forall i :: 0 <= i < |evs| ==> evs[i].runID == o.runID || IsObservationOnly(evs[i].typ)
  }

  lemma PublishedNamesRun(o: Options, e: Entry, c: Course)
    ensures NamesRun(o, Published(o, e, c))
  {
    BodyIsUnderway(o, e, c);
    PublishedSplits(o, e, c);
  }

  /** What is not an aside is among the run's own events. */
  lemma {:induction false} OwnNamesRun(o: Options, evs: seq<Event>)
    requires NamesRun(o, Own(evs))
    ensures NamesRun(o, evs)
    decreases |evs|
  {
    if evs != [] {
      var own, rest := Own(evs), Own(evs[1..]);
      if IsAside(evs[0].typ) {
        assert own == rest;
      } else {
        assert own == [evs[0]] + rest && own[0] == evs[0];
        assert forall i :: 0 <= i < |rest| ==> own[i + 1] == rest[i];
      }
      OwnNamesRun(o, evs[1..]);
      assert forall i :: 1 <= i < |evs| ==> evs[i] == evs[1..][i - 1];
    }
  }

  lemma CourseProjects(o: Options, e: Entry, c: Course, now: int, trace: seq<Stamped>)
    requires Carries(trace, Published(o, e, c))
    ensures PlaceOf(Project(NewState(o.runID, now), trace)) == Walk(START, Published(o, e, c))
  {
    PublishedNamesRun(o, e, c);
    WalkIsProjection(NewState(o.runID, now), trace, Published(o, e, c));
  }

  lemma RunProjects(o: Options, e: Entry, w: World, evs: seq<Event>, now: int, trace: seq<Stamped>)
    requires IsRun(o, e, w, evs) && Carries(trace, evs)
    ensures PlaceOf(Project(NewState(o.runID, now), trace)) == Walk(START, Published(o, e, Runs(w)))
  {
    PublishedNamesRun(o, e, Runs(w));
    OwnNamesRun(o, evs);
    ErasureIsInert(START, evs, (ev: Event) => !IsAside(ev.typ));
    WalkIsProjection(NewState(o.runID, now), trace, evs);
  }

  /**
   For one world, either driver, the kernel ahead of the run, inside it or missing, with the
   scheduler's announcements anywhere, and whatever ids, timestamps and clock readings the
   events get: the projection of the run
   matches its Result exactly when it took at most three attempts, or, if the kernel ran
   ahead without enriching, when it took one and did not succeed.
   */
  lemma WholeRunMatches(o: Options, e: Entry, w: World, evs: seq<Event>, now: int, trace: seq<Stamped>)
    requires IsRun(o, e, w, evs) && Carries(trace, evs)
    ensures Matches(o, w, PlaceOf(Project(NewState(o.runID, now), trace))) <==> Follows(o, e.kernel, w)
  {
    RunProjects(o, e, w, evs, now, trace);
    WalkMatches(o, e, w);
  }

  // ----- configurations

  /** The run gets past the governance gate, with an approval exactly when a review asks for one. */
  predicate Passes(engine: Option<seq<Policy>>, e: Entry) {
    match Judge(engine, Action(ActionExecute, 1)).result
    case Deny => false
    case Review => e.approved
    case Allow => !e.approved
  }

  predicate Barred(engine: Option<seq<Policy>>) {
    Judge(engine, Action(ActionExecute, 1)).result == Deny
  }

  /** A run of this configuration, engine and kernel pass that reaches the attempt loop, under either driver. */
  ghost predicate RunOf(o: Options, engine: Option<seq<Policy>>, k: Kernel, e: Entry, w: World, evs: seq<Event>) {
    e.kernel == k && w.policies == engine && Passes(engine, e) && IsRun(o, e, w, evs)
  }

  /** The state machine follows every such run, however it goes. */
  ghost predicate AlwaysTracks(o: Options, engine: Option<seq<Policy>>, k: Kernel, now: int) {
    forall e: Entry, w: World, evs: seq<Event>, trace: seq<Stamped> ::
      RunOf(o, engine, k, e, w, evs) && Carries(trace, evs) ==>
        Matches(o, w, PlaceOf(Project(NewState(o.runID, now), trace)))
  }

  /** Nothing lets a run take more than three attempts: no gate, the cap, or an earlier refusal. */
  predicate ShortLoops(o: Options, engine: Option<seq<Policy>>) {
    !o.Gated() || o.EffectiveMax() <= 3 || Refused(engine, 2) || Refused(engine, 3) || Refused(engine, 4)
  }

  /** Events stamped with some clock reading. */
  function Stamp(evs: seq<Event>, now: int): (trace: seq<Stamped>)
    ensures Carries(trace, evs)
  {
    seq(|evs|, i requires 0 <= i < |evs| => Stamped(evs[i], now))
  }

  /** One world that is not followed refutes a configuration whose runs are not barred. */
  lemma NotAlways(o: Options, k: Kernel, now: int, w: World)
    requires !Follows(o, k, w) && !Barred(w.policies)
    ensures !AlwaysTracks(o, w.policies, k, now)
  {
    var e := Entry(k, Judge(w.policies, Action(ActionExecute, 1)).result == Review, false);
    var evs := Published(o, e, Runs(w));
    assert IsRun(o, e, w, evs) by { PublishedIsOwn(o, e, Runs(w)); }
    assert RunOf(o, w.policies, k, e, w, evs);
    WholeRunMatches(o, e, w, evs, now, Stamp(evs, now));
  }

  lemma ShortLoopsAreShort(o: Options, w: World)
    requires ShortLoops(o, w.policies)
    ensures Attempts(o, w, InitialCore).0.attempts <= 3
  {
    UngatedRunsOnce(o, w);
    AttemptsWithinCap(o, w, InitialCore);
    if Refused(w.policies, 2) {
      AttemptsBelowRefusal(o, w, InitialCore, 2);
    } else if Refused(w.policies, 3) {
      AttemptsBelowRefusal(o, w, InitialCore, 3);
    } else if Refused(w.policies, 4) {
      AttemptsBelowRefusal(o, w, InitialCore, 4);
    }
  }

  /**
   Exactly when governance bars every run, or the kernel did not run ahead of the run
   without enriching and nothing lets a run take more attempts than the machine's own cap.
   */
  lemma TrackingIsExact(o: Options, engine: Option<seq<Policy>>, k: Kernel, now: int)
    ensures AlwaysTracks(o, engine, k, now) <==> Barred(engine) || (!Stalled(k) && ShortLoops(o, engine))
  {
    if Barred(engine) {
      assert AlwaysTracks(o, engine, k, now);
    } else if Stalled(k) {
      SmoothRunSucceeds(o, engine);
      NotAlways(o, k, now, SmoothWorld(engine));
    } else if !ShortLoops(o, engine) {
      StubbornRunsOn(o, engine, InitialCore, 4);
      NotAlways(o, k, now, StubbornWorld(engine));
    } else {
      forall e: Entry, w: World, evs: seq<Event>, trace: seq<Stamped>
        | RunOf(o, engine, k, e, w, evs) && Carries(trace, evs)
        ensures Matches(o, w, PlaceOf(Project(NewState(o.runID, now), trace)))
      {
        WholeRunMatches(o, e, w, evs, now, trace);
        ShortLoopsAreShort(o, w);
      }
    }
  }

  /** Whether Execute is given a kernel that publishes, and whether that kernel was built on a brain. */
  datatype Wiring = NoneAhead | KernelAhead(brain: bool)

  /** The passes that go with a wiring: the enrich stage runs, and then succeeds, exactly with a brain. */
  predicate Wired(v: Wiring, k: Kernel) {
    match v
    case NoneAhead => !k.Ahead?
    case KernelAhead(brain) => k.Ahead? && k.pass.enrich == if brain then Told else Skipped
  }

  const BRAINLESS := KernelAhead(false)

  /**
   The same before anything has run, when all that is known is the wiring and how the engine
   may behave: a budget policy, say, may refuse in one run what it allows in another.
   */
  ghost predicate ConfigurationTracks(o: Options, engines: Option<seq<Policy>> -> bool, v: Wiring, now: int) {
    forall k: Kernel, engine: Option<seq<Policy>> ::
      Wired(v, k) && engines(engine) ==> AlwaysTracks(o, engine, k, now)
  }

  /** A pass of this wiring on a plain prompt. */
  function SomePass(v: Wiring): (k: Kernel)
    ensures Wired(v, k) && (Stalled(k) <==> v == BRAINLESS)
  {
    match v
    case NoneAhead => NoKernel
    case KernelAhead(brain) =>
      Ahead(Pass(false, Skipped, Skipped, Skipped, false, false, if brain then Told else Skipped, false))
  }

  /**
   Exactly when, however the engine behaves, it bars every run, or the kernel ahead is not
   one without a brain and nothing lets a run take more attempts than the machine's own cap.
   */
  lemma ConfigurationIsExact(o: Options, engines: Option<seq<Policy>> -> bool, v: Wiring, now: int)
    ensures ConfigurationTracks(o, engines, v, now) <==>
      forall engine :: engines(engine) ==> Barred(engine) || (v != BRAINLESS && ShortLoops(o, engine))
  {
    forall k: Kernel, engine: Option<seq<Policy>>
      ensures AlwaysTracks(o, engine, k, now) <==> Barred(engine) || (!Stalled(k) && ShortLoops(o, engine))
    {
      TrackingIsExact(o, engine, k, now);
    }
    if ConfigurationTracks(o, engines, v, now) {
      forall engine | engines(engine) ensures Barred(engine) || (v != BRAINLESS && ShortLoops(o, engine)) {
        assert AlwaysTracks(o, engine, SomePass(v), now);
      }
    }
  }

  /** With nothing known of the engine, the brain, the gates and the cap decide. */
  lemma AnyEngineIsExact(o: Options, v: Wiring, now: int)
    ensures ConfigurationTracks(o, _ => true, v, now) <==>
      v != BRAINLESS && (!o.Gated() || o.EffectiveMax() <= 3)
  {
    ConfigurationIsExact(o, _ => true, v, now);
    assert !Barred(None) && forall n :: !Refused(None, n);
  }

  /** With a retry limit of at most three, only a kernel ahead without a brain loses a run that is not barred. */
  lemma RetryLimitTracks(o: Options, ps: seq<Policy>, r: int, v: Wiring, now: int)
    requires RetryLimit(r) in ps && 0 < r <= 3
    ensures ConfigurationTracks(o, engine => engine == Some(ps), v, now) <==> Barred(Some(ps)) || v != BRAINLESS
  {
    RetryLimitDenies(ps, r, 4);
    ConfigurationIsExact(o, engine => engine == Some(ps), v, now);
  }

  lemma UngatedRunsOnce(o: Options, w: World)
    ensures !o.Gated() ==> Attempts(o, w, InitialCore).0.attempts == 1
  {
    assert !o.Gated() ==> Attempt(o, w, InitialCore).outcome == Stop;
  }

  /** A world in which nothing goes wrong. */
  function SmoothWorld(engine: Option<seq<Policy>>): World {
    World(_ => ExecResult(0, None), _ => false,
          _ => GateRan(VerifyOutput(true, 0, "")), _ => GateRan(VerifyOutput(true, 0, "")),
          _ => None, engine, false, None)
  }

  lemma SmoothRunSucceeds(o: Options, engine: Option<seq<Policy>>)
    ensures FinalStatus(o, SmoothWorld(engine), Attempts(o, SmoothWorld(engine), InitialCore).0) == Success
  {
    var w := SmoothWorld(engine);
    var a := AgentStep(o, w, InitialCore);
    var v := GateIfActive(o, w, a, Verify);
    assert v.outcome != Reloop && v.core.exec == ExecResult(0, None) && !v.core.expired;
    assert Attempt(o, w, InitialCore).outcome != Reloop;
  }

  /** A gate that always fails, and nothing else that ever stops the loop but governance. */
  function StubbornWorld(engine: Option<seq<Policy>>): World {
    World(_ => ExecResult(0, None), _ => false,
          _ => GateRan(VerifyOutput(false, 1, "")), _ => GateRan(VerifyOutput(false, 1, "")),
          _ => None, engine, false, None)
  }

  /** When gates never pass, the loop goes on to every attempt that the cap and governance leave it. */
  lemma {:induction false} StubbornRunsOn(o: Options, engine: Option<seq<Policy>>, c: Core, n: nat)
    requires o.Gated() && c.attempts <= n <= o.EffectiveMax()
    requires forall m: nat :: c.attempts < m <= n ==> !Refused(engine, m)
    ensures n <= Attempts(o, StubbornWorld(engine), c).0.attempts <= o.EffectiveMax()
    decreases Left(o, c)
  {
    var w := StubbornWorld(engine);
    AttemptsWithinCap(o, w, c);
    ReloopConsumesAttempt(o, w, c);
    var e := Attempt(o, w, c);
    if c.attempts < n {
      assert !Refused(engine, c.attempts + 1);
      assert e.outcome == Reloop;
      StubbornRunsOn(o, engine, e.core, n);
    }
  }

  // ----- runs that end before it

  /** Where an early exit finds the machine: still in a phase that can fail, at the first attempt. */
  lemma BeforeExitWalks(o: Options, e: Entry, x: Exit)
    ensures var p := Walk(START, BeforeExit(o, e, x));
      Abortable(p.phase) && p.attempt == 1 && (x == AuthFails ==> p == Landed(e.kernel))
  {
    match x
    case GovernanceDenies => DeniedWalks(o, e.kernel, Plain(o, GovernanceDenied));
    case ApprovalFails => DeniedWalks(o, e.kernel, Plain(o, GovernanceApprovalRequired));
    case LaunchFails => PreludeWalks(o, e);
    case _ => EquippedWalks(o, e);
  }

  /** Neither a denial nor a request for approval ends the run by itself. */
  lemma DeniedWalks(o: Options, k: Kernel, ev: Event)
    requires ev.typ == GovernanceDenied || ev.typ == GovernanceApprovalRequired
    ensures var p := Walk(START, Opening(o, k) + [ev]); Abortable(p.phase) && p.attempt == 1
  {
    OpeningWalks(o, k);
    WalkAppend(START, Opening(o, k), [ev]);
    WalkOne(Landed(k), ev);
    if ev.typ == GovernanceDenied {
      UnnoticedStays(Landed(k), ev.typ);
    } else {
      ApprovalHops(Landed(k));
    }
  }

  lemma AbortedWalks(o: Options, e: Entry, x: Exit, error: string)
    ensures var end := Walk(START, Published(o, e, Aborts(x, error)));
      end.attempt == 1 && end.phase == if x == AuthFails then Landing(e.kernel) else Failed
  {
    var before, failed := BeforeExit(o, e, x), Msg(o, RunFailed, FailureInfo(Reason(x), error));
    BeforeExitWalks(o, e, x);
    WalkAppend(START, before, When(x != AuthFails, failed));
    WalkWhen(Walk(START, before), x != AuthFails, failed);
  }

  lemma AbortedCloses(o: Options, e: Entry, x: Exit, error: string)
    ensures Sse.Ends(Published(o, e, Aborts(x, error))) <==> x != AuthFails
  {
    var evs := Published(o, e, Aborts(x, error));
    RunEndsItsLog(o, e, Aborts(x, error));
    if x != AuthFails {
      assert Sse.IsTerminal(evs[|evs| - 1].typ);
    }
  }

  /**
   A run that ends before its attempt loop is projected as failed at its first attempt,
   wherever the kernel ran, exactly when it publishes a closing event; a run that failed on
   its credentials stays live in the phase it was submitted in.
   */
  lemma AbortedRunFails(o: Options, e: Entry, x: Exit, error: string, now: int, trace: seq<Stamped>)
    requires Carries(trace, Published(o, e, Aborts(x, error)))
    ensures var evs, end := Published(o, e, Aborts(x, error)), PlaceOf(Project(NewState(o.runID, now), trace));
      && end.attempt == 1
      && (end.phase == Failed <==> Sse.Ends(evs))
      && (Sse.Ends(evs) <==> x != AuthFails)
      && (x == AuthFails ==> end.phase == Landing(e.kernel) && !end.phase.IsTerminal())
  {
    AbortedWalks(o, e, x, error);
    CourseProjects(o, e, Aborts(x, error), now, trace);
    AbortedCloses(o, e, x, error);
  }
}
