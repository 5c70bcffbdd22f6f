/** The run state machine as an observer of the attempt loop. */
module CycleTracking {
  import opened Common
  import opened Events
  import opened Runtime
  import opened RefineCycle
  import opened ReactiveCycle
  import opened CycleLaws
  import opened Governance

  /** Where a state machine stands: all that decides its next phase and attempt. */
  datatype Place = Place(phase: Phase, attempt: int, cap: int)

  function PlaceOf(s: State): Place {
    Place(s.phase, s.attempt, s.maxAttempts)
  }

  /** One event of the machine's own run, on places. */
  function Hop(p: Place, typ: EventType): Place {
    if p.phase.IsTerminal() || IsObservationOnly(typ) then p
    else match LookupTransition(p.phase, typ)
      case None => p
      case Some(next) =>
        if typ != RefineTriggered then p.(phase := next)
        else if p.attempt >= p.cap then p.(phase := Failed)
        else p.(phase := next, attempt := p.attempt + 1)
  }

  /** An observation moves nothing even when it names another run. */
  lemma HopIsObserve(s: State, ev: Event, now: int)
    requires ev.runID == s.runID || IsObservationOnly(ev.typ)
    ensures PlaceOf(Observe(s, ev, now)) == Hop(PlaceOf(s), ev.typ)
    ensures Observe(s, ev, now).runID == s.runID
  {
  }

  const HOP: (Place, Event) -> Place := (p: Place, ev: Event) => Hop(p, ev.typ)

  function Walk(p: Place, evs: seq<Event>): Place {
    Fold(HOP, p, evs)
  }

  /** A stamped stream of these events: any ids, timestamps, payloads and clock readings. */
  ghost predicate Carries(trace: seq<Stamped>, evs: seq<Event>) {
    |trace| == |evs| &&
    forall i :: 0 <= i < |evs| ==> trace[i].ev.typ == evs[i].typ && trace[i].ev.runID == evs[i].runID
  }

  lemma {:induction false} WalkIsProjection(s: State, trace: seq<Stamped>, evs: seq<Event>)
    requires Carries(trace, evs)
    requires forall i :: 0 <= i < |evs| ==> evs[i].runID == s.runID || IsObservationOnly(evs[i].typ)
    ensures PlaceOf(Project(s, trace)) == Walk(PlaceOf(s), evs)
    decreases |evs|
  {
    if evs != [] {
      HopIsObserve(s, trace[0].ev, trace[0].now);
      WalkIsProjection(Observe(s, trace[0].ev, trace[0].now), trace[1..], evs[1..]);
    }
  }

  lemma WalkAppend(p: Place, a: seq<Event>, b: seq<Event>)
    ensures Walk(p, a + b) == Walk(Walk(p, a), b)
  {
    FoldAppend(HOP, p, a, b);
  }

  lemma WalkOne(p: Place, ev: Event)
    ensures Walk(p, [ev]) == Hop(p, ev.typ)
  {
    FoldOne(HOP, p, ev);
  }

  lemma WalkTwo(p: Place, a: Event, b: Event)
    ensures Walk(p, [a] + [b]) == Hop(Hop(p, a.typ), b.typ)
    ensures Walk(p, [a, b]) == Hop(Hop(p, a.typ), b.typ)
  {
    assert [a, b] == [a] + [b];
    WalkAppend(p, [a], [b]);
    WalkOne(p, a);
    WalkOne(Hop(p, a.typ), b);
  }

  lemma {:induction false} WalkTerminal(p: Place, evs: seq<Event>)
    requires p.phase.IsTerminal()
    ensures Walk(p, evs) == p
    decreases |evs|
  {
    if evs != [] {
      WalkTerminal(p, evs[1..]);
    }
  }

  /** The machine is where an attempt with these variables starts. */
  ghost predicate InStep(o: Options, c: Core, m: Place) {
    m.phase == Executing && m.attempt == c.attempts <= m.cap
  }

  /** The machine after a step that was not restarted, while the counters still agree. */
  ghost predicate Settled(o: Options, c: Core, m: Place, before: Place) {
    && m.attempt == c.attempts && m.cap == before.cap
    && m.phase in {AgentDone, Refining, Executing}
  }

  /** The cap fired in the machine: it failed the run one attempt before the loop gave up. */
  ghost predicate CapFired(c: Core, m: Place, before: Place) {
    m.phase == Failed && m.attempt == before.cap < c.attempts
  }

  /** What the machine looks like after an effect, from `m` when the effect starts in step with it. */
  ghost predicate Tracked(o: Options, e: Effect, m: Place, before: Place) {
    if e.core.attempts > before.cap then CapFired(e.core, m, before)
    else
      && Settled(o, e.core, m, before)
      && (e.outcome == Reloop ==> m.phase == Executing)
      && (e.outcome == Proceed ==> m.phase == AgentDone)
      && (e.outcome == Stop && EndsClean(e.core) ==> m.phase == AgentDone)
  }

  lemma AgentTracked(o: Options, w: World, c: Core, m: Place)
    requires InStep(o, c, m)
    ensures Tracked(o, AgentStep(o, w, c), Walk(m, AgentStep(o, w, c).events), m)
    ensures Walk(m, AgentStep(o, w, c).events).phase == AgentDone
  {
    WalkOne(m, AgentStep(o, w, c).events[0]);
  }

  /** A refinement either starts the next attempt or trips the machine's own cap. */
  lemma RefineWalks(m: Place, triggered: Event, executing: Event)
    requires m.phase == Refining && triggered.typ == RefineTriggered && executing.typ == AgentExecuting
    ensures Walk(m, [triggered, executing]) == AfterRefine(m)
  {
    WalkTwo(m, triggered, executing);
  }

  function AfterRefine(m: Place): Place {
    if m.attempt >= m.cap then m.(phase := Failed) else m.(phase := Executing, attempt := m.attempt + 1)
  }

  lemma RefineEventsWalk(o: Options, w: World, c: Core, g: Gate, failExit: int, m: Place)
    requires m.phase == Refining
    ensures var e := RefineOrExhaust(o, w, c, g, failExit);
      Walk(m, e.events) == if e.core.attempts > c.attempts then AfterRefine(m) else m
  {
    var e := RefineOrExhaust(o, w, c, g, failExit);
    var evs := e.events;
    RefineShape(o, w, c, g, failExit);
    if e.core.attempts > c.attempts {
      RefineWalks(m, evs[0], evs[1]);
      assert evs == [evs[0], evs[1]];
    } else if evs != [] {
      WalkOne(m, evs[0]);
      assert evs == [evs[0]];
    }
  }

  lemma RefineShape(o: Options, w: World, c: Core, g: Gate, failExit: int)
    ensures var e := RefineOrExhaust(o, w, c, g, failExit);
      if e.core.attempts > c.attempts then
        |e.events| == 2 && e.events[0].typ == RefineTriggered && e.events[1].typ == AgentExecuting
      else e.events == [] || (|e.events| == 1 && e.events[0].typ == GovernanceDenied)
  {
  }

  lemma RefineTracked(o: Options, w: World, c: Core, g: Gate, failExit: int, m: Place, q: Place)
    requires m.phase == Refining && m.attempt == c.attempts <= m.cap
    requires q == if RefineOrExhaust(o, w, c, g, failExit).core.attempts > c.attempts then AfterRefine(m) else m
    ensures Tracked(o, RefineOrExhaust(o, w, c, g, failExit), q, m)
  {
  }

  lemma GateFailureTracked(o: Options, w: World, c: Core, g: Gate, out: VerifyOutput, m: Place, head: seq<Event>)
    requires Walk(m, head).phase == Refining && Walk(m, head).attempt == m.attempt == c.attempts <= m.cap
    requires Walk(m, head).cap == m.cap
    ensures var e := RefineOrExhaust(o, w, c, g, out.exitCode).After(head);
      Tracked(o, e, Walk(m, e.events), m)
  {
    var m1, evs := Walk(m, head), RefineOrExhaust(o, w, c, g, out.exitCode).events;
    WalkAppend(m, head, evs);
    RefineEventsWalk(o, w, c, g, out.exitCode, m1);
    RefineTracked(o, w, c, g, out.exitCode, m1, Walk(m1, evs));
  }

  /** The two events a gate publishes before it proceeds, stops or refines. */
  lemma GatePairWalks(o: Options, g: Gate, m: Place, started: Event, ended: Event)
    requires m.phase == AgentDone && started.typ == StartedType(g)
    ensures ended.typ == PassedType(g) ==> Walk(m, [started] + [ended]) == m
    ensures ended.typ == FailedType(g) ==> Walk(m, [started] + [ended]) == m.(phase := Refining)
  {
    WalkTwo(m, started, ended);
  }

  lemma GateTracked(o: Options, w: World, c: Core, g: Gate, m: Place)
    requires m.phase == AgentDone && m.attempt == c.attempts <= m.cap
    ensures Tracked(o, GateStep(o, w, c, g), Walk(m, GateStep(o, w, c, g).events), m)
  {
    var started := Msg(o, StartedType(g), GateInfo(c.attempts, 0, "", ""));
    match w.Ask(g, c.attempts)
    case GateError(e) =>
      GatePairWalks(o, g, m, started, Msg(o, FailedType(g), GateInfo(c.attempts, 0, "", e)));
    case GateRan(out) =>
      if out.passed {
        GatePairWalks(o, g, m, started, Msg(o, PassedType(g), GateInfo(c.attempts, 0, "", "")));
      } else {
        var failed := Msg(o, FailedType(g), GateInfo(c.attempts, out.exitCode, out.tail, ""));
        var c1 := if g == Verify then c.(lastVerify := Some(out)) else c;
        GatePairWalks(o, g, m, started, failed);
        GateFailureTracked(o, w, c1, g, out, m, [started] + [failed]);
        assert GateStep(o, w, c, g) == RefineOrExhaust(o, w, c1, g, out.exitCode).After([started] + [failed]);
      }
  }

  lemma IfActiveTracked(o: Options, w: World, e: Effect, g: Gate, m: Place)
    requires Tracked(o, e, Walk(m, e.events), m)
    ensures var f := GateIfActive(o, w, e, g); Tracked(o, f, Walk(m, f.events), m)
  {
    if e.outcome == Proceed && o.Active(g) {
      var m1 := Walk(m, e.events);
      WalkAppend(m, e.events, GateStep(o, w, e.core, g).events);
      if e.core.attempts > m.cap {
        WalkTerminal(m1, GateStep(o, w, e.core, g).events);
        ReloopKeepsCount(o, w, e.core, g);
      } else {
        GateTracked(o, w, e.core, g, m1);
      }
    }
  }

  lemma ReloopKeepsCount(o: Options, w: World, c: Core, g: Gate)
    ensures GateStep(o, w, c, g).core.attempts >= c.attempts
  {
  }

  lemma AttemptTracked(o: Options, w: World, c: Core, m: Place)
    requires InStep(o, c, m)
    ensures Tracked(o, Attempt(o, w, c), Walk(m, Attempt(o, w, c).events), m)
  {
    AgentTracked(o, w, c, m);
    var a := AgentStep(o, w, c);
    IfActiveTracked(o, w, a, Verify, m);
    IfActiveTracked(o, w, GateIfActive(o, w, a, Verify), Lint, m);
  }

  lemma {:induction false} LoopTracked(o: Options, w: World, c: Core, m: Place)
    requires InStep(o, c, m)
    ensures var (r, evs) := Attempts(o, w, c);
      Tracked(o, Effect(r, evs, Stop), Walk(m, evs), m)
    decreases Left(o, c)
  {
    ReloopConsumesAttempt(o, w, c);
    var e := Attempt(o, w, c);
    var m1 := Walk(m, e.events);
    AttemptTracked(o, w, c, m);
    if e.outcome == Reloop {
      var rest := Attempts(o, w, e.core);
      WalkAppend(m, e.events, rest.1);
      if e.core.attempts > m.cap {
        WalkTerminal(m1, rest.1);
        NeverFewer(o, w, e.core);
      } else {
        LoopTracked(o, w, e.core, m1);
      }
    }
  }

  lemma {:induction false} NeverFewer(o: Options, w: World, c: Core)
    ensures Attempts(o, w, c).0.attempts >= c.attempts
    decreases Left(o, c)
  {
    ReloopConsumesAttempt(o, w, c);
    if Attempt(o, w, c).outcome == Reloop {
      NeverFewer(o, w, Attempt(o, w, c).core);
    }
  }

  /** Erasing events that are observation only does not change where the machine ends. */
  lemma {:induction false} ErasureIsInert(p: Place, evs: seq<Event>, keep: Event -> bool)
    requires forall ev :: !keep(ev) ==> IsObservationOnly(ev.typ)
    ensures Walk(p, evs) == Walk(p, Filter(evs, keep))
    decreases |evs|
  {
    if evs != [] {
      var rest := Filter(evs[1..], keep);
      if keep(evs[0]) {
        assert ([evs[0]] + rest)[1..] == rest;
      }
      ErasureIsInert(Hop(p, evs[0].typ), evs[1..], keep);
    }
  }

  /** Cycle commands are invisible to the machine, so the reactive driver's log leads to the same place. */
  lemma CommandsAreInert(p: Place, evs: seq<Event>)
    ensures Walk(p, evs) == Walk(p, Results(evs))
  {
    ErasureIsInert(p, evs, (ev: Event) => !IsCycleCommand(ev.typ));
  }
}
