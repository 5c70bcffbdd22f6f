/** The reactive driver of the refine cycle, and its equivalence with the imperative loop. */
module ReactiveCycle {
  import opened Common
  import opened Events
  import opened Reactor
  import opened RefineCycle

  /** What the handlers share: the cycle's variables and the published log. */
  type Shared = (Core, seq<Event>)

  function Command(o: Options, typ: EventType): Event {
    Msg(o, typ, NoPayload)
  }

  function Applied(s: Shared, e: Effect): Shared {
    (e.core, s.1 + e.events)
  }

  function OnExecute(o: Options, w: World, s: Shared): Handled<Shared> {
    var e := AgentStep(o, w, s.0);
    Produced(Applied(s, e),
             if e.outcome == Stop then []
             else if o.Active(Verify) then [Command(o, VerifyRequested)]
             else if o.Active(Lint) then [Command(o, LintRequested)]
             else [])
  }

  function OnVerify(o: Options, w: World, s: Shared): Handled<Shared> {
    var e := GateStep(o, w, s.0, Verify);
    Produced(Applied(s, e),
             if e.outcome == Stop then []
             else if e.outcome == Reloop then [Command(o, ExecuteRequested)]
             else if o.Active(Lint) then [Command(o, LintRequested)]
             else [])
  }

  function OnLint(o: Options, w: World, s: Shared): Handled<Shared> {
    var e := GateStep(o, w, s.0, Lint);
    Produced(Applied(s, e),
             if e.outcome == Reloop then [Command(o, ExecuteRequested)] else [])
  }

  function Handlers(o: Options, w: World): map<EventType, Handler<Shared>> {
    map[ExecuteRequested := (s: Shared, _: Event) => OnExecute(o, w, s),
        VerifyRequested := (s: Shared, _: Event) => OnVerify(o, w, s),
        LintRequested := (s: Shared, _: Event) => OnLint(o, w, s)]
  }

  /** The bus: every event processed by the reactor joins the published log. */
  function LogBus(): Option<Bus<Shared>> {
    Some((s: Shared, ev: Event) => (s.0, s.1 + [ev]))
  }

  function Results(evs: seq<Event>): seq<Event> {
    Filter(evs, (ev: Event) => !IsCycleCommand(ev.typ))
  }

  ghost predicate OnlyResults(evs: seq<Event>) {
    forall i :: 0 <= i < |evs| ==> !IsCycleCommand(evs[i].typ)
  }

  lemma ResultsOfStep(log: seq<Event>, cmd: Event, evs: seq<Event>)
    requires IsCycleCommand(cmd.typ)
    requires OnlyResults(evs)
    ensures Results(log + [cmd] + evs) == Results(log) + evs
  {
    var p := (ev: Event) => !IsCycleCommand(ev.typ);
    FilterAppend(log + [cmd], evs, p);
    FilterAppend(log, [cmd], p);
    FilterAll(evs, p);
    assert Filter([cmd], p) == [];
    assert Results(log) + [] == Results(log);
  }

  /** Run the rest of the loop when an attempt's effect says so. */
  function Finish(o: Options, w: World, e: Effect): (Core, seq<Event>) {
    if e.outcome == Reloop then (Attempts(o, w, e.core).0, e.events + Attempts(o, w, e.core).1)
    else (e.core, e.events)
  }

  /** What the imperative loop does from the point where a command would be handled. */
  function Continue(o: Options, w: World, c: Core, cmd: EventType): (Core, seq<Event>) {
    match cmd
    case VerifyRequested => Finish(o, w, GateIfActive(o, w, GateStep(o, w, c, Verify), Lint))
    case LintRequested => Finish(o, w, GateStep(o, w, c, Lint))
    case _ => Attempts(o, w, c)
  }

  function Stage(cmd: EventType): nat {
    match cmd
    case VerifyRequested => 1
    case LintRequested => 0
    case _ => 2
  }

  function StepFor(o: Options, w: World, c: Core, cmd: EventType): Effect {
    match cmd
    case VerifyRequested => GateStep(o, w, c, Verify)
    case LintRequested => GateStep(o, w, c, Lint)
    case _ => AgentStep(o, w, c)
  }

  /** The command handled next, if any. */
  function NextCommand(o: Options, cmd: EventType, outcome: Outcome): Option<EventType> {
    if outcome == Stop then None
    else if outcome == Reloop then Some(ExecuteRequested)
    else if cmd == ExecuteRequested && o.Active(Verify) then Some(VerifyRequested)
    else if cmd != LintRequested && o.Active(Lint) then Some(LintRequested)
    else None
  }

  lemma FinishAfter(o: Options, w: World, e: Effect, pre: seq<Event>)
    ensures Finish(o, w, e.After(pre)) == (Finish(o, w, e).0, pre + Finish(o, w, e).1)
  {
    if e.outcome == Reloop {
      ConcatAssociative(pre, e.events, Attempts(o, w, e.core).1);
    }
  }

  lemma GateAfter(o: Options, w: World, e: Effect, pre: seq<Event>, g: Gate)
    ensures GateIfActive(o, w, e.After(pre), g) == GateIfActive(o, w, e, g).After(pre)
  {
    ConcatAssociative(pre, e.events, GateStep(o, w, e.core, g).events);
  }

  lemma RefinePublishesResults(o: Options, w: World, c: Core, g: Gate, failExit: int)
    ensures OnlyResults(RefineOrExhaust(o, w, c, g, failExit).events)
  {
  }

  /** Steps publish result events only, never cycle commands. */
  lemma StepsPublishResults(o: Options, w: World, c: Core, cmd: EventType)
    ensures OnlyResults(StepFor(o, w, c, cmd).events)
  {
    if cmd == VerifyRequested || cmd == LintRequested {
      var g := if cmd == VerifyRequested then Verify else Lint;
      match w.Ask(g, c.attempts)
      case GateError(_) =>
      case GateRan(out) =>
        RefinePublishesResults(o, w, if g == Verify then c.(lastVerify := Some(out)) else c, g, out.exitCode);
    }
  }

  /** A gate that proceeds or restarts has not touched the attempt budget otherwise. */
  lemma StepBudget(o: Options, w: World, c: Core, cmd: EventType)
    ensures var e := StepFor(o, w, c, cmd);
      && (e.outcome == Proceed ==> Left(o, e.core) == Left(o, c))
      && (e.outcome == Reloop ==> Left(o, e.core) < Left(o, c))
  {
  }

  lemma ExecuteUnfolds(o: Options, w: World, c: Core)
    ensures var e := AgentStep(o, w, c);
      Attempts(o, w, c) ==
        if e.outcome != Proceed then (e.core, e.events)
        else if o.Active(Verify) then
          (Continue(o, w, e.core, VerifyRequested).0, e.events + Continue(o, w, e.core, VerifyRequested).1)
        else
          (Continue(o, w, e.core, LintRequested).0, e.events + Continue(o, w, e.core, LintRequested).1)
  {
    var e := AgentStep(o, w, c);
    assert Attempts(o, w, c) == Finish(o, w, Attempt(o, w, c));
    if e.outcome == Proceed {
      if o.Active(Verify) {
        var v := GateStep(o, w, e.core, Verify);
        GateAfter(o, w, v, e.events, Lint);
        FinishAfter(o, w, GateIfActive(o, w, v, Lint), e.events);
      } else {
        FinishAfter(o, w, GateStep(o, w, e.core, Lint), e.events);
      }
    }
  }

  lemma VerifyUnfolds(o: Options, w: World, c: Core)
    requires o.Active(Lint) && GateStep(o, w, c, Verify).outcome == Proceed
    ensures var e := GateStep(o, w, c, Verify);
      Continue(o, w, c, VerifyRequested) ==
        (Continue(o, w, e.core, LintRequested).0, e.events + Continue(o, w, e.core, LintRequested).1)
  {
    var e := GateStep(o, w, c, Verify);
    FinishAfter(o, w, GateStep(o, w, e.core, Lint), e.events);
  }

  lemma ContinueUnfolds(o: Options, w: World, c: Core, cmd: EventType)
    requires IsCycleCommand(cmd)
    ensures var e := StepFor(o, w, c, cmd);
      var next := NextCommand(o, cmd, e.outcome);
      Continue(o, w, c, cmd) ==
        if next == None then (e.core, e.events)
        else (Continue(o, w, e.core, next.value).0, e.events + Continue(o, w, e.core, next.value).1)
  {
    if cmd == ExecuteRequested {
      ExecuteUnfolds(o, w, c);
    } else if cmd == VerifyRequested && o.Active(Lint) && GateStep(o, w, c, Verify).outcome == Proceed {
      VerifyUnfolds(o, w, c);
    }
  }

  /** One turn of the reactor on a single pending cycle command. */
  lemma TurnRunsStep(o: Options, w: World, b: Board<Shared>, cmd: EventType)
    requires IsCycleCommand(cmd) && !b.aborted && b.queue == [Command(o, cmd)]
    ensures var t := Turn(Handlers(o, w), LogBus(), b);
      var e := StepFor(o, w, b.state.0, cmd);
      var next := NextCommand(o, cmd, e.outcome);
      && !t.aborted
      && t.state == (e.core, b.state.1 + [Command(o, cmd)] + e.events)
      && t.queue == (if next == None then [] else [Command(o, next.value)])
  {
  }

  function Next(o: Options, w: World, c: Core, cmd: EventType): Option<EventType> {
    NextCommand(o, cmd, StepFor(o, w, c, cmd).outcome)
  }

  /** What is done plus what the loop would still do from here is unchanged by a turn. */
  ghost function Outlook(o: Options, w: World, s: Shared, cmd: Option<EventType>): (Core, seq<Event>) {
    if cmd == None then (s.0, Results(s.1))
    else (Continue(o, w, s.0, cmd.value).0, Results(s.1) + Continue(o, w, s.0, cmd.value).1)
  }

  lemma OutlookShifts(o: Options, w: World, s: Shared, t: Shared, evs: seq<Event>, cmd: EventType,
                      next: Option<EventType>)
    requires Results(t.1) == Results(s.1) + evs
    requires Continue(o, w, s.0, cmd) ==
      if next == None then (t.0, evs)
      else (Continue(o, w, t.0, next.value).0, evs + Continue(o, w, t.0, next.value).1)
    ensures Outlook(o, w, t, next) == Outlook(o, w, s, Some(cmd))
  {
    if next.Some? {
      ConcatAssociative(Results(s.1), evs, Continue(o, w, t.0, next.value).1);
    }
  }

  lemma TurnKeepsOutlook(o: Options, w: World, b: Board<Shared>, cmd: EventType)
    requires IsCycleCommand(cmd) && !b.aborted && b.queue == [Command(o, cmd)]
    ensures var t := Turn(Handlers(o, w), LogBus(), b);
      var next := Next(o, w, b.state.0, cmd);
      && !t.aborted
      && t.queue == (if next == None then [] else [Command(o, next.value)])
      && Outlook(o, w, t.state, next) == Outlook(o, w, b.state, Some(cmd))
  {
    var t := Turn(Handlers(o, w), LogBus(), b);
    var e := StepFor(o, w, b.state.0, cmd);
    var next := Next(o, w, b.state.0, cmd);
    TurnRunsStep(o, w, b, cmd);
    ContinueUnfolds(o, w, b.state.0, cmd);
    StepsPublishResults(o, w, b.state.0, cmd);
    ResultsOfStep(b.state.1, Command(o, cmd), e.events);
    OutlookShifts(o, w, b.state, t.state, e.events, cmd, next);
  }

  lemma TurnMakesProgress(o: Options, w: World, b: Board<Shared>, cmd: EventType)
    requires IsCycleCommand(cmd) && !b.aborted && b.queue == [Command(o, cmd)]
    requires Next(o, w, b.state.0, cmd).Some?
    ensures var next := Next(o, w, b.state.0, cmd).value;
      var left := Left(o, Turn(Handlers(o, w), LogBus(), b).state.0);
      && IsCycleCommand(next)
      && (left < Left(o, b.state.0) || (left == Left(o, b.state.0) && Stage(next) < Stage(cmd)))
  {
    TurnRunsStep(o, w, b, cmd);
    StepBudget(o, w, b.state.0, cmd);
  }

  /**
   From any pending command the reactor becomes quiet, having done to the variables
   and to the result events exactly what the imperative loop does from there.
   */
  lemma {:induction false} ReactorFollowsLoop(o: Options, w: World, b: Board<Shared>, cmd: EventType) returns (n: nat)
    requires IsCycleCommand(cmd) && !b.aborted && b.queue == [Command(o, cmd)]
    ensures var t := Turns(Handlers(o, w), LogBus(), b, n);
      t.queue == [] && !t.aborted && Outlook(o, w, t.state, None) == Outlook(o, w, b.state, Some(cmd))
    decreases Left(o, b.state.0), Stage(cmd)
  {
    var t := Turn(Handlers(o, w), LogBus(), b);
    var next := Next(o, w, b.state.0, cmd);
    TurnKeepsOutlook(o, w, b, cmd);
    if next == None {
      n := 1;
      QuietStays(Handlers(o, w), LogBus(), t, 0);
    } else {
      TurnMakesProgress(o, w, b, cmd);
      n := ReactorFollowsLoop(o, w, t, next.value);
      n := n + 1;
    }
  }

  /** Both drivers, on any world, from any state of the variables. */
  lemma DriversAgree(o: Options, w: World, c: Core, log: seq<Event>) returns (n: nat)
    ensures var t := Turns(Handlers(o, w), LogBus(), Start(Command(o, ExecuteRequested), (c, log)), n);
      && t.queue == [] && !t.aborted
      && t.state.0 == Attempts(o, w, c).0
      && Results(t.state.1) == Results(log) + Attempts(o, w, c).1
      && FinalResult(o, w, t.state.0) == FinalResult(o, w, Attempts(o, w, c).0)
  {
    n := ReactorFollowsLoop(o, w, Start(Command(o, ExecuteRequested), (c, log)), ExecuteRequested);
  }

  /** The reactive driver: commands through a per-run reactor instead of a loop. */
  method RunReactive(cycle: Cycle)
    modifies cycle
    ensures cycle.Variables() == Attempts(cycle.opts, cycle.world, old(cycle.Variables())).0
    ensures Results(cycle.published)
         == Results(old(cycle.published)) + Attempts(cycle.opts, cycle.world, old(cycle.Variables())).1
  {
    var o, w := cycle.opts, cycle.world;
    var rc := new Reactor<Shared>(LogBus());
    rc.Register(ExecuteRequested, (s: Shared, _: Event) => OnExecute(o, w, s));
    rc.Register(VerifyRequested, (s: Shared, _: Event) => OnVerify(o, w, s));
    rc.Register(LintRequested, (s: Shared, _: Event) => OnLint(o, w, s));
    assert rc.handlers == Handlers(o, w);
    var init := Core(cycle.attempts, cycle.exec, cycle.lastVerify, cycle.expired);
    ghost var n := DriversAgree(o, w, init, cycle.published);
    var _, end, _ := rc.Dispatch(Command(o, ExecuteRequested), (init, cycle.published), n);
    cycle.attempts, cycle.exec := end.0.attempts, end.0.exec;
    cycle.lastVerify, cycle.expired := end.0.lastVerify, end.0.expired;
    cycle.published := end.1;
  }
}
