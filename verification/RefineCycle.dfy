/** The attempt loop of internal/orchestrator/run.go: agent, verify, lint, refine. */
module RefineCycle {
  import opened Common
  import opened Events
  import opened Governance

  /** `err` is None for Go's nil error. */
  datatype ExecResult = ExecResult(exitCode: int, err: Option<string>)
  datatype VerifyOutput = VerifyOutput(passed: bool, exitCode: int, tail: string)
  datatype GateResult = GateError(message: string) | GateRan(out: VerifyOutput)
  datatype Gate = Verify | Lint

  /**
   Everything the loop asks of the outside world (exit codes, gate verdicts, policy rules,
   deadlines, exec failures), indexed by attempt number.
   */
  datatype World = World(
    agent: nat -> ExecResult,
    expires: nat -> bool,            // deadline seen right after the agent of an attempt
    verify: nat -> GateResult,
    lint: nat -> GateResult,
    reexec: nat -> Option<string>,   // error when starting the agent of a later attempt
    policies: Option<seq<Policy>>,
    lateExpiry: bool,                // deadline passes after the loop's last look
    mergeError: Option<string>)
  {
    function Ask(g: Gate, attempt: nat): GateResult {
      if g == Verify then verify(attempt) else lint(attempt)
    }
  }

  datatype Options = Options(
    runID: string, enabled: bool, verifyCmd: seq<string>, lintCmd: seq<string>, maxAttempts: int, merge: bool)
  {
    predicate Active(g: Gate) {
      enabled && (if g == Verify then |verifyCmd| > 0 else |lintCmd| > 0)
    }

    predicate Gated() {
      Active(Verify) || Active(Lint)
    }

    /** A cap that is not positive means three attempts. */
    function EffectiveMax(): (m: int)
      ensures m >= 1
    {
      if maxAttempts <= 0 then 3 else maxAttempts
    }
  }

  /** The variables the step closures share. */
  datatype Core = Core(attempts: nat, exec: ExecResult, lastVerify: Option<VerifyOutput>, expired: bool)

  const InitialCore := Core(1, ExecResult(0, None), None, false)

  datatype Outcome = Proceed | Reloop | Stop

  /** What a step does: the new variables, the events it publishes, and how to go on. */
  datatype Effect = Effect(core: Core, events: seq<Event>, outcome: Outcome)
  {
    function After(earlier: seq<Event>): Effect {
      this.(events := earlier + events)
    }
  }

  function Msg(o: Options, typ: EventType, payload: Payload): Event {
    Event("", o.runID, typ, payload, 0)
  }

  function AgentStep(o: Options, w: World, c: Core): Effect {
    var ran := c.(exec := w.agent(c.attempts));
    var done := [Msg(o, AgentCompleted, Exit(ran.exec.exitCode))];
    if w.expires(c.attempts) then Effect(ran.(expired := true), done, Stop)
    else if !o.Gated() then Effect(ran, done, Stop)
    else if ran.exec.exitCode != 0 then Effect(ran, done, Stop)
    else Effect(ran, done, Proceed)
  }

  function GateName(g: Gate): string {
    if g == Verify then "verify" else "lint"
  }

  /** A refinable gate failure: give up, or start the next attempt. */
  function RefineOrExhaust(o: Options, w: World, c: Core, g: Gate, failExit: int): Effect {
    if c.attempts >= o.EffectiveMax() then
      Effect(c.(exec := ExecResult(failExit, Some(GateName(g) + " failed"))), [], Stop)
    else
      var next := c.attempts + 1;
      var d := Judge(w.policies, Action(ActionRefine, next));
      if d.result == Deny then
        Effect(c.(exec := ExecResult(failExit, Some("governance denied refine"))),
               [Msg(o, GovernanceDenied, Denied(next, d.reasons))], Stop)
      else
        var started := [Msg(o, RefineTriggered, Refine(next, o.EffectiveMax())), Msg(o, AgentExecuting, NoPayload)];
        match w.reexec(next)
        case Some(e) => Effect(c.(attempts := next, exec := ExecResult(-1, Some("refine exec: " + e))), started, Stop)
        case None => Effect(c.(attempts := next), started, Reloop)
  }

  function StartedType(g: Gate): EventType { if g == Verify then VerifyStarted else LintStarted }
  function PassedType(g: Gate): EventType { if g == Verify then VerifyPassed else LintPassed }
  function FailedType(g: Gate): EventType { if g == Verify then VerifyFailed else LintFailed }

  /** The verify and lint gates; only verify remembers its output. */
  function GateStep(o: Options, w: World, c: Core, g: Gate): Effect {
    var started := [Msg(o, StartedType(g), GateInfo(c.attempts, 0, "", ""))];
    match w.Ask(g, c.attempts)
    case GateError(e) =>
      Effect(c.(exec := ExecResult(-1, Some(GateName(g) + " exec: " + e))),
             started + [Msg(o, FailedType(g), GateInfo(c.attempts, 0, "", e))], Stop)
    case GateRan(out) =>
      var c1 := if g == Verify then c.(lastVerify := Some(out)) else c;
      if !out.passed then
        RefineOrExhaust(o, w, c1, g, out.exitCode)
          .After(started + [Msg(o, FailedType(g), GateInfo(c.attempts, out.exitCode, out.tail, ""))])
      else
        Effect(c1, started + [Msg(o, PassedType(g), GateInfo(c.attempts, 0, "", ""))], Proceed)
  }

  /** A gate that is not configured is passed in silence. */
  function GateIfActive(o: Options, w: World, e: Effect, g: Gate): Effect {
    if e.outcome == Proceed && o.Active(g) then GateStep(o, w, e.core, g).After(e.events) else e
  }

  /** One attempt: the agent and then each configured gate. */
  function Attempt(o: Options, w: World, c: Core): Effect {
    GateIfActive(o, w, GateIfActive(o, w, AgentStep(o, w, c), Verify), Lint)
  }

  function Left(o: Options, c: Core): nat {
    if c.attempts < o.EffectiveMax() then o.EffectiveMax() - c.attempts else 0
  }

  /** Only a refinement relaunches the loop, and each one consumes an attempt. */
  lemma ReloopConsumesAttempt(o: Options, w: World, c: Core)
    ensures var e := Attempt(o, w, c);
      && c.attempts <= e.core.attempts <= c.attempts + 1
      && (e.outcome == Reloop ==> e.core.attempts == c.attempts + 1 && Left(o, e.core) < Left(o, c))
  {
  }

  /** The whole attempt loop, from any state of its variables. */
  function Attempts(o: Options, w: World, c: Core): (Core, seq<Event>)
    decreases Left(o, c)
  {
    var e := Attempt(o, w, c);
    ReloopConsumesAttempt(o, w, c);
    if e.outcome == Reloop then
      var rest := Attempts(o, w, e.core);
      (rest.0, e.events + rest.1)
    else (e.core, e.events)
  }

  datatype Status = Success | Failure | Cancelled

  /** The final status, as the single-pass finalization computes it. */
  function FinalStatus(o: Options, w: World, c: Core): Status {
    if c.expired || w.lateExpiry then Cancelled
    else if c.exec.exitCode != 0 || c.exec.err.Some? then Failure
    else if o.merge && w.mergeError.Some? then Failure
    else Success
  }

  function FinalError(o: Options, w: World, c: Core): Option<string> {
    if !(c.expired || w.lateExpiry) && c.exec.exitCode == 0 && c.exec.err == None && o.merge && w.mergeError.Some?
    then Some("merge-to-head: " + w.mergeError.value) else c.exec.err
  }

  function FinalEvents(o: Options, w: World, c: Core): seq<Event> {
    [Msg(o, SandboxDestroyed, NoPayload)] +
    match FinalStatus(o, w, c)
    case Success => [Msg(o, RunCompleted, Exit(c.exec.exitCode))]
    case Cancelled => [Msg(o, RunCancelled, Exit(c.exec.exitCode))]
    case Failure =>
      var err := FinalError(o, w, c);
      [Msg(o, RunFailed, FailureInfo("agent", if err.Some? then err.value else ""))]
  }

  datatype Result = Result(
    status: Status, exitCode: int, err: Option<string>, attempts: nat, lastVerify: Option<VerifyOutput>)

  function FinalResult(o: Options, w: World, c: Core): Result {
    Result(FinalStatus(o, w, c), c.exec.exitCode, FinalError(o, w, c), c.attempts, c.lastVerify)
  }

  /**
   The goroutine's variables as an object. Each step is the source's closure; its
   contract says exactly how the variables and the published log change.
   */
  class Cycle {
    const opts: Options
    const world: World
    var attempts: nat
    var exec: ExecResult
    var lastVerify: Option<VerifyOutput>
    var expired: bool
    var published: seq<Event>

    constructor (opts: Options, world: World)
      ensures this.opts == opts && this.world == world
      ensures Variables() == InitialCore && published == []
    {
      this.opts, this.world := opts, world;
      attempts, exec, lastVerify, expired, published := 1, ExecResult(0, None), None, false, [];
    }

    ghost function Variables(): Core
      reads this
    {
      Core(attempts, exec, lastVerify, expired)
    }

    /** The object has moved by exactly this effect. */
    twostate predicate Did(e: Effect, outcome: Outcome)
      reads this
    {
      Variables() == e.core && published == old(published) + e.events && outcome == e.outcome
    }

    method Publish(typ: EventType, payload: Payload)
      modifies this`published
      ensures published == old(published) + [Msg(opts, typ, payload)]
    {
      published := published + [Msg(opts, typ, payload)];
    }

    method RunAgent() returns (outcome: Outcome)
      modifies this
      ensures Did(AgentStep(opts, world, old(Variables())), outcome)
    {
      exec := world.agent(attempts);
      Publish(AgentCompleted, Exit(exec.exitCode));
      if world.expires(attempts) {
        expired := true;
        return Stop;
      }
      if !opts.Active(Verify) && !opts.Active(Lint) {
        return Stop;
      }
      if exec.exitCode != 0 {
        return Stop;
      }
      return Proceed;
    }

    method Refine(g: Gate, failExit: int) returns (outcome: Outcome)
      modifies this
      ensures Did(RefineOrExhaust(opts, world, old(Variables()), g, failExit), outcome)
    {
      if attempts >= opts.EffectiveMax() {
        exec := ExecResult(failExit, Some(GateName(g) + " failed"));
        return Stop;
      }
      var next := attempts + 1;
      var d := Judge(world.policies, Action(ActionRefine, next));
      if d.result == Deny {
        Publish(GovernanceDenied, Denied(next, d.reasons));
        exec := ExecResult(failExit, Some("governance denied refine"));
        return Stop;
      }
      attempts := attempts + 1;
      Publish(RefineTriggered, Payload.Refine(attempts, opts.EffectiveMax()));
      Publish(AgentExecuting, NoPayload);
      var err := world.reexec(attempts);
      if err.Some? {
        exec := ExecResult(-1, Some("refine exec: " + err.value));
        return Stop;
      }
      return Reloop;
    }

    method RunGate(g: Gate) returns (outcome: Outcome)
      modifies this
      ensures Did(GateStep(opts, world, old(Variables()), g), outcome)
    {
      Publish(StartedType(g), GateInfo(attempts, 0, "", ""));
      match world.Ask(g, attempts)
      case GateError(e) =>
        Publish(FailedType(g), GateInfo(attempts, 0, "", e));
        exec := ExecResult(-1, Some(GateName(g) + " exec: " + e));
        return Stop;
      case GateRan(out) =>
        if g == Verify {
          lastVerify := Some(out);
        }
        if !out.passed {
          Publish(FailedType(g), GateInfo(attempts, out.exitCode, out.tail, ""));
          outcome := Refine(g, out.exitCode);
          return;
        }
        Publish(PassedType(g), GateInfo(attempts, 0, "", ""));
        return Proceed;
    }

    /** The body of the attempt loop: Reloop is its `continue`, anything else its `break`. */
    method RunAttempt() returns (outcome: Outcome)
      modifies this
      ensures Did(Attempt(opts, world, old(Variables())), outcome)
    {
      ghost var log, e := published, AgentStep(opts, world, Variables());
      outcome := RunAgent();
      if outcome == Proceed && opts.Active(Verify) {
        ghost var v := GateStep(opts, world, Variables(), Verify);
        ConcatAssociative(log, e.events, v.events);
        e := v.After(e.events);
        outcome := RunGate(Verify);
      }
      if outcome == Proceed && opts.Active(Lint) {
        ghost var l := GateStep(opts, world, Variables(), Lint);
        ConcatAssociative(log, e.events, l.events);
        e := l.After(e.events);
        outcome := RunGate(Lint);
      }
    }

    /** The default driver: attempts until one of them does not restart the loop. */
    method RunImperative()
      modifies this
      ensures Variables() == Attempts(opts, world, old(Variables())).0
      ensures published == old(published) + Attempts(opts, world, old(Variables())).1
    {
      ghost var whole := published + Attempts(opts, world, Variables()).1;
      while true
        invariant Attempts(opts, world, Variables()).0 == Attempts(opts, world, old(Variables())).0
        invariant published + Attempts(opts, world, Variables()).1 == whole
        decreases Left(opts, Variables())
      {
        ghost var log, c := published, Variables();
        ReloopConsumesAttempt(opts, world, c);
        ghost var e := Attempt(opts, world, c);
        var outcome := RunAttempt();
        if outcome != Reloop {
          break;
        }
        ConcatAssociative(log, e.events, Attempts(opts, world, e.core).1);
      }
    }
  }
}
