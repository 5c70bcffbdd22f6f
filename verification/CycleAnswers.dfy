/** What the attempt loop does in each world, attempt by attempt and in the world's own terms. */
module CycleAnswers {
  import opened Common
  import opened Events
  import opened Governance
  import opened RefineCycle
  import opened CycleLaws

  // ----- the configuration and the world, without the loop's own functions

  predicate VerifyOn(o: Options) {
    o.enabled && |o.verifyCmd| > 0
  }

  predicate LintOn(o: Options) {
    o.enabled && |o.lintCmd| > 0
  }

  function Cap(o: Options): int {
    if o.maxAttempts > 0 then o.maxAttempts else 3
  }

  predicate Failed(r: GateResult) {
    r.GateRan? && !r.out.passed
  }

  predicate Passed(r: GateResult) {
    r.GateRan? && r.out.passed
  }

  /** The agent of attempt n finished in time and with exit code 0. */
  predicate AgentDone(w: World, n: nat) {
    !w.expires(n) && w.agent(n).exitCode == 0
  }

  /** The first configured gate that did not pass on attempt n ran and failed. */
  predicate GateFailed(o: Options, w: World, n: nat) {
    if VerifyOn(o) && !Passed(w.verify(n)) then Failed(w.verify(n)) else LintOn(o) && Failed(w.lint(n))
  }

  /** Attempt n, once started, is followed by another. */
  predicate Continues(o: Options, w: World, n: nat) {
    AgentDone(w, n) && GateFailed(o, w, n) && n < Cap(o) && !Refused(w.policies, n + 1)
  }

  /** The agent of attempt n could be started; the first one always was. */
  predicate Started(w: World, first: nat, n: nat) {
    n > first ==> w.reexec(n) == None
  }

  // ----- one attempt

  lemma GateAnswers(o: Options, w: World, c: Core, g: Gate)
    ensures var e := GateStep(o, w, c, g);
      var r := if g == Verify then w.verify(c.attempts) else w.lint(c.attempts);
      var goes := Failed(r) && c.attempts < Cap(o) && !Refused(w.policies, c.attempts + 1);
      && (e.core.attempts == if goes then c.attempts + 1 else c.attempts)
      && (e.outcome == Reloop <==> goes && w.reexec(c.attempts + 1) == None)
      && (e.outcome == Proceed <==> Passed(r))
      && e.core.expired == c.expired
      && (Passed(r) ==> e.core.exec == c.exec)
  {
  }

  lemma AgentAnswers(o: Options, w: World, c: Core)
    ensures var e := AgentStep(o, w, c);
      && e.core.attempts == c.attempts && e.core.exec == w.agent(c.attempts) && e.core.lastVerify == c.lastVerify
      && e.core.expired == (c.expired || w.expires(c.attempts))
      && e.outcome == (if AgentDone(w, c.attempts) && (VerifyOn(o) || LintOn(o)) then Proceed else Stop)
  {
  }

  lemma AttemptAnswers(o: Options, w: World, c: Core)
    ensures var e := Attempt(o, w, c);
      && (e.core.attempts == if Continues(o, w, c.attempts) then c.attempts + 1 else c.attempts)
      && (e.outcome == Reloop <==> Continues(o, w, c.attempts) && w.reexec(c.attempts + 1) == None)
      && e.core.expired == (c.expired || w.expires(c.attempts))
  {
    var a := AgentStep(o, w, c);
    AgentAnswers(o, w, c);
    GateAnswers(o, w, a.core, Verify);
    GateAnswers(o, w, GateIfActive(o, w, a, Verify).core, Lint);
  }

  // ----- how many attempts

  /** Every attempt from c's on, up to n, was started and is followed by another. */
  ghost predicate AllContinue(o: Options, w: World, first: nat, n: nat) {
    forall m: nat :: first <= m <= n ==> Continues(o, w, m) && Started(w, first, m)
  }

  /**
   The run gets beyond attempt n exactly when every attempt up to n was started, its agent
   finished in time with exit code 0, its first configured gate that did not pass ran and
   failed, the cap leaves room, and governance does not refuse the next attempt.
   */
  lemma {:induction false} AttemptsExactly(o: Options, w: World, c: Core, n: nat)
    requires c.attempts <= n
    ensures n < Attempts(o, w, c).0.attempts <==> AllContinue(o, w, c.attempts, n)
    decreases Left(o, c)
  {
    ReloopConsumesAttempt(o, w, c);
    AttemptAnswers(o, w, c);
    var e := Attempt(o, w, c);
    var first := c.attempts;
    ContinueOnce(o, w, first);
    if e.outcome == Reloop && n > first {
      AttemptsExactly(o, w, e.core, n);
      ContinueFrom(o, w, first, n);
    } else if e.outcome == Reloop {
      NeverBelow(o, w, e.core);
    } else if n > first {
      StopsAtOnce(o, w, first, n);
    }
  }

  lemma ContinueOnce(o: Options, w: World, first: nat)
    ensures AllContinue(o, w, first, first) <==> Continues(o, w, first)
  {
    assert Continues(o, w, first) ==> Started(w, first, first);
  }

  lemma StopsAtOnce(o: Options, w: World, first: nat, n: nat)
    requires first < n && !(Continues(o, w, first) && w.reexec(first + 1) == None)
    ensures !AllContinue(o, w, first, n)
  {
    assert !Continues(o, w, first) || !Started(w, first, first + 1);
  }

  lemma ContinueFrom(o: Options, w: World, first: nat, n: nat)
    requires first < n && Continues(o, w, first) && w.reexec(first + 1) == None
    ensures AllContinue(o, w, first, n) <==> AllContinue(o, w, first + 1, n)
  {
    var next := first + 1;
    if AllContinue(o, w, first, n) {
      forall m: nat | next <= m <= n ensures Continues(o, w, m) && Started(w, next, m) {
        assert Continues(o, w, m) && Started(w, first, m);
      }
      assert AllContinue(o, w, next, n);
    }
    if AllContinue(o, w, next, n) {
      forall m: nat | first <= m <= n ensures Continues(o, w, m) && Started(w, first, m) {
        assert m > first ==> Continues(o, w, m) && Started(w, next, m);
      }
      assert AllContinue(o, w, first, n);
    }
  }

  lemma {:induction false} NeverBelow(o: Options, w: World, c: Core)
    ensures Attempts(o, w, c).0.attempts >= c.attempts
    decreases Left(o, c)
  {
    ReloopConsumesAttempt(o, w, c);
    if Attempt(o, w, c).outcome == Reloop {
      NeverBelow(o, w, Attempt(o, w, c).core);
    }
  }

  // ----- how it ends

  function GaveUp(o: Options, n: nat, gate: string, exitCode: int): ExecResult {
    ExecResult(exitCode, Some(if n >= Cap(o) then gate + " failed" else "governance denied refine"))
  }

  function GateEnd(o: Options, n: nat, gate: string, r: GateResult): ExecResult {
    match r
    case GateError(e) => ExecResult(-1, Some(gate + " exec: " + e))
    case GateRan(out) => GaveUp(o, n, gate, out.exitCode)
  }

  /** What attempt n leaves as the result of the run when it is the last one and was started. */
  function Ended(o: Options, w: World, n: nat): ExecResult {
    if !AgentDone(w, n) then w.agent(n)
    else if VerifyOn(o) && !Passed(w.verify(n)) then GateEnd(o, n, "verify", w.verify(n))
    else if LintOn(o) && !Passed(w.lint(n)) then GateEnd(o, n, "lint", w.lint(n))
    else w.agent(n)
  }

  function LastExec(o: Options, w: World, first: nat, n: nat): ExecResult {
    if n > first && w.reexec(n).Some? then ExecResult(-1, Some("refine exec: " + w.reexec(n).value)) else Ended(o, w, n)
  }

  /** The verify output the Result carries: that of the last attempt on which the verifier ran. */
  function LastOutput(o: Options, w: World, c: Core, n: nat): Option<VerifyOutput> {
    if !VerifyOn(o) then c.lastVerify
    else if Started(w, c.attempts, n) && AgentDone(w, n) && w.verify(n).GateRan? then Some(w.verify(n).out)
    else if n > c.attempts && w.verify(n - 1).GateRan? then Some(w.verify(n - 1).out)
    else c.lastVerify
  }

  lemma GateEnds(o: Options, w: World, c: Core, g: Gate)
    ensures var e := GateStep(o, w, c, g);
      var r := if g == Verify then w.verify(c.attempts) else w.lint(c.attempts);
      && (e.core.attempts == c.attempts && !Passed(r) ==>
            e.core.exec == GateEnd(o, c.attempts, if g == Verify then "verify" else "lint", r))
      && (e.core.attempts > c.attempts && e.outcome != Reloop ==>
            w.reexec(c.attempts + 1).Some?
            && e.core.exec == ExecResult(-1, Some("refine exec: " + w.reexec(c.attempts + 1).value)))
      && e.core.lastVerify == (if g == Verify && r.GateRan? then Some(r.out) else c.lastVerify)
  {
  }

  lemma AttemptEnds(o: Options, w: World, c: Core)
    ensures var e := Attempt(o, w, c);
      && (e.outcome != Reloop ==> e.core.exec == LastExec(o, w, c.attempts, e.core.attempts))
      && e.core.lastVerify ==
           (if VerifyOn(o) && AgentDone(w, c.attempts) && w.verify(c.attempts).GateRan?
            then Some(w.verify(c.attempts).out) else c.lastVerify)
  {
    var a := AgentStep(o, w, c);
    AgentAnswers(o, w, c);
    GateAnswers(o, w, a.core, Verify);
    GateEnds(o, w, a.core, Verify);
    GateAnswers(o, w, GateIfActive(o, w, a, Verify).core, Lint);
    GateEnds(o, w, GateIfActive(o, w, a, Verify).core, Lint);
  }

  /** The variables the loop leaves, from the number of its attempts and the world's answers to the last of them. */
  lemma {:induction false} LoopEnds(o: Options, w: World, c: Core)
    requires !c.expired
    ensures var r := Attempts(o, w, c).0;
      && r.exec == LastExec(o, w, c.attempts, r.attempts)
      && (r.expired <==> Started(w, c.attempts, r.attempts) && w.expires(r.attempts))
      && r.lastVerify == LastOutput(o, w, c, r.attempts)
    decreases Left(o, c)
  {
    ReloopConsumesAttempt(o, w, c);
    AttemptAnswers(o, w, c);
    AttemptEnds(o, w, c);
    var e := Attempt(o, w, c);
    if e.outcome == Reloop {
      NeverBelow(o, w, e.core);
      LoopEnds(o, w, e.core);
      AttemptsExactly(o, w, c, Attempts(o, w, c).0.attempts - 1);
      OutputCarries(o, w, c, e.core, Attempts(o, w, c).0.attempts);
    }
  }

  /** Moving on to the next attempt does not change where the last output comes from. */
  lemma OutputCarries(o: Options, w: World, c: Core, next: Core, n: nat)
    requires c.attempts < n && AllContinue(o, w, c.attempts, n - 1)
    requires next.attempts == c.attempts + 1 && w.reexec(next.attempts) == None
    requires next.lastVerify ==
      (if VerifyOn(o) && AgentDone(w, c.attempts) && w.verify(c.attempts).GateRan?
       then Some(w.verify(c.attempts).out) else c.lastVerify)
    ensures LastOutput(o, w, next, n) == LastOutput(o, w, c, n)
    ensures LastExec(o, w, next.attempts, n) == LastExec(o, w, c.attempts, n)
    ensures Started(w, next.attempts, n) <==> Started(w, c.attempts, n)
  {
    assert Continues(o, w, n - 1);
    assert Continues(o, w, c.attempts);
  }

  // ----- what it publishes

  function Ev(o: Options, typ: EventType, payload: Payload): Event {
    Event("", o.runID, typ, payload, 0)
  }

  function Verdict(o: Options, n: nat, r: GateResult, passed: EventType, failed: EventType): Event {
    match r
    case GateError(e) => Ev(o, failed, GateInfo(n, 0, "", e))
    case GateRan(out) =>
      if out.passed then Ev(o, passed, GateInfo(n, 0, "", ""))
      else Ev(o, failed, GateInfo(n, out.exitCode, out.tail, ""))
  }

  function VerifySaid(o: Options, w: World, n: nat): seq<Event> {
    if !VerifyOn(o) then []
    else [Ev(o, VerifyStarted, GateInfo(n, 0, "", "")), Verdict(o, n, w.verify(n), VerifyPassed, VerifyFailed)]
  }

  function LintSaid(o: Options, w: World, n: nat): seq<Event> {
    if !LintOn(o) || (VerifyOn(o) && !Passed(w.verify(n))) then []
    else [Ev(o, LintStarted, GateInfo(n, 0, "", "")), Verdict(o, n, w.lint(n), LintPassed, LintFailed)]
  }

  /** After a failed gate, with room under the cap: the next attempt, or that governance refuses it. */
  function NextSaid(o: Options, w: World, n: nat, failed: bool): seq<Event> {
    if !failed || n >= Cap(o) then []
    else if Refused(w.policies, n + 1) then
      [Ev(o, GovernanceDenied, Denied(n + 1, Judge(w.policies, Action(ActionRefine, n + 1)).reasons))]
    else [Ev(o, RefineTriggered, Refine(n + 1, Cap(o))), Ev(o, AgentExecuting, NoPayload)]
  }

  /** The agent, then the gates if it finished cleanly, then the next attempt or its refusal. */
  function Said(o: Options, w: World, n: nat): seq<Event> {
    [Ev(o, AgentCompleted, Exit(w.agent(n).exitCode))]
    + (if AgentDone(w, n) then VerifySaid(o, w, n) + LintSaid(o, w, n) else [])
    + NextSaid(o, w, n, AgentDone(w, n) && GateFailed(o, w, n))
  }

  /** Attempts first to last, one after the other. */
  function Transcript(o: Options, w: World, first: nat, last: int): seq<Event>
    decreases last - first
  {
    if last < first then [] else Said(o, w, first) + Transcript(o, w, first + 1, last)
  }

  lemma GateSays(o: Options, w: World, c: Core, g: Gate)
    ensures var r := if g == Verify then w.verify(c.attempts) else w.lint(c.attempts);
      var started := Ev(o, if g == Verify then VerifyStarted else LintStarted, GateInfo(c.attempts, 0, "", ""));
      var verdict := if g == Verify then Verdict(o, c.attempts, r, VerifyPassed, VerifyFailed)
                     else Verdict(o, c.attempts, r, LintPassed, LintFailed);
      GateStep(o, w, c, g).events == [started, verdict] + NextSaid(o, w, c.attempts, Failed(r))
  {
  }

  /** The agent and the verifier. */
  lemma VerifyPart(o: Options, w: World, c: Core)
    ensures var v, n := GateIfActive(o, w, AgentStep(o, w, c), Verify), c.attempts;
      var done, on := AgentDone(w, n), VerifyOn(o);
      && v.events == [Ev(o, AgentCompleted, Exit(w.agent(n).exitCode))]
           + (if done then VerifySaid(o, w, n) else [])
           + NextSaid(o, w, n, done && on && Failed(w.verify(n)))
      && (v.outcome == Proceed <==> done && (on ==> Passed(w.verify(n))) && (on || LintOn(o)))
      && (v.outcome == Proceed ==> v.core.attempts == n)
  {
    var a := AgentStep(o, w, c);
    AgentAnswers(o, w, c);
    GateAnswers(o, w, a.core, Verify);
    GateSays(o, w, a.core, Verify);
  }

  lemma AttemptSays(o: Options, w: World, c: Core)
    ensures Attempt(o, w, c).events == Said(o, w, c.attempts)
  {
    var v := GateIfActive(o, w, AgentStep(o, w, c), Verify);
    VerifyPart(o, w, c);
    if v.outcome == Proceed && LintOn(o) {
      GateSays(o, w, v.core, Lint);
      LintFollows(o, w, v, c.attempts);
    }
  }

  lemma LintFollows(o: Options, w: World, v: Effect, n: nat)
    requires v.outcome == Proceed && LintOn(o) && AgentDone(w, n) && (VerifyOn(o) ==> Passed(w.verify(n)))
    requires v.events == [Ev(o, AgentCompleted, Exit(w.agent(n).exitCode))] + VerifySaid(o, w, n)
    requires v.core.attempts == n
    ensures GateIfActive(o, w, v, Lint).events == Said(o, w, n)
  {
    GateSays(o, w, v.core, Lint);
    ConcatAssociative(v.events, LintSaid(o, w, n), NextSaid(o, w, n, Failed(w.lint(n))));
    ConcatAssociative([Ev(o, AgentCompleted, Exit(w.agent(n).exitCode))], VerifySaid(o, w, n), LintSaid(o, w, n));
  }

  /** Whatever the world does, the loop publishes the transcript of the attempts it started. */
  lemma {:induction false} LoopSays(o: Options, w: World, c: Core)
    ensures var r := Attempts(o, w, c).0;
      Attempts(o, w, c).1 == Transcript(o, w, c.attempts, LastStarted(w, c.attempts, r.attempts))
    decreases Left(o, c)
  {
    var e := Attempt(o, w, c);
    assert e.events == Said(o, w, c.attempts) by {
      AttemptSays(o, w, c);
    }
    ReloopConsumesAttempt(o, w, c);
    AttemptAnswers(o, w, c);
    if e.outcome == Reloop {
      NeverBelow(o, w, e.core);
      LoopSays(o, w, e.core);
      TranscriptFirst(o, w, c.attempts, Attempts(o, w, e.core).0.attempts);
    } else {
      LoneTranscript(o, w, c.attempts, e.core.attempts);
    }
  }

  /** The last attempt whose agent ran. */
  function LastStarted(w: World, first: nat, n: nat): int {
    if Started(w, first, n) then n else n - 1
  }

  lemma TranscriptFirst(o: Options, w: World, first: nat, n: nat)
    requires first < n && w.reexec(first + 1) == None
    ensures Transcript(o, w, first, LastStarted(w, first, n)) ==
      Said(o, w, first) + Transcript(o, w, first + 1, LastStarted(w, first + 1, n))
  {
  }

  lemma LoneTranscript(o: Options, w: World, first: nat, n: nat)
    requires n == first || (n == first + 1 && w.reexec(n).Some?)
    ensures Transcript(o, w, first, LastStarted(w, first, n)) == Said(o, w, first)
  {
    assert Transcript(o, w, first, first) == Said(o, w, first) + [];
  }

  // ----- crashes and final results

  /**
   A crashed agent ends the run: no gate is asked, no attempt follows, and the agent's own
   result is that of the run.
   */
  lemma CrashEndsLoop(o: Options, w: World, n: nat)
    requires 1 <= n <= Attempts(o, w, InitialCore).0.attempts && Started(w, 1, n) && w.agent(n).exitCode != 0
    ensures var (r, evs) := Attempts(o, w, InitialCore);
      && r.attempts == n && r.exec == w.agent(n)
      && evs == Transcript(o, w, 1, n - 1) + [Ev(o, AgentCompleted, Exit(w.agent(n).exitCode))]
  {
    AttemptsExactly(o, w, InitialCore, n);
    LoopEnds(o, w, InitialCore);
    LoopSays(o, w, InitialCore);
    assert !AllContinue(o, w, 1, n) by {
      assert !Continues(o, w, n);
    }
    TranscriptLast(o, w, 1, n);
  }

  lemma {:induction false} TranscriptLast(o: Options, w: World, first: nat, last: nat)
    requires first <= last
    ensures Transcript(o, w, first, last) == Transcript(o, w, first, last - 1) + Said(o, w, last)
    decreases last - first
  {
    if first < last {
      TranscriptLast(o, w, first + 1, last);
      ConcatAssociative(Said(o, w, first), Transcript(o, w, first + 1, last - 1), Said(o, w, last));
    } else {
      assert Transcript(o, w, first + 1, last) == [];
    }
  }

  predicate TimedOut(w: World, n: nat) {
    (Started(w, 1, n) && w.expires(n)) || w.lateExpiry
  }

  /** Cancelled exactly when the deadline passed, whatever else went wrong; otherwise failed unless all is clean. */
  lemma StatusExactly(o: Options, w: World)
    ensures var r := Attempts(o, w, InitialCore).0;
      var s, clean := FinalStatus(o, w, r), LastExec(o, w, 1, r.attempts) == ExecResult(0, None);
      && (s == Status.Cancelled <==> TimedOut(w, r.attempts))
      && (s == Success <==> !TimedOut(w, r.attempts) && clean && (o.merge ==> w.mergeError == None))
  {
    LoopEnds(o, w, InitialCore);
  }

  /** The Result, and the last two events of the run. */
  lemma ResultExactly(o: Options, w: World)
    ensures var r := Attempts(o, w, InitialCore).0;
      var res, n, last := FinalResult(o, w, r), r.attempts, LastExec(o, w, 1, r.attempts);
      var merging := !TimedOut(w, n) && last == ExecResult(0, None) && o.merge && w.mergeError.Some?;
      && res.attempts == n && res.exitCode == last.exitCode && res.lastVerify == LastOutput(o, w, InitialCore, n)
      && res.err == (if merging then Some("merge-to-head: " + w.mergeError.value) else last.err)
      && FinalEvents(o, w, r) == [Ev(o, SandboxDestroyed, NoPayload), Closing(o, res)]
  {
    LoopEnds(o, w, InitialCore);
  }

  function Closing(o: Options, res: Result): Event {
    match res.status
    case Success => Ev(o, RunCompleted, Exit(res.exitCode))
    case Cancelled => Ev(o, RunCancelled, Exit(res.exitCode))
    case Failure => Ev(o, RunFailed, FailureInfo("agent", if res.err.Some? then res.err.value else ""))
  }
}
