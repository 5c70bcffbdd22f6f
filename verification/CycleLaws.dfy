/** What the attempt loop guarantees, for every world. */
module CycleLaws {
  import opened Common
  import opened Governance
  import opened RefineCycle

  /** The loop never exceeds the effective cap, wherever it starts. */
  lemma {:induction false} AttemptsWithinCap(o: Options, w: World, c: Core)
    requires c.attempts <= o.EffectiveMax()
    ensures c.attempts <= Attempts(o, w, c).0.attempts <= o.EffectiveMax()
    decreases Left(o, c)
  {
    ReloopConsumesAttempt(o, w, c);
    var e := Attempt(o, w, c);
    AttemptNeedsRoom(o, w, c);
    if e.outcome == Reloop {
      AttemptsWithinCap(o, w, e.core);
    }
  }

  lemma AttemptNeedsRoom(o: Options, w: World, c: Core)
    ensures var n := Attempt(o, w, c).core.attempts;
      n > c.attempts ==>
        n <= o.EffectiveMax() && Judge(w.policies, Action(ActionRefine, n)).result != Deny
  {
  }

  /** Governance refuses to start this attempt. */
  predicate Refused(engine: Option<seq<Policy>>, n: nat) {
    Judge(engine, Action(ActionRefine, n)).result == Deny
  }

  /** Refused exactly when there is an engine and one of its policies errs on the attempt or denies it. */
  lemma RefusedExactly(engine: Option<seq<Policy>>, n: nat)
    ensures Refused(engine, n) <==>
      engine.Some? && exists p :: p in engine.value && Against(p.Evaluate(Action(ActionRefine, n)))
  {
    if engine.Some? {
      DeniedMeaning(engine.value, Action(ActionRefine, n));
      forall p: Policy ensures p.Denies(Action(ActionRefine, n)) <==> Against(p.Evaluate(Action(ActionRefine, n))) {
      }
    }
  }

  predicate Against(r: Ruling) {
    r.Errored? || r.verdict == Deny
  }

  /** The loop never gets as far as an attempt that governance refuses. */
  lemma {:induction false} AttemptsBelowRefusal(o: Options, w: World, c: Core, n: nat)
    requires c.attempts < n && Refused(w.policies, n)
    ensures Attempts(o, w, c).0.attempts < n
    decreases Left(o, c)
  {
    ReloopConsumesAttempt(o, w, c);
    AttemptNeedsRoom(o, w, c);
    var e := Attempt(o, w, c);
    if e.outcome == Reloop {
      AttemptsBelowRefusal(o, w, e.core, n);
    }
  }

  /** An engine holding RetryLimit{R > 0} caps the attempts at R as well. */
  lemma AttemptsWithinPolicy(o: Options, w: World, c: Core, r: int)
    requires w.policies.Some? && RetryLimit(r) in w.policies.value
    requires c.attempts <= r && r > 0
    ensures Attempts(o, w, c).0.attempts <= r
  {
    RetryLimitDenies(w.policies.value, r, r + 1);
    AttemptsBelowRefusal(o, w, c, r + 1);
  }

  ghost predicate GatePassed(w: World, g: Gate, n: nat) {
    w.Ask(g, n).GateRan? && w.Ask(g, n).out.passed
  }

  /** Attempt n was started, its agent exited cleanly in time, and every configured gate passed on it. */
  ghost predicate CleanAttempt(o: Options, w: World, first: nat, n: nat) {
    && (n > first ==> w.reexec(n) == None)
    && !w.expires(n)
    && w.agent(n) == ExecResult(0, None)
    && (o.Active(Verify) ==> GatePassed(w, Verify, n))
    && (o.Active(Lint) ==> GatePassed(w, Lint, n))
  }

  ghost predicate EndsClean(c: Core) {
    !c.expired && c.exec == ExecResult(0, None)
  }

  lemma AttemptEndsClean(o: Options, w: World, c: Core)
    requires !c.expired
    ensures var e := Attempt(o, w, c);
      && (e.outcome == Reloop ==> !e.core.expired && w.reexec(e.core.attempts) == None)
      && (e.outcome != Reloop ==> (EndsClean(e.core) <==> CleanAttempt(o, w, c.attempts, e.core.attempts)))
      && (e.outcome != Reloop && EndsClean(e.core) && o.Active(Verify) ==>
            e.core.lastVerify == Some(w.verify(e.core.attempts).out))
  {
  }

  lemma {:induction false} LoopEndsClean(o: Options, w: World, c: Core)
    requires !c.expired
    ensures var r := Attempts(o, w, c).0;
      && c.attempts <= r.attempts
      && (EndsClean(r) <==> CleanAttempt(o, w, c.attempts, r.attempts))
      && (EndsClean(r) && o.Active(Verify) ==> r.lastVerify == Some(w.verify(r.attempts).out))
    decreases Left(o, c)
  {
    ReloopConsumesAttempt(o, w, c);
    AttemptEndsClean(o, w, c);
    var e := Attempt(o, w, c);
    if e.outcome == Reloop {
      LoopEndsClean(o, w, e.core);
    }
  }

  /**
   A run succeeds exactly when its last attempt was started, its agent exited with 0
   in time, every configured gate passed on that same attempt, the deadline did not
   pass afterwards, and the merge, if one was asked for, worked.
   */
  lemma SuccessExactly(o: Options, w: World)
    ensures var r := Attempts(o, w, InitialCore).0;
      && 1 <= r.attempts <= o.EffectiveMax()
      && (FinalStatus(o, w, r) == Success <==>
            CleanAttempt(o, w, 1, r.attempts) && !w.lateExpiry && (o.merge ==> w.mergeError == None))
      && (FinalStatus(o, w, r) == Success && o.Active(Verify) ==>
            r.lastVerify == Some(w.verify(r.attempts).out) && r.lastVerify.value.passed)
  {
    AttemptsWithinCap(o, w, InitialCore);
    LoopEndsClean(o, w, InitialCore);
  }
}
