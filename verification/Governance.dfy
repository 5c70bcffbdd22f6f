/** The policy engine of internal/governance and its RetryLimit policy. */
module Governance {
  import opened Common

  datatype Verdict = Allow | Review | Deny
  datatype ActionType = ActionExecute | ActionRefine
  datatype Action = Action(typ: ActionType, attempt: int)
  datatype Ruling = Ruled(verdict: Verdict, reason: string) | Errored(message: string)

  /** RetryLimit is spelled out; any other policy is an arbitrary rule. */
  datatype Policy = RetryLimit(maxAttempts: int) | Custom(name: string, rule: Action -> Ruling)
  {
    function Name(): string {
      if RetryLimit? then "retry_limit" else name
    }

    function Evaluate(a: Action): Ruling {
      match this
      case RetryLimit(limit) =>
        if limit <= 0 then Ruled(Allow, "")
        else if a.typ != ActionRefine then Ruled(Allow, "")
        else if a.attempt > limit then Ruled(Deny, "retry cap exceeded")
        else Ruled(Allow, "")
      case Custom(_, rule) => rule(a)
    }

    /** A policy that errs counts as a denial. */
    predicate Denies(a: Action) {
      Evaluate(a).Errored? || Evaluate(a).verdict == Deny
    }

    predicate Reviews(a: Action) {
      Evaluate(a).Ruled? && Evaluate(a).verdict == Review
    }

    function Text(a: Action): string {
      match Evaluate(a)
      case Ruled(_, reason) => reason
      case Errored(message) => message
    }
  }

  datatype PolicyVerdict = PolicyVerdict(policy: string, result: Verdict, reason: string)
  datatype Decision = Decision(result: Verdict, reasons: seq<string>, perPolicy: seq<PolicyVerdict>)

  function Audit(p: Policy, a: Action): PolicyVerdict {
    PolicyVerdict(p.Name(), if p.Denies(a) then Deny else p.Evaluate(a).verdict, p.Text(a))
  }

  /** What a single policy contributes. */
  function Alone(p: Policy, a: Action): Decision {
    var noted := p.Denies(a) || p.Reviews(a);
    Decision(Audit(p, a).result, if noted then [p.Name() + ": " + p.Text(a)] else [], [Audit(p, a)])
  }

  /** A later verdict overrides an earlier one unless it merely allows. */
  function Join(d: Decision, later: Decision): Decision {
    Decision(if later.result == Allow then d.result else later.result,
             d.reasons + later.reasons, d.perPolicy + later.perPolicy)
  }

  lemma JoinAssociative(c: Decision, d: Decision, e: Decision)
    ensures Join(c, Join(d, e)) == Join(Join(c, d), e)
  {
    assert c.reasons + (d.reasons + e.reasons) == (c.reasons + d.reasons) + e.reasons;
    assert c.perPolicy + (d.perPolicy + e.perPolicy) == (c.perPolicy + d.perPolicy) + e.perPolicy;
  }

  /** The aggregate verdict, read from the front: nothing after a denial is asked. */
  function Verdicts(ps: seq<Policy>, a: Action): Decision
    decreases |ps|
  {
    if ps == [] then Decision(Allow, [], [])
    else if ps[0].Denies(a) then Alone(ps[0], a)
    else Join(Alone(ps[0], a), Verdicts(ps[1..], a))
  }

  lemma AskNext(ps: seq<Policy>, i: nat, a: Action, d: Decision)
    requires i < |ps|
    ensures ps[i].Denies(a) ==> Join(d, Verdicts(ps[i..], a)) == Join(d, Alone(ps[i], a))
    ensures !ps[i].Denies(a) ==>
      Join(d, Verdicts(ps[i..], a)) == Join(Join(d, Alone(ps[i], a)), Verdicts(ps[i + 1..], a))
  {
    assert ps[i..][1..] == ps[i + 1..];
    JoinAssociative(d, Alone(ps[i], a), Verdicts(ps[i + 1..], a));
  }

  /** What the loop notes of one policy is what the policy contributes. */
  lemma JoinAlone(d: Decision, p: Policy, a: Action)
    requires d.result != Deny
    ensures var note, row := [p.Name() + ": " + p.Text(a)], [Audit(p, a)];
      Join(d, Alone(p, a)) ==
        if p.Denies(a) then Decision(Deny, d.reasons + note, d.perPolicy + row)
        else if p.Reviews(a) then Decision(Review, d.reasons + note, d.perPolicy + row)
        else d.(perPolicy := d.perPolicy + row)
  {
    assert d.reasons + [] == d.reasons;
  }

  /** No engine configured: every action is allowed. */
  function Judge(engine: Option<seq<Policy>>, a: Action): Decision {
    match engine
    case None => Decision(Allow, [], [])
    case Some(ps) => Verdicts(ps, a)
  }

  /** Denied exactly when some policy denies or errs. */
  lemma {:induction false} DeniedMeaning(ps: seq<Policy>, a: Action)
    ensures Verdicts(ps, a).result == Deny <==> exists p :: p in ps && p.Denies(a)
    decreases |ps|
  {
    if ps != [] {
      DeniedMeaning(ps[1..], a);
      assert ps == [ps[0]] + ps[1..];
    }
  }

  /** Under review exactly when no policy denies and some policy asks for review. */
  lemma {:induction false} ReviewMeaning(ps: seq<Policy>, a: Action)
    ensures Verdicts(ps, a).result == Review <==>
      (forall p :: p in ps ==> !p.Denies(a)) && exists p :: p in ps && p.Reviews(a)
    decreases |ps|
  {
    if ps != [] {
      ReviewMeaning(ps[1..], a);
      DeniedMeaning(ps[1..], a);
      assert ps == [ps[0]] + ps[1..];
    }
  }

  /** The row of a policy: its name, and its verdict and reason, or Deny and the message of its error. */
  predicate Records(row: PolicyVerdict, p: Policy, a: Action) {
    row.policy == p.Name() &&
    match p.Evaluate(a)
    case Ruled(verdict, reason) => row.result == verdict && row.reason == reason
    case Errored(message) => row.result == Deny && row.reason == message
  }

  /** The breakdown lists the policies asked, in order, and stops at the first denial. */
  lemma {:induction false} BreakdownMeaning(ps: seq<Policy>, a: Action)
    ensures var n := |Verdicts(ps, a).perPolicy|;
      && n <= |ps|
      && (forall i :: 0 <= i < n ==> Records(Verdicts(ps, a).perPolicy[i], ps[i], a))
      && (forall i :: 0 <= i < n - 1 ==> !ps[i].Denies(a))
      && (n < |ps| ==> n > 0 && ps[n - 1].Denies(a))
    decreases |ps|
  {
    if ps != [] {
      BreakdownMeaning(ps[1..], a);
    }
  }

  function Notes(rows: seq<PolicyVerdict>): seq<string> {
    if rows == [] then []
    else (if rows[0].result == Allow then [] else [rows[0].policy + ": " + rows[0].reason]) + Notes(rows[1..])
  }

  /** The reasons are those of the rows that do not allow, in the order of the breakdown. */
  lemma {:induction false} ReasonsMeaning(ps: seq<Policy>, a: Action)
    ensures Verdicts(ps, a).reasons == Notes(Verdicts(ps, a).perPolicy)
    decreases |ps|
  {
    if ps != [] {
      ReasonsMeaning(ps[1..], a);
      var first, rest := Audit(ps[0], a), Verdicts(ps[1..], a).perPolicy;
      assert ([first] + rest)[1..] == rest && [first][1..] == [];
    }
  }

  /** Retry limits deny attempt n exactly when a positive one of them is below n, and deny nothing but refinements. */
  lemma RetryLimitsExactly(ps: seq<Policy>, typ: ActionType, n: int)
    requires forall p :: p in ps ==> p.RetryLimit?
    ensures Verdicts(ps, Action(typ, n)).result ==
      if typ == ActionRefine && exists r :: RetryLimit(r) in ps && 0 < r < n then Deny else Allow
  {
    var a := Action(typ, n);
    DeniedMeaning(ps, a);
    ReviewMeaning(ps, a);
    forall p | p in ps
      ensures !p.Reviews(a) && (p.Denies(a) <==> typ == ActionRefine && 0 < p.maxAttempts < n)
      ensures RetryLimit(p.maxAttempts) == p
    {
    }
  }

  /** An engine that holds RetryLimit{R} with R > 0 lets no attempt beyond R start. */
  lemma RetryLimitDenies(ps: seq<Policy>, r: int, attempt: int)
    requires RetryLimit(r) in ps && r > 0 && attempt > r
    ensures Verdicts(ps, Action(ActionRefine, attempt)).result == Deny
  {
    assert RetryLimit(r).Denies(Action(ActionRefine, attempt));
    DeniedMeaning(ps, Action(ActionRefine, attempt));
  }

  class Engine {
    var policies: seq<Policy>

    constructor (ps: seq<Policy>)
      ensures policies == ps
    {
      policies := ps;
    }

    /** Appends p unless its name is taken. */
    method AddPolicy(p: Policy) returns (ok: bool)
      modifies this
      ensures ok <==> forall i :: 0 <= i < |old(policies)| ==> old(policies)[i].Name() != p.Name()
      ensures policies == if ok then old(policies) + [p] else old(policies)
    {
      for i := 0 to |policies|
        invariant forall j :: 0 <= j < i ==> policies[j].Name() != p.Name()
      {
        if policies[i].Name() == p.Name() {
          return false;
        }
      }
      policies := policies + [p];
      return true;
    }

    /** The accumulating loop computes the aggregate verdict. */
    method Evaluate(a: Action) returns (d: Decision)
      ensures d == Verdicts(policies, a)
    {
      d := Decision(Allow, [], []);
      for i := 0 to |policies|
        invariant d.result != Deny
        invariant Verdicts(policies, a) == Join(d, Verdicts(policies[i..], a))
      {
        var p := policies[i];
        AskNext(policies, i, a, d);
        JoinAlone(d, p, a);
        var note := [p.Name() + ": " + p.Text(a)];
        match p.Evaluate(a)
        case Errored(message) =>
          d := Decision(Deny, d.reasons + note, d.perPolicy + [PolicyVerdict(p.Name(), Deny, message)]);
          return;
        case Ruled(verdict, reason) =>
          d := d.(perPolicy := d.perPolicy + [PolicyVerdict(p.Name(), verdict, reason)]);
          if verdict == Deny {
            d := d.(result := Deny, reasons := d.reasons + note);
            return;
          } else if verdict == Review {
            d := d.(result := Review, reasons := d.reasons + note);
          }
      }
    }
  }
}
