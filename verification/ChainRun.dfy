/** Execution of one chain: runChain and runNode of internal/orchestrator/dag_chain.go. */
module ChainRun {
  import opened Common
  import opened Plan
  import opened Kahn
  import opened Chains
  import opened RefineCycle

  /** What the sandbox answers for a task's attempt; None means the command could be started. */
  datatype ChainWorld = ChainWorld(
    startAgent: (string, nat) -> Option<string>,
    agent: (string, nat) -> ExecResult,
    startVerify: (string, nat) -> Option<string>,
    verifyExit: (string, nat) -> int)

  datatype NodeResult = NodeResult(id: string, attempts: nat, result: ExecResult)
  {
    predicate Succeeded() {
      result.exitCode == 0 && result.err == None
    }
  }

  /** How attempt a of a task ends, or None when it is followed by another. */
  function Ends(o: Options, w: ChainWorld, id: string, a: nat): Option<ExecResult> {
    match w.startAgent(id, a)
    case Some(e) => Some(ExecResult(-1, Some("agent exec: " + e)))
    case None =>
      var ran := w.agent(id, a);
      if !o.Active(Verify) || ran.exitCode != 0 || ran.err != None then Some(ran)
      else match w.startVerify(id, a)
        case Some(e) => Some(ExecResult(-1, Some("verify exec: " + e)))
        case None =>
          if w.verifyExit(id, a) == 0 then Some(ran)
          else if a >= o.maxAttempts then Some(ExecResult(w.verifyExit(id, a), Some("verify failed")))
          else None
  }

  function NodeRun(o: Options, w: ChainWorld, id: string, a: nat): NodeResult
    decreases if a < o.maxAttempts then o.maxAttempts - a else 0
  {
    match Ends(o, w, id, a)
    case Some(r) => NodeResult(id, a, r)
    case None => NodeRun(o, w, id, a + 1)
  }

  /** Attempt a was started, its agent exited cleanly, and the verifier, if configured, passed on it. */
  ghost predicate CleanNode(o: Options, w: ChainWorld, id: string, a: nat) {
    && w.startAgent(id, a) == None
    && w.agent(id, a) == ExecResult(0, None)
    && (o.Active(Verify) ==> w.startVerify(id, a) == None && w.verifyExit(id, a) == 0)
  }

  lemma {:induction false} NodeRunLaws(o: Options, w: ChainWorld, id: string, a: nat)
    ensures var r := NodeRun(o, w, id, a);
      && r.id == id
      && a <= r.attempts && (r.attempts <= o.maxAttempts || r.attempts == a)
      && (r.Succeeded() <==> CleanNode(o, w, id, r.attempts))
    decreases if a < o.maxAttempts then o.maxAttempts - a else 0
  {
    if Ends(o, w, id, a) == None {
      NodeRunLaws(o, w, id, a + 1);
    }
  }

  /** Attempt n of a task, once made, is followed by another. */
  predicate Retried(o: Options, w: ChainWorld, id: string, n: nat) {
    && w.startAgent(id, n) == None && w.agent(id, n) == ExecResult(0, None)
    && o.enabled && |o.verifyCmd| > 0
    && w.startVerify(id, n) == None && w.verifyExit(id, n) != 0 && n < o.maxAttempts
  }

  ghost predicate AllRetried(o: Options, w: ChainWorld, id: string, first: nat, n: nat) {
    forall m: nat :: first <= m <= n ==> Retried(o, w, id, m)
  }

  /**
   The task gets beyond attempt n exactly when on every attempt up to n the agent started
   and exited cleanly, the verifier ran and failed, and the cap left room.
   */
  lemma {:induction false} NodeAttemptsExactly(o: Options, w: ChainWorld, id: string, a: nat, n: nat)
    requires a <= n
    ensures n < NodeRun(o, w, id, a).attempts <==> AllRetried(o, w, id, a, n)
    decreases if a < o.maxAttempts then o.maxAttempts - a else 0
  {
    assert Ends(o, w, id, a) == None <==> Retried(o, w, id, a);
    if Retried(o, w, id, a) {
      NodeRunLaws(o, w, id, a + 1);
      if n > a {
        NodeAttemptsExactly(o, w, id, a + 1, n);
      }
    }
  }

  /** What the last attempt leaves. */
  lemma {:induction false} NodeResultExactly(o: Options, w: ChainWorld, id: string, a: nat)
    ensures var r := NodeRun(o, w, id, a); var n := r.attempts;
      var verifies := o.enabled && |o.verifyCmd| > 0;
      r.result ==
        if w.startAgent(id, n).Some? then ExecResult(-1, Some("agent exec: " + w.startAgent(id, n).value))
        else if w.agent(id, n) != ExecResult(0, None) || !verifies then w.agent(id, n)
        else if w.startVerify(id, n).Some? then ExecResult(-1, Some("verify exec: " + w.startVerify(id, n).value))
        else if w.verifyExit(id, n) == 0 then w.agent(id, n)
        else ExecResult(w.verifyExit(id, n), Some("verify failed"))
    decreases if a < o.maxAttempts then o.maxAttempts - a else 0
  {
    if Ends(o, w, id, a) == None {
      NodeResultExactly(o, w, id, a + 1);
    }
  }

  /** A crashed agent is not retried: its attempt is the last one, and its result that of the task. */
  lemma CrashEndsNode(o: Options, w: ChainWorld, id: string, n: nat)
    requires 1 <= n <= NodeRun(o, w, id, 1).attempts
    requires w.startAgent(id, n) == None && w.agent(id, n) != ExecResult(0, None)
    ensures NodeRun(o, w, id, 1) == NodeResult(id, n, w.agent(id, n))
  {
    NodeAttemptsExactly(o, w, id, 1, n);
    assert !Retried(o, w, id, n);
    NodeResultExactly(o, w, id, 1);
    NodeRunLaws(o, w, id, 1);
  }

  /** Every attempt of the task starts and exits cleanly, and fails verification. */
  ghost predicate KeepsFailing(w: ChainWorld, id: string) {
    forall a :: w.startAgent(id, a) == None && w.agent(id, a) == ExecResult(0, None)
             && w.startVerify(id, a) == None && w.verifyExit(id, a) != 0
  }

  lemma {:induction false} FailsUpToCap(o: Options, w: ChainWorld, id: string, a: nat)
    requires o.Active(Verify) && KeepsFailing(w, id)
    ensures NodeRun(o, w, id, a).attempts == if a < o.maxAttempts then o.maxAttempts else a
    decreases if a < o.maxAttempts then o.maxAttempts - a else 0
  {
    if a < o.maxAttempts {
      FailsUpToCap(o, w, id, a + 1);
    }
  }

  /** A task that keeps failing is retried up to the documented cap. */
  ghost predicate RetriesUpToCap(o: Options) {
    forall w, id :: KeepsFailing(w, id) ==> NodeRun(o, w, id, 1).attempts == o.EffectiveMax()
  }

  /**
   The chain executor reads the configured cap as it is, so the documented default of three
   attempts for an unset cap does not reach it: a failing task is retried up to the
   effective cap exactly when a positive cap is configured.
   */
  lemma CapIsHonouredExactly(o: Options)
    requires o.Active(Verify)
    ensures RetriesUpToCap(o) <==> o.maxAttempts > 0
  {
    forall w, id | KeepsFailing(w, id)
      ensures NodeRun(o, w, id, 1).attempts == o.EffectiveMax() <==> o.maxAttempts > 0
    {
      FailsUpToCap(o, w, id, 1);
    }
    var stubborn := ChainWorld((_, _) => None, (_, _) => ExecResult(0, None), (_, _) => None, (_, _) => 1);
    assert KeepsFailing(stubborn, "");
  }

  method RunNode(o: Options, w: ChainWorld, node: Node) returns (r: NodeResult)
    ensures r == NodeRun(o, w, node.id, 1)
  {
    var attempt := 0;
    var last;
    while true
      invariant NodeRun(o, w, node.id, attempt + 1) == NodeRun(o, w, node.id, 1)
      decreases if attempt + 1 < o.maxAttempts then o.maxAttempts - attempt - 1 else 0
    {
      attempt := attempt + 1;
      var err := w.startAgent(node.id, attempt);
      if err.Some? {
        last := ExecResult(-1, Some("agent exec: " + err.value));
        break;
      }
      last := w.agent(node.id, attempt);
      if !o.Active(Verify) || last.exitCode != 0 || last.err != None {
        break;
      }
      var vErr := w.startVerify(node.id, attempt);
      if vErr.Some? {
        last := ExecResult(-1, Some("verify exec: " + vErr.value));
        break;
      }
      var exit := w.verifyExit(node.id, attempt);
      if exit == 0 {
        break;
      }
      if attempt >= o.maxAttempts {
        last := ExecResult(exit, Some("verify failed"));
        break;
      }
    }
    return NodeResult(node.id, attempt, last);
  }

  /** The tasks run are a prefix of the chain; only the last of them can have failed. */
  ghost predicate ChainOutcome(o: Options, w: ChainWorld, nodes: seq<Node>, results: seq<NodeResult>,
                               failedAt: Option<string>) {
    && |results| <= |nodes|
    && (forall i :: 0 <= i < |results| ==> results[i] == NodeRun(o, w, nodes[i].id, 1))
    && (forall i :: 0 <= i < |results| - 1 ==> results[i].Succeeded())
    && match failedAt
       case None => |results| == |nodes| && forall i :: 0 <= i < |results| ==> results[i].Succeeded()
       case Some(id) => results != [] && !results[|results| - 1].Succeeded() && id == nodes[|results| - 1].id
  }

  /** Success is failedAt == None; a failure skips the rest of the chain. */
  method RunChain(o: Options, w: ChainWorld, nodes: seq<Node>)
    returns (results: seq<NodeResult>, failedAt: Option<string>)
    ensures ChainOutcome(o, w, nodes, results, failedAt)
  {
    results := [];
    for i := 0 to |nodes|
      invariant |results| == i
      invariant forall k :: 0 <= k < i ==> results[k] == NodeRun(o, w, nodes[k].id, 1) && results[k].Succeeded()
    {
      var nr := RunNode(o, w, nodes[i]);
      results := results + [nr];
      if !(nr.result.exitCode == 0 && nr.result.err == None) {
        return results, Some(nodes[i].id);
      }
    }
    return results, None;
  }

  /** The task's dependencies were all run earlier in this chain and succeeded. */
  ghost predicate DependenciesSucceeded(plan: seq<Node>, results: seq<NodeResult>, j: nat)
    requires j < |results| && HasId(plan, results[j].id)
  {
    forall d :: d in DepsOf(plan, results[j].id) ==>
      exists i :: 0 <= i < j && results[i].id == d && results[i].Succeeded()
  }

  /** No chain of a decomposed plan ever runs a task whose dependency has not already succeeded. */
  lemma ChainsRespectDependencies(plan: seq<Node>, order: seq<string>, agents: seq<string>, specs: seq<ChainSpec>,
                                  i: nat, o: Options, w: ChainWorld, results: seq<NodeResult>,
                                  failedAt: Option<string>, j: nat)
    requires Forest(plan, order) && IsDecomposition(plan, order, agents, specs) && i < |specs|
    requires ChainOutcome(o, w, specs[i].nodes, results, failedAt) && j < |results|
    ensures HasId(plan, results[j].id) && DependenciesSucceeded(plan, results, j)
  {
    var ids := NodeIds(specs[i].nodes);
    DecompositionIsPartition(plan, order, agents, specs);
    assert FollowsDependency(plan, ids, Seeds(plan)[i], j);
    NodeRunLaws(o, w, ids[j], 1);
    if j == 0 {
      RootFacts(plan, order, Seeds(plan)[i]);
    } else {
      var k :| 0 <= k < j && DepsOf(plan, ids[j]) == [ids[k]];
      NodeRunLaws(o, w, ids[k], 1);
      assert results[k].Succeeded();
    }
  }
}
