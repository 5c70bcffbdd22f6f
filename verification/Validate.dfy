/** Plan validation and roots, and the extra shape checks of the DAG executor. */
module Validate {
  import opened Common
  import opened Graph
  import opened Plan
  import opened Kahn

  ghost predicate NonEmptyFields(nodes: seq<Node>) {
    forall i :: 0 <= i < |nodes| ==> nodes[i].id != "" && nodes[i].prompt != ""
  }

  /** What the documentation calls a valid DAG. */
  ghost predicate ValidDAG(nodes: seq<Node>) {
    && nodes != []
    && NonEmptyFields(nodes)
    && DistinctIds(nodes)
    && KnownDeps(nodes)
    && Acyclic(GraphOf(nodes))
  }

  /** A task that depends on itself is a cycle, so acyclicity already forbids it. */
  lemma SelfDependencyIsCycle(nodes: seq<Node>, i: nat)
    requires DistinctIds(nodes) && i < |nodes| && nodes[i].id in nodes[i].dependsOn
    ensures !Acyclic(GraphOf(nodes))
  {
    GraphOfAt(nodes, i);
    var id := nodes[i].id;
    assert Edge(GraphOf(nodes), id, id);
    assert IsCycle(GraphOf(nodes), [id, id]);
  }

  /** The first i nodes have nothing wrong with their own fields. */
  ghost predicate FieldsFine(nodes: seq<Node>, i: nat) {
    i <= |nodes| && NonEmptyFields(nodes[..i]) && DistinctIds(nodes[..i])
  }

  /** The first defect of node i in the order of the checks, if it is in the node's own fields. */
  ghost predicate FieldDefect(nodes: seq<Node>, i: nat, e: PlanError) {
    i < |nodes| && FieldsFine(nodes, i) &&
    if nodes[i].id == "" then e == EmptyID
    else if nodes[i].prompt == "" then e == EmptyPrompt
    else HasId(nodes[..i], nodes[i].id) && e == DuplicateID
  }

  ghost predicate DepFine(nodes: seq<Node>, i: nat, k: nat)
    requires i < |nodes| && k < |nodes[i].dependsOn|
  {
    nodes[i].dependsOn[k] != nodes[i].id && HasId(nodes, nodes[i].dependsOn[k])
  }

  /** Nothing is wrong with the dependencies before the k-th one of node i. */
  ghost predicate DepsFine(nodes: seq<Node>, i: nat, k: nat) {
    && i <= |nodes| && (i < |nodes| ==> k <= |nodes[i].dependsOn|)
    && (forall j, m :: 0 <= j < i && 0 <= m < |nodes[j].dependsOn| ==> DepFine(nodes, j, m))
    && (forall m :: i < |nodes| && 0 <= m < k ==> DepFine(nodes, i, m))
  }

  ghost predicate DepDefect(nodes: seq<Node>, i: nat, k: nat, e: PlanError) {
    && i < |nodes| && k < |nodes[i].dependsOn| && DepsFine(nodes, i, k)
    && if nodes[i].dependsOn[k] == nodes[i].id then e == SelfDependency
       else !HasId(nodes, nodes[i].dependsOn[k]) && e == UnknownDep
  }

  /**
   The error is the plan's first defect: fields before dependencies before cycles, each in
   input order.
   */
  ghost predicate FirstDefect(nodes: seq<Node>, e: PlanError) {
    match e
    case EmptyDAG => nodes == []
    case EmptyID | EmptyPrompt | DuplicateID => exists i: nat :: FieldDefect(nodes, i, e)
    case SelfDependency | UnknownDep =>
      FieldsFine(nodes, |nodes|) && exists i: nat, k: nat :: DepDefect(nodes, i, k, e)
    case CycleFound(id) =>
      nodes != [] && FieldsFine(nodes, |nodes|) && DepsFine(nodes, |nodes|, 0) && OnCycle(GraphOf(nodes), id)
  }

  method CheckFields(nodes: seq<Node>) returns (err: Option<PlanError>, ids: set<string>)
    ensures err == None ==> FieldsFine(nodes, |nodes|)
    ensures err == None ==> forall x :: x in ids <==> HasId(nodes, x)
    ensures err.Some? ==> exists i: nat :: FieldDefect(nodes, i, err.value)
  {
    ids := {};
    for i := 0 to |nodes|
      invariant FieldsFine(nodes, i)
      invariant forall x :: x in ids <==> HasId(nodes[..i], x)
    {
      var n := nodes[i];
      if n.id == "" {
        assert FieldDefect(nodes, i, EmptyID);
        return Some(EmptyID), ids;
      }
      if n.prompt == "" {
        assert FieldDefect(nodes, i, EmptyPrompt);
        return Some(EmptyPrompt), ids;
      }
      if n.id in ids {
        assert FieldDefect(nodes, i, DuplicateID);
        return Some(DuplicateID), ids;
      }
      HasIdGrows(nodes, i);
      FieldsGrow(nodes, i);
      ids := ids + {n.id};
    }
    assert nodes[..|nodes|] == nodes;
    return None, ids;
  }

  lemma FieldsGrow(nodes: seq<Node>, i: nat)
    requires i < |nodes| && FieldsFine(nodes, i) && nodes[i].id != "" && nodes[i].prompt != ""
    requires !HasId(nodes[..i], nodes[i].id)
    ensures FieldsFine(nodes, i + 1)
  {
    assert nodes[..i + 1] == nodes[..i] + [nodes[i]];
    assert forall j :: 0 <= j < i ==> nodes[..i][j].id != nodes[i].id;
  }

  lemma HasIdGrows(nodes: seq<Node>, i: nat)
    requires i < |nodes|
    ensures forall x :: HasId(nodes[..i + 1], x) <==> HasId(nodes[..i], x) || x == nodes[i].id
  {
    assert nodes[..i + 1] == nodes[..i] + [nodes[i]];
    assert nodes[..i + 1][i] == nodes[i];
    forall x | HasId(nodes[..i], x)
      ensures HasId(nodes[..i + 1], x)
    {
      var j :| 0 <= j < i && nodes[..i][j].id == x;
      assert nodes[..i + 1][j].id == x;
    }
  }

  method CheckDeps(nodes: seq<Node>, ids: set<string>) returns (err: Option<PlanError>)
    requires forall x :: x in ids <==> HasId(nodes, x)
    ensures err == None ==> DepsFine(nodes, |nodes|, 0)
    ensures err.Some? ==> (err.value == SelfDependency || err.value == UnknownDep)
                          && exists i: nat, k: nat :: DepDefect(nodes, i, k, err.value)
  {
    for i := 0 to |nodes|
      invariant DepsFine(nodes, i, 0)
    {
      for k := 0 to |nodes[i].dependsOn|
        invariant DepsFine(nodes, i, k)
      {
        var dep := nodes[i].dependsOn[k];
        if dep == nodes[i].id {
          assert DepDefect(nodes, i, k, SelfDependency);
          return Some(SelfDependency);
        }
        if dep !in ids {
          assert DepDefect(nodes, i, k, UnknownDep);
          return Some(UnknownDep);
        }
      }
    }
    return None;
  }

  /** Accepts exactly the valid DAGs; an error names the first defect of the plan. */
  method ValidatePlan(nodes: seq<Node>) returns (err: Option<PlanError>)
    ensures err == None <==> ValidDAG(nodes)
    ensures err.Some? ==> FirstDefect(nodes, err.value)
  {
    if |nodes| == 0 {
      return Some(EmptyDAG);
    }
    var ids;
    err, ids := CheckFields(nodes);
    if err.Some? {
      DefectIsInvalid(nodes, err.value);
      return;
    }
    err := CheckDeps(nodes, ids);
    if err.Some? {
      DefectIsInvalid(nodes, err.value);
      return;
    }
    FineIsKnown(nodes);
    var cycle := FindCycle(nodes);
    if cycle != "" {
      return Some(CycleFound(cycle));
    }
    return None;
  }

  lemma FineIsKnown(nodes: seq<Node>)
    requires FieldsFine(nodes, |nodes|) && DepsFine(nodes, |nodes|, 0)
    ensures NonEmptyFields(nodes) && DistinctIds(nodes) && KnownDeps(nodes)
  {
    assert nodes[..|nodes|] == nodes;
    forall j, d | 0 <= j < |nodes| && d in nodes[j].dependsOn ensures HasId(nodes, d) {
      var m :| 0 <= m < |nodes[j].dependsOn| && nodes[j].dependsOn[m] == d;
      assert DepFine(nodes, j, m);
    }
  }

  lemma DefectIsInvalid(nodes: seq<Node>, e: PlanError)
    requires FirstDefect(nodes, e)
    ensures !ValidDAG(nodes)
  {
    match e
    case EmptyDAG =>
    case EmptyID | EmptyPrompt =>
    case DuplicateID =>
      var i: nat :| FieldDefect(nodes, i, e);
      var j :| 0 <= j < i && nodes[..i][j].id == nodes[i].id;
      assert nodes[j].id == nodes[i].id;
    case SelfDependency =>
      var i: nat, k: nat :| DepDefect(nodes, i, k, e);
      if DistinctIds(nodes) {
        SelfDependencyIsCycle(nodes, i);
      }
    case UnknownDep =>
      var i: nat, k: nat :| DepDefect(nodes, i, k, e);
      assert nodes[i].dependsOn[k] in nodes[i].dependsOn;
    case CycleFound(id) => CycleMeansCyclic(GraphOf(nodes), id);
  }

  lemma DefectBoundsFields(nodes: seq<Node>, i: nat, e: PlanError, j: nat)
    requires FieldDefect(nodes, i, e) && FieldsFine(nodes, j)
    ensures j <= i
  {
    if i < j {
      assert nodes[..j][i] == nodes[i];
      forall p | 0 <= p < i ensures nodes[..i][p].id != nodes[i].id {
        assert nodes[..j][p] == nodes[p];
      }
    }
  }

  lemma DefectBoundsDeps(nodes: seq<Node>, i: nat, k: nat, e: PlanError, j: nat, m: nat)
    requires DepDefect(nodes, i, k, e) && DepsFine(nodes, j, m)
    ensures j < i || (j == i && m <= k)
  {
    assert !DepFine(nodes, i, k);
  }

  /** There is one first defect; only the node named of a cycle is open. */
  lemma FirstDefectIsUnique(nodes: seq<Node>, e: PlanError, f: PlanError)
    requires FirstDefect(nodes, e) && FirstDefect(nodes, f)
    ensures e == f || (e.CycleFound? && f.CycleFound?)
  {
    if nodes != [] && e.CycleFound? {
      NoneBefore(nodes, f);
    } else if nodes != [] && (e == SelfDependency || e == UnknownDep) {
      var i: nat, k: nat :| DepDefect(nodes, i, k, e);
      OneDepDefect(nodes, i, k, e, f);
    } else if nodes != [] {
      var i: nat :| FieldDefect(nodes, i, e);
      OneFieldDefect(nodes, i, e, f);
    }
  }

  lemma NoneBefore(nodes: seq<Node>, f: PlanError)
    requires FieldsFine(nodes, |nodes|) && DepsFine(nodes, |nodes|, 0) && nodes != [] && FirstDefect(nodes, f)
    ensures f.CycleFound?
  {
    if f == SelfDependency || f == UnknownDep {
      var j: nat, m: nat :| DepDefect(nodes, j, m, f);
      DefectBoundsDeps(nodes, j, m, f, |nodes|, 0);
    } else if !f.CycleFound? {
      var j: nat :| FieldDefect(nodes, j, f);
      DefectBoundsFields(nodes, j, f, |nodes|);
    }
  }

  lemma OneDepDefect(nodes: seq<Node>, i: nat, k: nat, e: PlanError, f: PlanError)
    requires FieldsFine(nodes, |nodes|) && DepDefect(nodes, i, k, e) && FirstDefect(nodes, f)
    ensures e == f
  {
    if f == SelfDependency || f == UnknownDep {
      var j: nat, m: nat :| DepDefect(nodes, j, m, f);
      DefectBoundsDeps(nodes, j, m, f, i, k);
      DefectBoundsDeps(nodes, i, k, e, j, m);
    } else if f.CycleFound? {
      DefectBoundsDeps(nodes, i, k, e, |nodes|, 0);
    } else {
      var j: nat :| FieldDefect(nodes, j, f);
      DefectBoundsFields(nodes, j, f, |nodes|);
    }
  }

  lemma OneFieldDefect(nodes: seq<Node>, i: nat, e: PlanError, f: PlanError)
    requires FieldDefect(nodes, i, e) && FirstDefect(nodes, f)
    ensures e == f
  {
    if f == EmptyID || f == EmptyPrompt || f == DuplicateID {
      var j: nat :| FieldDefect(nodes, j, f);
      DefectBoundsFields(nodes, i, e, j);
      DefectBoundsFields(nodes, j, f, i);
    } else {
      DefectBoundsFields(nodes, i, e, |nodes|);
    }
  }

  /** The entry points of the plan, in input order. */
  method Roots(nodes: seq<Node>) returns (out: seq<string>)
    ensures out == Seeds(nodes)
  {
    out := [];
    for i := 0 to |nodes|
      invariant out == Seeds(nodes[..i])
    {
      assert nodes[..i + 1][..i] == nodes[..i];
      if |nodes[i].dependsOn| == 0 {
        out := out + [nodes[i].id];
      }
    }
    assert nodes[..|nodes|] == nodes;
  }

  datatype DAGError = EmptyPlan | Invalid(error: PlanError) | DiamondNotSupported | JudgeRequired

  ghost predicate ForkOnly(nodes: seq<Node>) {
    forall i :: 0 <= i < |nodes| ==> |nodes[i].dependsOn| <= 1
  }

  /** The executor's gate: a valid DAG without fan-in, with a judge when chains must be ranked. */
  method ValidateDAG(nodes: seq<Node>, hasJudge: bool) returns (err: Option<DAGError>)
    ensures err == None <==> ValidDAG(nodes) && ForkOnly(nodes) && (|Seeds(nodes)| > 1 ==> hasJudge)
    ensures err == Some(EmptyPlan) <==> nodes == []
    ensures err.Some? && err.value.Invalid? ==> FirstDefect(nodes, err.value.error)
    ensures err == Some(DiamondNotSupported) ==> ValidDAG(nodes) && !ForkOnly(nodes)
    ensures err == Some(JudgeRequired) ==> ValidDAG(nodes) && ForkOnly(nodes)
  {
    if |nodes| == 0 {
      return Some(EmptyPlan);
    }
    var e := ValidatePlan(nodes);
    if e.Some? {
      return Some(Invalid(e.value));
    }
    for i := 0 to |nodes|
      invariant ForkOnly(nodes[..i])
    {
      if |nodes[i].dependsOn| > 1 {
        return Some(DiamondNotSupported);
      }
    }
    assert nodes[..|nodes|] == nodes;
    var roots := Roots(nodes);
    if |roots| > 1 && !hasJudge {
      return Some(JudgeRequired);
    }
    return None;
  }
}
