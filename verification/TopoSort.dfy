/** TopoSort of internal/planner/types.go: its counters compute the set-based order, and what that order guarantees. */
module TopoSort {
  import opened Common
  import opened Graph
  import opened Plan
  import opened Kahn

  /** Dependency entries, repeated ones included, that are not output yet. */
  function Missing(deps: seq<string>, out: seq<string>): nat
    decreases |deps|
  {
    if deps == [] then 0
    else Missing(deps[..|deps| - 1], out) + if deps[|deps| - 1] in out then 0 else 1
  }

  /** How many dependency entries name v. */
  function Count(deps: seq<string>, v: string): nat
    decreases |deps|
  {
    if deps == [] then 0 else Count(deps[..|deps| - 1], v) + if deps[|deps| - 1] == v then 1 else 0
  }

  lemma {:induction false} CountZero(deps: seq<string>, v: string)
    ensures Count(deps, v) > 0 <==> v in deps
    decreases |deps|
  {
    if deps != [] {
      CountZero(deps[..|deps| - 1], v);
      assert deps == deps[..|deps| - 1] + [deps[|deps| - 1]];
    }
  }

  lemma {:induction false} MissingZero(deps: seq<string>, out: seq<string>)
    ensures Missing(deps, out) == 0 <==> AllIn(deps, out)
    decreases |deps|
  {
    if deps != [] {
      MissingZero(deps[..|deps| - 1], out);
      assert deps == deps[..|deps| - 1] + [deps[|deps| - 1]];
    }
  }

  lemma {:induction false} MissingDrops(deps: seq<string>, out: seq<string>, id: string)
    requires id !in out
    ensures Missing(deps, out) == Missing(deps, out + [id]) + Count(deps, id)
    decreases |deps|
  {
    if deps != [] {
      MissingDrops(deps[..|deps| - 1], out, id);
    }
  }

  lemma {:induction false} MissingNothingOut(deps: seq<string>)
    ensures Missing(deps, []) == |deps|
    decreases |deps|
  {
    if deps != [] {
      MissingNothingOut(deps[..|deps| - 1]);
    }
  }

  function Copies(x: string, n: nat): seq<string>
    decreases n
  {
    if n == 0 then [] else Copies(x, n - 1) + [x]
  }

  /** The reverse adjacency list of v: every dependent, once per entry naming v. */
  function Dependents(nodes: seq<Node>, v: string): seq<string>
    decreases |nodes|
  {
    if nodes == [] then []
    else
      var last := nodes[|nodes| - 1];
      Dependents(nodes[..|nodes| - 1], v) + Copies(last.id, Count(last.dependsOn, v))
  }

  function Get(m: map<string, seq<string>>, v: string): seq<string> {
    if v in m then m[v] else []
  }

  /** The map holds the edges of these nodes, and of one more task up to some of its entries. */
  ghost predicate Holds(m: map<string, seq<string>>, base: string -> seq<string>, id: string, deps: seq<string>) {
    forall v :: Get(m, v) == base(v) + Copies(id, Count(deps, v))
  }

  lemma OneMoreCopy(a: seq<string>, x: string, n: nat)
    ensures (a + Copies(x, n)) + [x] == a + Copies(x, n + 1)
  {
    ConcatAssociative(a, Copies(x, n), [x]);
  }

  lemma CountAppend(deps: seq<string>, dep: string, v: string)
    ensures Count(deps + [dep], v) == Count(deps, v) + (if v == dep then 1 else 0)
  {
    assert (deps + [dep])[..|deps|] == deps;
  }

  lemma EdgeAt(m: map<string, seq<string>>, base: seq<string>, id: string, deps: seq<string>, dep: string, v: string)
    requires Get(m, v) == base + Copies(id, Count(deps, v))
    ensures Get(m[dep := Get(m, dep) + [id]], v) == base + Copies(id, Count(deps + [dep], v))
  {
    var n, n' := Count(deps, v), Count(deps + [dep], v);
    CountAppend(deps, dep, v);
    if v == dep {
      OneMoreCopy(base, id, n);
      assert Copies(id, n') == Copies(id, n + 1);
    } else {
      assert n' == n;
    }
  }

  lemma HoldsEdge(m: map<string, seq<string>>, base: string -> seq<string>, id: string, deps: seq<string>, dep: string)
    requires Holds(m, base, id, deps)
    ensures Holds(m[dep := Get(m, dep) + [id]], base, id, deps + [dep])
  {
    forall v
      ensures Get(m[dep := Get(m, dep) + [id]], v) == base(v) + Copies(id, Count(deps + [dep], v))
    {
      EdgeAt(m, base(v), id, deps, dep, v);
    }
  }

  ghost predicate Complete(m: map<string, seq<string>>, nodes: seq<Node>) {
    forall v :: Get(m, v) == Dependents(nodes, v)
  }

  lemma HoldsNode(m: map<string, seq<string>>, nodes: seq<Node>, i: nat, base: string -> seq<string>)
    requires i < |nodes| && forall v :: base(v) == Dependents(nodes[..i], v)
    ensures Complete(m, nodes[..i]) ==> Holds(m, base, nodes[i].id, [])
    ensures Holds(m, base, nodes[i].id, nodes[i].dependsOn) ==> Complete(m, nodes[..i + 1])
  {
    assert nodes[..i + 1][..i] == nodes[..i] && nodes[..i + 1][i] == nodes[i];
    forall v
      ensures base(v) + Copies(nodes[i].id, Count([], v)) == base(v)
    {
    }
  }

  method AddEdges(m: map<string, seq<string>>, ghost base: string -> seq<string>, n: Node)
    returns (m': map<string, seq<string>>)
    requires Holds(m, base, n.id, [])
    ensures Holds(m', base, n.id, n.dependsOn)
  {
    m' := m;
    for k := 0 to |n.dependsOn|
      invariant Holds(m', base, n.id, n.dependsOn[..k])
    {
      HoldsEdge(m', base, n.id, n.dependsOn[..k], n.dependsOn[k]);
      assert n.dependsOn[..k + 1] == n.dependsOn[..k] + [n.dependsOn[k]];
      m' := m'[n.dependsOn[k] := Get(m', n.dependsOn[k]) + [n.id]];
    }
    assert n.dependsOn[..|n.dependsOn|] == n.dependsOn;
  }

  method BuildDependents(nodes: seq<Node>) returns (dependents: map<string, seq<string>>)
    ensures Complete(dependents, nodes)
  {
    dependents := map[];
    for i := 0 to |nodes|
      invariant Complete(dependents, nodes[..i])
    {
      ghost var base := (v: string) => Dependents(nodes[..i], v);
      HoldsNode(dependents, nodes, i, base);
      dependents := AddEdges(dependents, base, nodes[i]);
      HoldsNode(dependents, nodes, i, base);
    }
    assert nodes[..|nodes|] == nodes;
  }

  /** The counters and the ready queue. */
  datatype Counters = Counters(indeg: map<string, int>, ready: seq<string>)

  /** One traversed edge: count down, and queue the child when its counter reaches zero. */
  function Release(c: Counters, child: string): Counters
    requires child in c.indeg
  {
    var left := c.indeg[child] - 1;
    Counters(c.indeg[child := left], if left == 0 then c.ready + [child] else c.ready)
  }

  function ReleaseAll(c: Counters, children: seq<string>): (d: Counters)
    requires forall x :: x in children ==> x in c.indeg
    ensures d.indeg.Keys == c.indeg.Keys
    decreases |children|
  {
    if children == [] then c
    else Release(ReleaseAll(c, children[..|children| - 1]), children[|children| - 1])
  }

  lemma {:induction false} ReleaseAppend(c: Counters, a: seq<string>, b: seq<string>)
    requires forall x :: x in a + b ==> x in c.indeg
    ensures (forall x :: x in a ==> x in c.indeg) && (forall x :: x in b ==> x in c.indeg)
    ensures ReleaseAll(c, a + b) == ReleaseAll(ReleaseAll(c, a), b)
    decreases |b|
  {
    forall x | x in a || x in b ensures x in c.indeg { assert x in a + b; }
    if b == [] {
      assert a + b == a;
    } else {
      var b' := b[..|b| - 1];
      assert (a + b)[..|a + b| - 1] == a + b';
      ReleaseAppend(c, a, b');
    }
  }

  lemma {:induction false} CopiesMembers(x: string, n: nat)
    ensures |Copies(x, n)| == n && forall y :: y in Copies(x, n) ==> y == x
    decreases n
  {
    if n > 0 {
      CopiesMembers(x, n - 1);
    }
  }

  /** Traversing all n edges to one child queues it exactly when they were all it waited for. */
  lemma {:induction false} ReleaseCopies(c: Counters, x: string, n: nat)
    requires x in c.indeg && n <= c.indeg[x]
    ensures forall y :: y in Copies(x, n) ==> y in c.indeg
    ensures ReleaseAll(c, Copies(x, n)) ==
      if n == 0 then c
      else Counters(c.indeg[x := c.indeg[x] - n], if n == c.indeg[x] then c.ready + [x] else c.ready)
    decreases n
  {
    CopiesMembers(x, n);
    if n > 0 {
      ReleaseCopies(c, x, n - 1);
      assert Copies(x, n)[..|Copies(x, n)| - 1] == Copies(x, n - 1);
      var d := ReleaseAll(c, Copies(x, n - 1));
      assert ReleaseAll(c, Copies(x, n)) == Release(d, x);
      assert d.indeg[x := c.indeg[x] - n] == c.indeg[x := c.indeg[x] - n];
    }
  }

  /** The counters agree with the output: each holds the number of missing entries. */
  ghost predicate Counting(nodes: seq<Node>, indeg: map<string, int>, out: seq<string>) {
    forall i :: 0 <= i < |nodes| ==>
      nodes[i].id in indeg && indeg[nodes[i].id] == Missing(nodes[i].dependsOn, out)
  }

  lemma {:induction false} DependentsKnown(nodes: seq<Node>, v: string, indeg: map<string, int>, out: seq<string>)
    requires Counting(nodes, indeg, out)
    ensures forall x :: x in Dependents(nodes, v) ==> x in indeg && HasId(nodes, x)
    decreases |nodes|
  {
    if nodes != [] {
      var init, last := nodes[..|nodes| - 1], nodes[|nodes| - 1];
      DependentsKnown(init, v, indeg, out);
      CopiesMembers(last.id, Count(last.dependsOn, v));
      forall x | HasId(init, x) ensures HasId(nodes, x) {
        var i :| 0 <= i < |init| && init[i].id == x;
        assert nodes[i].id == x;
      }
    }
  }

  lemma ReleasedByCount(n: Node, out: seq<string>, id: string)
    requires id !in out
    ensures Count(n.dependsOn, id) <= Missing(n.dependsOn, out)
    ensures Released(n, out, id) <==>
      Count(n.dependsOn, id) > 0 && Count(n.dependsOn, id) == Missing(n.dependsOn, out)
  {
    MissingDrops(n.dependsOn, out, id);
    MissingZero(n.dependsOn, out + [id]);
    CountZero(n.dependsOn, id);
  }

  lemma HasIdOfInit(nodes: seq<Node>, x: string)
    requires nodes != []
    ensures HasId(nodes, x) <==> HasId(nodes[..|nodes| - 1], x) || nodes[|nodes| - 1].id == x
  {
    var init := nodes[..|nodes| - 1];
    if HasId(nodes, x) && nodes[|nodes| - 1].id != x {
      var i :| 0 <= i < |nodes| && nodes[i].id == x;
      assert init[i].id == x;
    }
    if HasId(init, x) {
      var i :| 0 <= i < |init| && init[i].id == x;
      assert nodes[i].id == x;
    }
  }

  /** The edges from id to the last node, after those to all the others. */
  lemma ReleaseLast(nodes: seq<Node>, d: Counters, out: seq<string>, id: string)
    requires nodes != [] && DistinctIds(nodes) && id !in out
    requires var init, last := nodes[..|nodes| - 1], nodes[|nodes| - 1];
      && Counting(init, d.indeg, out + [id])
      && last.id in d.indeg && d.indeg[last.id] == Missing(last.dependsOn, out)
    ensures var last := nodes[|nodes| - 1];
      var m := Count(last.dependsOn, id);
      && (forall y :: y in Copies(last.id, m) ==> y in d.indeg)
      && var e := ReleaseAll(d, Copies(last.id, m));
      && Counting(nodes, e.indeg, out + [id])
      && e.ready == d.ready + (if Released(last, out, id) then [last.id] else [])
      && forall x :: x in d.indeg && x != last.id ==> e.indeg[x] == d.indeg[x]
  {
    var init, last := nodes[..|nodes| - 1], nodes[|nodes| - 1];
    var m := Count(last.dependsOn, id);
    ReleasedByCount(last, out, id);
    MissingDrops(last.dependsOn, out, id);
    ReleaseCopies(d, last.id, m);
    var e := ReleaseAll(d, Copies(last.id, m));
    forall i | 0 <= i < |nodes|
      ensures nodes[i].id in e.indeg && e.indeg[nodes[i].id] == Missing(nodes[i].dependsOn, out + [id])
    {
      if i < |init| { assert init[i] == nodes[i]; }
    }
  }

  /**
   Counting down along all edges out of id leaves the counters right for the longer
   output and queues exactly the released tasks, in input order.
   */
  lemma {:induction false} ReleaseDependents(nodes: seq<Node>, c: Counters, out: seq<string>, id: string)
    requires DistinctIds(nodes) && Counting(nodes, c.indeg, out) && id !in out
    ensures forall x :: x in Dependents(nodes, id) ==> x in c.indeg
    ensures var d := ReleaseAll(c, Dependents(nodes, id));
      && Counting(nodes, d.indeg, out + [id])
      && d.ready == c.ready + Fresh(nodes, out, id)
      && forall x :: x in c.indeg && !HasId(nodes, x) ==> d.indeg[x] == c.indeg[x]
    decreases |nodes|
  {
    DependentsKnown(nodes, id, c.indeg, out);
    if nodes != [] {
      var init, last := nodes[..|nodes| - 1], nodes[|nodes| - 1];
      var copies := Copies(last.id, Count(last.dependsOn, id));
      ReleaseDependents(init, c, out, id);
      ReleaseAppend(c, Dependents(init, id), copies);
      var d := ReleaseAll(c, Dependents(init, id));
      forall x { HasIdOfInit(nodes, x); }
      assert !HasId(init, last.id);
      ReleaseLast(nodes, d, out, id);
      ConcatAssociative(c.ready, Fresh(init, out, id), if Released(last, out, id) then [last.id] else []);
    }
  }

  lemma GraphDeps(nodes: seq<Node>, x: string)
    requires DistinctIds(nodes) && HasId(nodes, x)
    ensures x in GraphOf(nodes) && GraphOf(nodes)[x] == DepsOf(nodes, x)
  {
    GraphOfAt(nodes, InputIndex(nodes, x));
  }

  /** The queue never holds more tasks than there are nodes. */
  lemma FrontierFits(nodes: seq<Node>, n: nat)
    requires DistinctIds(nodes)
    ensures var f := Run(nodes, n);
      Sound(nodes, f) && |f.out| + |f.ready| <= |nodes| && NoRepeats(f.out) && NoRepeats(f.out + f.ready)
  {
    var f := Run(nodes, n);
    RunIsSound(nodes, n);
    EmittedIsDistinct(nodes, f.out, f.out + f.ready);
    DistinctFit(nodes, f.out + f.ready);
    forall i, j | 0 <= i < j < |f.out|
      ensures f.out[i] != f.out[j]
    {
      assert (f.out + f.ready)[i] == f.out[i] && (f.out + f.ready)[j] == f.out[j];
    }
  }

  /** Once nothing is ready the frontier no longer moves. */
  lemma {:induction false} RunStays(nodes: seq<Node>, n: nat, k: nat)
    requires Run(nodes, n).ready == [] && n <= k
    ensures Run(nodes, k) == Run(nodes, n)
    decreases k - n
  {
    if n < k {
      RunStays(nodes, n, k - 1);
    }
  }

  /** What one round of the main loop does to the counters, the queue and the output. */
  lemma RoundIsStep(nodes: seq<Node>, indeg: map<string, int>, ready: seq<string>, out: seq<string>)
    requires DistinctIds(nodes) && ready != []
    requires Run(nodes, |out|) == Frontier(ready, out) && Counting(nodes, indeg, out)
    ensures |out| < |nodes|
    ensures var id := ready[0]; var children := Dependents(nodes, id);
      && (forall x :: x in children ==> x in indeg)
      && var d := ReleaseAll(Counters(indeg, ready[1..]), children);
      && Counting(nodes, d.indeg, out + [id])
      && Run(nodes, |out| + 1) == Frontier(d.ready, out + [id])
  {
    FrontierFits(nodes, |out|);
    FreshComesLast(nodes, Frontier(ready, out), ready[0]);
    ReleaseDependents(nodes, Counters(indeg, ready[1..]), out, ready[0]);
  }

  method ReleaseChildren(indeg0: map<string, int>, ready0: seq<string>, children: seq<string>)
    returns (indeg: map<string, int>, ready: seq<string>)
    requires forall x :: x in children ==> x in indeg0
    ensures Counters(indeg, ready) == ReleaseAll(Counters(indeg0, ready0), children)
  {
    indeg, ready := indeg0, ready0;
    for k := 0 to |children|
      invariant Counters(indeg, ready) == ReleaseAll(Counters(indeg0, ready0), children[..k])
    {
      assert children[..k + 1][..k] == children[..k];
      var child := children[k];
      assert child in children;
      indeg := indeg[child := indeg[child] - 1];
      if indeg[child] == 0 {
        ready := ready + [child];
      }
    }
    assert children[..|children|] == children;
  }

  method InDegrees(nodes: seq<Node>) returns (indeg: map<string, int>)
    requires DistinctIds(nodes)
    ensures Counting(nodes, indeg, [])
  {
    indeg := map[];
    for i := 0 to |nodes|
      invariant Counting(nodes[..i], indeg, [])
    {
      MissingNothingOut(nodes[i].dependsOn);
      indeg := indeg[nodes[i].id := |nodes[i].dependsOn|];
    }
    assert nodes[..|nodes|] == nodes;
  }

  /** The in-degree algorithm computes the set-based order, dangling dependencies included; None is ErrCycle. */
  method Sort(nodes: seq<Node>) returns (r: Option<seq<string>>)
    requires DistinctIds(nodes)
    ensures r == Order(nodes)
  {
    var indeg := InDegrees(nodes);
    var dependents := BuildDependents(nodes);
    var ready := SeedReady(nodes, indeg);
    var out: seq<string> := [];
    while |ready| > 0
      invariant Run(nodes, |out|) == Frontier(ready, out)
      invariant Counting(nodes, indeg, out)
      decreases |nodes| - |out|
    {
      RoundIsStep(nodes, indeg, ready, out);
      var id := ready[0];
      assert Get(dependents, id) == Dependents(nodes, id);
      ready := ready[1..];
      indeg, ready := ReleaseChildren(indeg, ready, Get(dependents, id));
      out := out + [id];
    }
    FrontierFits(nodes, |out|);
    RunStays(nodes, |out|, |nodes|);
    if |out| != |nodes| {
      return None;
    }
    return Some(out);
  }

  /** The roots seed the queue in input order. */
  method SeedReady(nodes: seq<Node>, indeg: map<string, int>) returns (ready: seq<string>)
    requires Counting(nodes, indeg, [])
    ensures ready == Seeds(nodes)
  {
    ready := [];
    for i := 0 to |nodes|
      invariant ready == Seeds(nodes[..i])
    {
      MissingNothingOut(nodes[i].dependsOn);
      assert nodes[..i + 1][..i] == nodes[..i];
      if indeg[nodes[i].id] == 0 {
        ready := ready + [nodes[i].id];
      }
    }
    assert nodes[..|nodes|] == nodes;
  }

  /** A sort that succeeds lists every task once, dependencies first. */
  lemma OrderIsTopological(nodes: seq<Node>)
    requires DistinctIds(nodes) && Order(nodes).Some?
    ensures IsTopological(GraphOf(nodes), Order(nodes).value)
    ensures |Order(nodes).value| == |nodes|
  {
    var out := Order(nodes).value;
    FrontierFits(nodes, |nodes|);
    DistinctFit(nodes, out);
    GraphOfKeys(nodes);
    forall i | 0 <= i < |out|
      ensures out[i] in GraphOf(nodes) && forall d :: d in GraphOf(nodes)[out[i]] ==> d in out[..i]
    {
      assert HasId(nodes, out[i]);
      GraphDeps(nodes, out[i]);
      assert AllIn(DepsOf(nodes, out[i]), out[..i]);
    }
  }

  /** A sort that fails has left over tasks that wait for each other. */
  lemma FailureMeansCycle(nodes: seq<Node>)
    requires DistinctIds(nodes) && KnownDeps(nodes) && Order(nodes) == None
    ensures !Acyclic(GraphOf(nodes))
  {
    var g, f := GraphOf(nodes), Run(nodes, |nodes|);
    FrontierFits(nodes, |nodes|);
    RunProgress(nodes, |nodes|);
    assert f.ready == [];
    assert f.out + f.ready == f.out;
    var stuck := set x | x in g && x !in f.out;
    GraphOfKeys(nodes);
    forall u | u in stuck
      ensures DependsInto(g, stuck, u)
    {
      GraphDeps(nodes, u);
      var d :| d in DepsOf(nodes, u) && d !in f.out;
      assert HasId(nodes, d);
      assert Edge(g, u, d);
    }
    SomeoneIsStuck(nodes, f.out);
    var u :| u in g && u !in f.out;
    assert u in stuck;
    NoSinkMeansCycle(g, stuck, [u], stuck);
  }

  lemma SomeoneIsStuck(nodes: seq<Node>, out: seq<string>)
    requires DistinctIds(nodes) && |out| < |nodes|
    ensures exists x :: x in GraphOf(nodes) && x !in out
  {
    var ids := seq(|nodes|, i requires 0 <= i < |nodes| => nodes[i].id);
    SeqSetSize(ids);
    var all, seen := set x | x in ids, set x | x in out;
    SetOfSeqFits(out);
    if all <= seen {
      SubsetSize(all, seen);
      assert false;
    }
    var x :| x in all && x !in seen;
    GraphOfKeys(nodes);
    var i :| 0 <= i < |ids| && ids[i] == x;
    assert nodes[i].id == x;
  }

  lemma {:induction false} SetOfSeqFits(s: seq<string>)
    ensures |set x | x in s| <= |s|
    decreases |s|
  {
    if s != [] {
      var init, last := s[..|s| - 1], s[|s| - 1];
      SetOfSeqFits(init);
      assert (set x | x in s) == (set x | x in init) + {last};
    }
  }

  /** Tasks that wait for an unknown one are never output. */
  lemma SuccessMeansKnown(nodes: seq<Node>)
    requires DistinctIds(nodes) && Order(nodes).Some?
    ensures KnownDeps(nodes)
  {
    var out := Order(nodes).value;
    FrontierFits(nodes, |nodes|);
    DistinctFit(nodes, out);
    forall i, d | 0 <= i < |nodes| && d in nodes[i].dependsOn ensures HasId(nodes, d) {
      InputIndexIs(nodes, i);
      var k :| 0 <= k < |out| && out[k] == nodes[i].id;
      assert AllIn(DepsOf(nodes, out[k]), out[..k]);
      assert d in out;
    }
  }

  /**
   TopoSort succeeds exactly when every dependency is known and there is no cycle; on the
   other plans it reports a cycle, although there may only be an unknown dependency.
   */
  lemma SortsExactlyAcyclic(nodes: seq<Node>)
    requires DistinctIds(nodes)
    ensures Order(nodes).Some? <==> KnownDeps(nodes) && Acyclic(GraphOf(nodes))
  {
    if Order(nodes).Some? {
      SuccessMeansKnown(nodes);
      OrderIsTopological(nodes);
      TopologicalIsAcyclic(GraphOf(nodes), Order(nodes).value);
    } else if KnownDeps(nodes) {
      FailureMeansCycle(nodes);
    }
  }

  /**
   The emission order: a task comes earlier when its last dependency was output
   earlier, and tasks with the same last dependency keep their input order.
   */
  lemma EmissionOrder(nodes: seq<Node>)
    requires DistinctIds(nodes) && Order(nodes).Some?
    ensures var out := Order(nodes).value; Known(nodes, out) && Emitted(nodes, out, out)
  {
    var f := Run(nodes, |nodes|);
    FrontierFits(nodes, |nodes|);
    assert f.ready == [];
    assert f.out + f.ready == f.out;
  }

  /** Two roots a, b and two leaves c (after b) and d (after a), given in the order a, b, c, d. */
  const CROSSED: seq<Node> := [Node("a", "p", []), Node("b", "p", []), Node("c", "p", ["b"]), Node("d", "p", ["a"])]

  function If(b: bool, x: string): seq<string> { if b then [x] else [] }

  lemma PickFour(a: Node, b: Node, c: Node, d: Node, p: Node -> bool)
    ensures Pick([a, b, c, d], p) == If(p(a), a.id) + If(p(b), b.id) + If(p(c), c.id) + If(p(d), d.id)
  {
    assert [a, b, c, d][..3] == [a, b, c] && [a, b, c][..2] == [a, b] && [a, b][..1] == [a] && [a][..0] == [];
    assert Pick([a], p) == If(p(a), a.id);
    assert Pick([a, b], p) == If(p(a), a.id) + If(p(b), b.id);
    assert Pick([a, b, c], p) == If(p(a), a.id) + If(p(b), b.id) + If(p(c), c.id);
  }

  lemma CrossedStep(out: seq<string>, id: string)
    ensures Fresh(CROSSED, out, id) ==
      If(id == "b", "c") + If(id == "a", "d")
  {
    PickFour(CROSSED[0], CROSSED[1], CROSSED[2], CROSSED[3], (n: Node) => Released(n, out, id));
    assert id in CROSSED[2].dependsOn <==> id == "b";
    assert id in CROSSED[3].dependsOn <==> id == "a";
  }

  lemma CrossedRun(n: nat, ready: seq<string>, out: seq<string>, t: Frontier)
    requires Run(CROSSED, n) == Frontier(ready, out) && ready != []
    requires t == Frontier(ready[1..] + (If(ready[0] == "b", "c") + If(ready[0] == "a", "d")), out + [ready[0]])
    ensures Run(CROSSED, n + 1) == t
  {
    CrossedStep(out, ready[0]);
  }

  lemma CrossedStart()
    ensures WellFormed(CROSSED) && Run(CROSSED, 0) == Frontier(["a", "b"], [])
  {
    assert CROSSED[0].id == "a" && CROSSED[1].id == "b";
    PickFour(CROSSED[0], CROSSED[1], CROSSED[2], CROSSED[3], (n: Node) => n.dependsOn == []);
  }

  /**
   The documentation calls the sort stable on input order within each level. It is
   not: the leaves c and d, both one step from a root, leave in the order d, c.
   */
  lemma NotStableWithinLevel()
    ensures WellFormed(CROSSED) && Order(CROSSED) == Some(["a", "b", "d", "c"])
  {
    CrossedStart();
    CrossedRun(0, ["a", "b"], [], Frontier(["b", "d"], ["a"]));
    CrossedRun(1, ["b", "d"], ["a"], Frontier(["d", "c"], ["a", "b"]));
    CrossedRun(2, ["d", "c"], ["a", "b"], Frontier(["c"], ["a", "b", "d"]));
    CrossedRun(3, ["c"], ["a", "b", "d"], Frontier([], ["a", "b", "d", "c"]));
    var end := Run(CROSSED, 3 + 1);
    assert |CROSSED| == 4 && end.out == ["a", "b", "d", "c"];
  }
}
