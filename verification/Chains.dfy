/** Chain decomposition of internal/orchestrator/dag_run.go for fork-only plans. */
module Chains {
  import opened Common
  import opened Graph
  import opened Plan
  import opened Validate
  import opened Kahn
  import opened TopoSort

  ghost function IndexIn(order: seq<string>, x: string): nat
    requires x in order
    ensures IndexIn(order, x) < |order| && order[IndexIn(order, x)] == x
  {
    var i :| 0 <= i < |order| && order[i] == x;
    i
  }

  /** A fork-only plan together with a dependencies-first listing of it. */
  ghost predicate Forest(nodes: seq<Node>, order: seq<string>) {
    && DistinctIds(nodes) && ForkOnly(nodes)
    && NoRepeats(order)
    && (forall x :: x in order <==> HasId(nodes, x))
    && Ordered(nodes, order)
  }

  /** Every plan the executor accepts is one. */
  lemma AcceptedPlanIsForest(nodes: seq<Node>)
    requires ValidDAG(nodes) && ForkOnly(nodes)
    ensures Order(nodes).Some? && Forest(nodes, Order(nodes).value)
  {
    SortsExactlyAcyclic(nodes);
    OrderIsTopological(nodes);
    FrontierFits(nodes, |nodes|);
    GraphOfKeys(nodes);
  }

  /** The tasks whose dependency is v, in input order. */
  function Children(nodes: seq<Node>, v: string): seq<string> {
    Pick(nodes, (n: Node) => n.dependsOn == [v])
  }

  lemma {:induction false} ChildrenAreDependents(nodes: seq<Node>, v: string)
    requires ForkOnly(nodes)
    ensures Dependents(nodes, v) == Children(nodes, v)
    decreases |nodes|
  {
    if nodes != [] {
      var last := nodes[|nodes| - 1];
      ChildrenAreDependents(nodes[..|nodes| - 1], v);
      if last.dependsOn != [] {
        assert last.dependsOn == [last.dependsOn[0]] && last.dependsOn[..0] == [];
        assert Count(last.dependsOn, v) == if last.dependsOn[0] == v then 1 else 0;
        assert Copies(last.id, 1) == Copies(last.id, 0) + [last.id] == [last.id];
      }
    }
  }

  lemma ChildFacts(nodes: seq<Node>, order: seq<string>, v: string, c: string)
    requires Forest(nodes, order) && v in order && c in Children(nodes, v)
    ensures c in order && DepsOf(nodes, c) == [v] && IndexIn(order, v) < IndexIn(order, c)
  {
    var p := (n: Node) => n.dependsOn == [v];
    PickIncreasing(nodes, p);
    PickedExactly(nodes, p, c);
    DependencyIsEarlier(nodes, order, c);
  }

  lemma DependencyIsEarlier(nodes: seq<Node>, order: seq<string>, x: string)
    requires Forest(nodes, order) && x in order && DepsOf(nodes, x) != []
    ensures var d := DepsOf(nodes, x)[0]; DepsOf(nodes, x) == [d] && d in order && IndexIn(order, d) < IndexIn(order, x)
  {
    var i, d := IndexIn(order, x), DepsOf(nodes, x)[0];
    assert AllIn(DepsOf(nodes, order[i]), order[..i]);
    assert d in order[..i];
  }

  /** A task and everything below it, the way the recursive visit appends them. */
  ghost function Subtree(nodes: seq<Node>, order: seq<string>, id: string): seq<string>
    requires Forest(nodes, order) && id in order
    decreases |order| - IndexIn(order, id), |Children(nodes, id)| + 1
  {
    [id] + Below(nodes, order, id, |Children(nodes, id)|)
  }

  /** The subtrees of the first k children, one after the other. */
  ghost function Below(nodes: seq<Node>, order: seq<string>, id: string, k: nat): seq<string>
    requires Forest(nodes, order) && id in order && k <= |Children(nodes, id)|
    decreases |order| - IndexIn(order, id), k
  {
    if k == 0 then []
    else
      var c := Children(nodes, id)[k - 1];
      ChildFacts(nodes, order, id, c);
      Below(nodes, order, id, k - 1) + Subtree(nodes, order, c)
  }

  /** a is x or lies above it. */
  ghost predicate Above(nodes: seq<Node>, order: seq<string>, a: string, x: string)
    requires Forest(nodes, order) && x in order
    decreases IndexIn(order, x)
  {
    a == x || (DepsOf(nodes, x) != [] && (
      DependencyIsEarlier(nodes, order, x);
      Above(nodes, order, a, DepsOf(nodes, x)[0])))
  }

  lemma {:induction false} AboveIsEarlier(nodes: seq<Node>, order: seq<string>, a: string, x: string)
    requires Forest(nodes, order) && x in order && Above(nodes, order, a, x)
    ensures a in order && IndexIn(order, a) <= IndexIn(order, x)
    decreases IndexIn(order, x)
  {
    if a != x {
      DependencyIsEarlier(nodes, order, x);
      AboveIsEarlier(nodes, order, a, DepsOf(nodes, x)[0]);
    }
  }

  /** Two tasks above the same one are comparable: the way up is a single line. */
  lemma {:induction false} AboveIsLinear(nodes: seq<Node>, order: seq<string>, a: string, b: string, x: string)
    requires Forest(nodes, order) && x in order && Above(nodes, order, a, x) && Above(nodes, order, b, x)
    ensures a in order && b in order
    ensures Above(nodes, order, a, b) || Above(nodes, order, b, a)
    decreases IndexIn(order, x)
  {
    AboveIsEarlier(nodes, order, a, x);
    AboveIsEarlier(nodes, order, b, x);
    if a != x && b != x {
      DependencyIsEarlier(nodes, order, x);
      AboveIsLinear(nodes, order, a, b, DepsOf(nodes, x)[0]);
    }
  }

  /** Siblings, and distinct roots, have nothing below them in common. */
  lemma SiblingsAreDisjoint(nodes: seq<Node>, order: seq<string>, a: string, b: string, x: string)
    requires Forest(nodes, order) && x in order && Above(nodes, order, a, x) && Above(nodes, order, b, x)
    requires a in order && b in order && DepsOf(nodes, a) == DepsOf(nodes, b)
    ensures a == b
  {
    AboveIsLinear(nodes, order, a, b, x);
    var lo, hi := if Above(nodes, order, a, b) then a else b, if Above(nodes, order, a, b) then b else a;
    if lo != hi {
      DependencyIsEarlier(nodes, order, hi);
      DependencyIsEarlier(nodes, order, lo);
      AboveIsEarlier(nodes, order, lo, DepsOf(nodes, hi)[0]);
    }
  }

  /** Below a task means: the task itself or below one of its children. */
  lemma {:induction false} AboveThroughChild(nodes: seq<Node>, order: seq<string>, a: string, x: string)
    requires Forest(nodes, order) && x in order && a in order && a != x
    ensures Above(nodes, order, a, x) <==> exists c :: c in Children(nodes, a) && Above(nodes, order, c, x)
    decreases IndexIn(order, x)
  {
    if DepsOf(nodes, x) == [] {
      forall c | c in Children(nodes, a) ensures !Above(nodes, order, c, x) {
        ChildFacts(nodes, order, a, c);
      }
    } else {
      DependencyIsEarlier(nodes, order, x);
      var d := DepsOf(nodes, x)[0];
      PickedExactly(nodes, (n: Node) => n.dependsOn == [a], x);
      if d == a {
        assert x in Children(nodes, a);
        assert Above(nodes, order, x, x);
      } else {
        AboveThroughChild(nodes, order, a, d);
        forall c | c in Children(nodes, a)
          ensures Above(nodes, order, c, x) <==> Above(nodes, order, c, d)
        {
          ChildFacts(nodes, order, a, c);
        }
      }
    }
  }

  lemma {:induction false} CountConcat(a: seq<string>, b: seq<string>, x: string)
    ensures Count(a + b, x) == Count(a, x) + Count(b, x)
    decreases |b|
  {
    if b == [] {
      assert a + b == a;
    } else {
      CountConcat(a, b[..|b| - 1], x);
      assert (a + b)[..|a + b| - 1] == a + b[..|b| - 1];
    }
  }

  ghost predicate AboveSome(nodes: seq<Node>, order: seq<string>, cs: seq<string>, x: string)
    requires Forest(nodes, order) && x in order
  {
    exists c :: c in cs && Above(nodes, order, c, x)
  }

  function Unit(b: bool): nat { if b then 1 else 0 }

  /** The visit of a task lists exactly the tasks below it, each once. */
  lemma {:induction false} SubtreeCount(nodes: seq<Node>, order: seq<string>, id: string, x: string)
    requires Forest(nodes, order) && id in order && x in order
    ensures Count(Subtree(nodes, order, id), x) == Unit(Above(nodes, order, id, x))
    decreases |order| - IndexIn(order, id), |Children(nodes, id)| + 1
  {
    var cs := Children(nodes, id);
    var below := Below(nodes, order, id, |cs|);
    BelowCount(nodes, order, id, |cs|, x);
    CountConcat([id], below, x);
    assert Count([id], x) == Unit(id == x) by { assert [id][..0] == []; }
    assert cs[..|cs|] == cs;
    if id == x {
      forall c | c in cs ensures !Above(nodes, order, c, x) {
        ChildFacts(nodes, order, id, c);
        if Above(nodes, order, c, x) { AboveIsEarlier(nodes, order, c, x); }
      }
    } else {
      AboveThroughChild(nodes, order, id, x);
    }
  }

  lemma {:induction false} BelowCount(nodes: seq<Node>, order: seq<string>, id: string, k: nat, x: string)
    requires Forest(nodes, order) && id in order && x in order && k <= |Children(nodes, id)|
    ensures Count(Below(nodes, order, id, k), x) == Unit(AboveSome(nodes, order, Children(nodes, id)[..k], x))
    decreases |order| - IndexIn(order, id), k
  {
    if k > 0 {
      var cs := Children(nodes, id);
      var c := cs[k - 1];
      ChildFacts(nodes, order, id, c);
      BelowCount(nodes, order, id, k - 1, x);
      SubtreeCount(nodes, order, c, x);
      CountConcat(Below(nodes, order, id, k - 1), Subtree(nodes, order, c), x);
      SomeOfOneMore(nodes, order, cs, k, x);
      if AboveSome(nodes, order, cs[..k - 1], x) && Above(nodes, order, c, x) {
        var b :| b in cs[..k - 1] && Above(nodes, order, b, x);
        ChildFacts(nodes, order, id, b);
        SiblingsAreDisjoint(nodes, order, b, c, x);
        PickHasNoRepeats(nodes, (n: Node) => n.dependsOn == [id], k - 1);
        assert false;
      }
    }
  }

  lemma SomeOfOneMore(nodes: seq<Node>, order: seq<string>, cs: seq<string>, k: nat, x: string)
    requires Forest(nodes, order) && x in order && 0 < k <= |cs|
    ensures AboveSome(nodes, order, cs[..k], x) <==>
      AboveSome(nodes, order, cs[..k - 1], x) || Above(nodes, order, cs[k - 1], x)
  {
    assert cs[..k] == cs[..k - 1] + [cs[k - 1]];
  }

  lemma PickHasNoRepeats(nodes: seq<Node>, p: Node -> bool, k: nat)
    requires DistinctIds(nodes) && k < |Pick(nodes, p)|
    ensures Pick(nodes, p)[k] !in Pick(nodes, p)[..k]
  {
    PickIncreasing(nodes, p);
  }

  /** The chains of the first k roots, one after the other. */
  ghost function AllChains(nodes: seq<Node>, order: seq<string>, k: nat): seq<string>
    requires Forest(nodes, order) && k <= |Seeds(nodes)|
    decreases k
  {
    if k == 0 then []
    else
      RootFacts(nodes, order, Seeds(nodes)[k - 1]);
      AllChains(nodes, order, k - 1) + Subtree(nodes, order, Seeds(nodes)[k - 1])
  }

  lemma RootFacts(nodes: seq<Node>, order: seq<string>, r: string)
    requires Forest(nodes, order) && r in Seeds(nodes)
    ensures r in order && DepsOf(nodes, r) == []
  {
    var p := (n: Node) => n.dependsOn == [];
    PickIncreasing(nodes, p);
    PickedExactly(nodes, p, r);
  }

  lemma {:induction false} ChainsCount(nodes: seq<Node>, order: seq<string>, k: nat, x: string)
    requires Forest(nodes, order) && x in order && k <= |Seeds(nodes)|
    ensures Count(AllChains(nodes, order, k), x) == Unit(AboveSome(nodes, order, Seeds(nodes)[..k], x))
    decreases k
  {
    if k > 0 {
      var rs := Seeds(nodes);
      var r := rs[k - 1];
      RootFacts(nodes, order, r);
      ChainsCount(nodes, order, k - 1, x);
      SubtreeCount(nodes, order, r, x);
      CountConcat(AllChains(nodes, order, k - 1), Subtree(nodes, order, r), x);
      SomeOfOneMore(nodes, order, rs, k, x);
      if AboveSome(nodes, order, rs[..k - 1], x) && Above(nodes, order, r, x) {
        var b :| b in rs[..k - 1] && Above(nodes, order, b, x);
        RootFacts(nodes, order, b);
        SiblingsAreDisjoint(nodes, order, b, r, x);
        PickHasNoRepeats(nodes, (n: Node) => n.dependsOn == [], k - 1);
        assert false;
      }
    }
  }

  /** Every task has a root above it. */
  lemma {:induction false} SomeRootAbove(nodes: seq<Node>, order: seq<string>, x: string)
    requires Forest(nodes, order) && x in order
    ensures AboveSome(nodes, order, Seeds(nodes), x)
    decreases IndexIn(order, x)
  {
    if DepsOf(nodes, x) == [] {
      SeedsExactly(nodes, x);
      assert Above(nodes, order, x, x);
    } else {
      DependencyIsEarlier(nodes, order, x);
      SomeRootAbove(nodes, order, DepsOf(nodes, x)[0]);
      var r :| r in Seeds(nodes) && Above(nodes, order, r, DepsOf(nodes, x)[0]);
      assert Above(nodes, order, r, x);
    }
  }

  /** The chains partition the plan: every task is in exactly one place of exactly one chain. */
  lemma ChainsPartition(nodes: seq<Node>, order: seq<string>, x: string)
    requires Forest(nodes, order) && HasId(nodes, x)
    ensures Count(AllChains(nodes, order, |Seeds(nodes)|), x) == 1
  {
    ChainsCount(nodes, order, |Seeds(nodes)|, x);
    SomeRootAbove(nodes, order, x);
    assert Seeds(nodes)[..|Seeds(nodes)|] == Seeds(nodes);
  }

  /** A task is in the chain of a root exactly when that root lies above it. */
  lemma ChainMembers(nodes: seq<Node>, order: seq<string>, r: string, x: string)
    requires Forest(nodes, order) && r in order && x in order
    ensures x in Subtree(nodes, order, r) <==> Above(nodes, order, r, x)
  {
    SubtreeCount(nodes, order, r, x);
    CountZero(Subtree(nodes, order, r), x);
  }

  /** Position 0 of a chain is its root; any other holds a task whose one dependency is earlier in the chain. */
  ghost predicate FollowsDependency(nodes: seq<Node>, s: seq<string>, root: string, j: nat)
    requires j < |s|
  {
    HasId(nodes, s[j]) &&
    if j == 0 then s[0] == root else exists i :: 0 <= i < j && DepsOf(nodes, s[j]) == [s[i]]
  }

  lemma {:induction false} SubtreeFollows(nodes: seq<Node>, order: seq<string>, id: string, j: nat)
    requires Forest(nodes, order) && id in order && j < |Subtree(nodes, order, id)|
    ensures FollowsDependency(nodes, Subtree(nodes, order, id), id, j)
    decreases |order| - IndexIn(order, id), |Children(nodes, id)| + 1
  {
    if j > 0 {
      BelowFollows(nodes, order, id, |Children(nodes, id)|, j - 1);
    }
  }

  lemma {:induction false} BelowFollows(nodes: seq<Node>, order: seq<string>, id: string, k: nat, j: nat)
    requires Forest(nodes, order) && id in order && k <= |Children(nodes, id)| && j < |Below(nodes, order, id, k)|
    ensures FollowsDependency(nodes, [id] + Below(nodes, order, id, k), id, j + 1)
    decreases |order| - IndexIn(order, id), k
  {
    var c := Children(nodes, id)[k - 1];
    ChildFacts(nodes, order, id, c);
    var front, sub := Below(nodes, order, id, k - 1), Subtree(nodes, order, c);
    var s, t := [id] + (front + sub), [id] + front;
    if j < |front| {
      BelowFollows(nodes, order, id, k - 1, j);
      assert forall i :: 0 <= i <= |front| ==> s[i] == t[i];
    } else {
      var m := j - |front|;
      SubtreeFollows(nodes, order, c, m);
      assert s[j + 1] == sub[m] && s[0] == id;
      assert forall i :: 0 <= i < m ==> s[1 + |front| + i] == sub[i];
      if m > 0 {
        var i :| 0 <= i < m && DepsOf(nodes, sub[m]) == [sub[i]];
        assert DepsOf(nodes, s[j + 1]) == [s[1 + |front| + i]];
      }
    }
  }

  /** The nodes with these ids. */
  ghost function NodesOf(nodes: seq<Node>, ids: seq<string>): (r: seq<Node>)
    requires Known(nodes, ids)
    ensures |r| == |ids| && forall i :: 0 <= i < |ids| ==> r[i].id == ids[i]
  {
    seq(|ids|, i requires 0 <= i < |ids| => nodes[InputIndex(nodes, ids[i])])
  }

  lemma NodesOfAppend(nodes: seq<Node>, a: seq<string>, b: seq<string>)
    requires Known(nodes, a) && Known(nodes, b)
    ensures Known(nodes, a + b) && NodesOf(nodes, a + b) == NodesOf(nodes, a) + NodesOf(nodes, b)
  {
  }

  lemma SubtreeKnown(nodes: seq<Node>, order: seq<string>, id: string)
    requires Forest(nodes, order) && id in order
    ensures Known(nodes, Subtree(nodes, order, id))
    ensures forall k :: 0 <= k <= |Children(nodes, id)| ==> Known(nodes, Below(nodes, order, id, k))
  {
    var s := Subtree(nodes, order, id);
    forall x | x in s ensures HasId(nodes, x) {
      var j :| 0 <= j < |s| && s[j] == x;
      SubtreeFollows(nodes, order, id, j);
    }
    forall k | 0 <= k <= |Children(nodes, id)|
      ensures Known(nodes, Below(nodes, order, id, k))
    {
      var b := Below(nodes, order, id, k);
      forall x | x in b ensures HasId(nodes, x) {
        var j :| 0 <= j < |b| && b[j] == x;
        BelowFollows(nodes, order, id, k, j);
        assert ([id] + b)[j + 1] == x;
      }
    }
  }

  /** Visiting the next child appends its subtree to those of the earlier ones. */
  lemma VisitsNext(plan: seq<Node>, order: seq<string>, id: string, k: nat, first: seq<Node>)
    requires Forest(plan, order) && id in order && k < |Children(plan, id)|
    ensures var c := Children(plan, id)[k];
      && c in order && IndexIn(order, id) < IndexIn(order, c)
      && Known(plan, Subtree(plan, order, c))
      && Known(plan, Below(plan, order, id, k)) && Known(plan, Below(plan, order, id, k + 1))
      && first + NodesOf(plan, Below(plan, order, id, k)) + NodesOf(plan, Subtree(plan, order, c))
         == first + NodesOf(plan, Below(plan, order, id, k + 1))
  {
    var c := Children(plan, id)[k];
    var below := Below(plan, order, id, k);
    SubtreeKnown(plan, order, id);
    ChildFacts(plan, order, id, c);
    SubtreeKnown(plan, order, c);
    NodesOfAppend(plan, below, Subtree(plan, order, c));
    ConcatAssociative(first, NodesOf(plan, below), NodesOf(plan, Subtree(plan, order, c)));
  }

  /** The task and then all its children's subtrees are its own subtree. */
  lemma VisitsAll(plan: seq<Node>, order: seq<string>, id: string, before: seq<Node>)
    requires Forest(plan, order) && id in order && HasId(plan, id)
    ensures var n := |Children(plan, id)|;
      && Known(plan, Below(plan, order, id, n)) && Known(plan, Subtree(plan, order, id))
      && before + [plan[InputIndex(plan, id)]] + NodesOf(plan, Below(plan, order, id, n))
         == before + NodesOf(plan, Subtree(plan, order, id))
  {
    var below, self := Below(plan, order, id, |Children(plan, id)|), plan[InputIndex(plan, id)];
    SubtreeKnown(plan, order, id);
    NodesOfAppend(plan, [id], below);
    assert NodesOf(plan, [id]) == [self];
    ConcatAssociative(before, [self], NodesOf(plan, below));
  }

  /** The closure of decomposeChains that appends a task and then visits its children. */
  class ChainBuilder {
    const plan: seq<Node>
    const children: map<string, seq<string>>
    const byID: map<string, Node>
    ghost const order: seq<string>
    var nodes: seq<Node>

    constructor (plan: seq<Node>, children: map<string, seq<string>>, byID: map<string, Node>, ghost order: seq<string>)
      ensures this.plan == plan && this.children == children && this.byID == byID && this.order == order
      ensures nodes == []
    {
      this.plan, this.children, this.byID, this.order := plan, children, byID, order;
      nodes := [];
    }

    ghost predicate Valid() {
      && Forest(plan, order)
      && Complete(children, plan)
      && forall x :: HasId(plan, x) ==> x in byID && byID[x] == plan[InputIndex(plan, x)]
    }

    method Visit(id: string)
      requires Valid() && id in order
      modifies this
      ensures Known(plan, Subtree(plan, order, id))
      ensures nodes == old(nodes) + NodesOf(plan, Subtree(plan, order, id))
      decreases |order| - IndexIn(order, id)
    {
      SubtreeKnown(plan, order, id);
      ChildrenAreDependents(plan, id);
      ghost var cs := Children(plan, id);
      nodes := nodes + [byID[id]];
      ghost var first := nodes;
      var list := Get(children, id);
      assert list == cs;
      assert NodesOf(plan, Below(plan, order, id, 0)) == [];
      for k := 0 to |list|
        invariant nodes == first + NodesOf(plan, Below(plan, order, id, k))
      {
        VisitsNext(plan, order, id, k, first);
        Visit(list[k]);
      }
      VisitsAll(plan, order, id, old(nodes));
    }
  }

  datatype ChainSpec = ChainSpec(index: nat, root: string, nodes: seq<Node>, agent: Option<string>)

  /** Round-robin over the agents when there is more than one. */
  function AssignedAgent(agents: seq<string>, i: nat): Option<string> {
    if |agents| > 1 then Some(agents[i % |agents|]) else None
  }

  method BuildByID(plan: seq<Node>) returns (byID: map<string, Node>)
    requires DistinctIds(plan)
    ensures forall x :: HasId(plan, x) ==> x in byID && byID[x] == plan[InputIndex(plan, x)]
  {
    byID := map[];
    for i := 0 to |plan|
      invariant forall j :: 0 <= j < i ==> plan[j].id in byID && byID[plan[j].id] == plan[j]
    {
      byID := byID[plan[i].id := plan[i]];
    }
  }

  /** Chain i of an accepted plan is the visit of root i, and carries the i-th agent in rotation. */
  ghost predicate IsDecomposition(plan: seq<Node>, order: seq<string>, agents: seq<string>, specs: seq<ChainSpec>)
    requires Forest(plan, order)
  {
    && |specs| == |Seeds(plan)|
    && forall i :: 0 <= i < |specs| ==>
         && Seeds(plan)[i] in order && Known(plan, Subtree(plan, order, Seeds(plan)[i]))
         && specs[i] == ChainSpec(i, Seeds(plan)[i], NodesOf(plan, Subtree(plan, order, Seeds(plan)[i])),
                                  AssignedAgent(agents, i))
  }

  /** Terminates on every accepted plan with one chain per root. */
  method DecomposeChains(plan: seq<Node>, agents: seq<string>) returns (specs: seq<ChainSpec>)
    requires ValidDAG(plan) && ForkOnly(plan)
    ensures Order(plan).Some? && Forest(plan, Order(plan).value)
    ensures IsDecomposition(plan, Order(plan).value, agents, specs)
  {
    AcceptedPlanIsForest(plan);
    ghost var order := Order(plan).value;
    var roots := Roots(plan);
    var children := BuildDependents(plan);
    var byID := BuildByID(plan);
    specs := [];
    for i := 0 to |roots|
      invariant |specs| == i
      invariant forall k :: 0 <= k < i ==>
        && Seeds(plan)[k] in order && Known(plan, Subtree(plan, order, Seeds(plan)[k]))
        && specs[k] == ChainSpec(k, Seeds(plan)[k], NodesOf(plan, Subtree(plan, order, Seeds(plan)[k])),
                                 AssignedAgent(agents, k))
    {
      RootFacts(plan, order, roots[i]);
      var builder := new ChainBuilder(plan, children, byID, order);
      builder.Visit(roots[i]);
      assert builder.nodes == NodesOf(plan, Subtree(plan, order, roots[i]));
      specs := specs + [ChainSpec(i, roots[i], builder.nodes, AssignedAgent(agents, i))];
    }
  }

  /**
   With several agents the first chains get one each, in order, and after the last agent
   it is the first one's turn again; with fewer the chains are left to the default.
   */
  lemma AgentsRotate(plan: seq<Node>, order: seq<string>, agents: seq<string>, specs: seq<ChainSpec>, i: nat)
    requires Forest(plan, order) && IsDecomposition(plan, order, agents, specs) && i < |specs|
    ensures specs[i].index == i && specs[i].root == Seeds(plan)[i]
    ensures specs[i].agent ==
      if |agents| <= 1 then None
      else if i < |agents| then Some(agents[i])
      else specs[i - |agents|].agent
  {
    if i >= |agents| > 1 {
      NextRound(i, |agents|);
    }
  }

  lemma NextRound(i: nat, n: nat)
    requires i >= n > 0
    ensures i % n == (i - n) % n
  {
    var j := i - n;
    var d := i / n - 1 - j / n;
    assert n * (i / n) + i % n == n + (n * (j / n) + j % n);
    assert n * d == j % n - i % n;
    MultipleIsFar(n, d);
  }

  /** The difference of two remainders is no multiple but zero. */
  lemma MultipleIsFar(n: int, d: int)
    requires n > 0
    ensures d != 0 ==> n * d >= n || n * d <= -n
  {
  }

  /** The ids of all chains, one chain after the other. */
  function ChainIds(specs: seq<ChainSpec>): seq<string>
    decreases |specs|
  {
    if specs == [] then []
    else ChainIds(specs[..|specs| - 1]) + NodeIds(specs[|specs| - 1].nodes)
  }

  function NodeIds(nodes: seq<Node>): seq<string> {
    seq(|nodes|, i requires 0 <= i < |nodes| => nodes[i].id)
  }

  lemma {:induction false} ChainIdsAre(plan: seq<Node>, order: seq<string>, agents: seq<string>,
                                       specs: seq<ChainSpec>, k: nat)
    requires Forest(plan, order) && IsDecomposition(plan, order, agents, specs) && k <= |specs|
    ensures ChainIds(specs[..k]) == AllChains(plan, order, k)
    decreases k
  {
    if k > 0 {
      ChainIdsAre(plan, order, agents, specs, k - 1);
      assert specs[..k][..k - 1] == specs[..k - 1] && specs[..k][k - 1] == specs[k - 1];
      assert NodeIds(specs[k - 1].nodes) == Subtree(plan, order, Seeds(plan)[k - 1]);
    }
  }

  /**
   The decomposition partitions the plan: each task occurs exactly once over all chains;
   chain i starts at root i; and every later task follows its dependency in its own chain.
   */
  lemma DecompositionIsPartition(plan: seq<Node>, order: seq<string>, agents: seq<string>, specs: seq<ChainSpec>)
    requires Forest(plan, order) && IsDecomposition(plan, order, agents, specs)
    ensures forall x :: HasId(plan, x) ==> Count(ChainIds(specs), x) == 1
    ensures forall i, j :: 0 <= i < |specs| && 0 <= j < |specs[i].nodes| ==>
      FollowsDependency(plan, NodeIds(specs[i].nodes), Seeds(plan)[i], j)
  {
    assert specs[..|specs|] == specs;
    ChainIdsAre(plan, order, agents, specs, |specs|);
    forall x | HasId(plan, x) ensures Count(ChainIds(specs), x) == 1 {
      ChainsPartition(plan, order, x);
    }
    forall i, j | 0 <= i < |specs| && 0 <= j < |specs[i].nodes|
      ensures FollowsDependency(plan, NodeIds(specs[i].nodes), Seeds(plan)[i], j)
    {
      assert NodeIds(specs[i].nodes) == Subtree(plan, order, Seeds(plan)[i]);
      SubtreeFollows(plan, order, Seeds(plan)[i], j);
    }
  }
}
