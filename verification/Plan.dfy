/** The task plan of internal/planner/types.go: validation, roots and cycle search. */
module Plan {
  import opened Graph

  datatype Node = Node(id: string, prompt: string, dependsOn: seq<string>)

  datatype PlanError =
    | EmptyDAG | EmptyID | EmptyPrompt | DuplicateID
    | SelfDependency | UnknownDep | CycleFound(id: string)

  ghost predicate HasId(nodes: seq<Node>, id: string) {
    exists i :: 0 <= i < |nodes| && nodes[i].id == id
  }

  ghost predicate DistinctIds(nodes: seq<Node>) {
    forall i, j :: 0 <= i < j < |nodes| ==> nodes[i].id != nodes[j].id
  }

  ghost predicate KnownDeps(nodes: seq<Node>) {
    forall i, d :: 0 <= i < |nodes| && d in nodes[i].dependsOn ==> HasId(nodes, d)
  }

  /** What the searches rely on: unique non-empty ids and no dangling dependency. */
  ghost predicate WellFormed(nodes: seq<Node>) {
    DistinctIds(nodes) && !HasId(nodes, "") && KnownDeps(nodes)
  }

  /** The dependency map the code builds; a later node with the same id would win. */
  function GraphOf(nodes: seq<Node>): Graph
    decreases |nodes|
  {
    if nodes == [] then map[]
    else GraphOf(nodes[..|nodes| - 1])[nodes[|nodes| - 1].id := nodes[|nodes| - 1].dependsOn]
  }

  lemma {:induction false} GraphOfKeys(nodes: seq<Node>)
    ensures forall x :: x in GraphOf(nodes) <==> HasId(nodes, x)
    decreases |nodes|
  {
    if nodes != [] {
      var init := nodes[..|nodes| - 1];
      GraphOfKeys(init);
      assert nodes[|nodes| - 1].id in GraphOf(nodes);
      forall x | HasId(nodes, x)
        ensures HasId(init, x) || x == nodes[|nodes| - 1].id
      {
        var i :| 0 <= i < |nodes| && nodes[i].id == x;
        if i < |init| { assert init[i].id == x; }
      }
    }
  }

  lemma {:induction false} GraphOfAt(nodes: seq<Node>, i: nat)
    requires DistinctIds(nodes) && i < |nodes|
    ensures nodes[i].id in GraphOf(nodes) && GraphOf(nodes)[nodes[i].id] == nodes[i].dependsOn
    decreases |nodes|
  {
    var init := nodes[..|nodes| - 1];
    if i < |init| {
      GraphOfAt(init, i);
      assert init[i] == nodes[i];
    }
  }

  lemma GraphOfIsClosed(nodes: seq<Node>)
    requires WellFormed(nodes)
    ensures Closed(GraphOf(nodes)) && "" !in GraphOf(nodes)
  {
    GraphOfKeys(nodes);
    forall u, d | u in GraphOf(nodes) && d in GraphOf(nodes)[u]
      ensures d in GraphOf(nodes)
    {
      var i :| 0 <= i < |nodes| && nodes[i].id == u;
      GraphOfAt(nodes, i);
    }
  }

  datatype Color = White | Gray | Black

  /** Finished tasks are exactly the black ones, dependencies first; gray is the current path. */
  ghost predicate Consistent(g: Graph, color: map<string, Color>, done: seq<string>, path: seq<string>) {
    && (forall x :: x in color ==> x in g && color[x] != White)
    && (forall x :: x in color && color[x] == Black <==> x in done)
    && (forall x :: x in color && color[x] == Gray <==> x in path)
    && NoRepeats(done) && DependenciesFirst(g, done)
  }

  /** A gray task is on the path that leads to it. */
  lemma GrayIsCycle(g: Graph, color: map<string, Color>, done: seq<string>, path: seq<string>, id: string)
    requires Consistent(g, color, done, path) && id in color && color[id] == Gray
    requires IsWalk(g, path) && (path != [] ==> Edge(g, path[|path| - 1], id))
    ensures OnCycle(g, id)
  {
    var k :| 0 <= k < |path| && path[k] == id;
    LoopIsCycle(g, path, k, id);
  }

  lemma PaintGray(g: Graph, color: map<string, Color>, done: seq<string>, path: seq<string>, id: string)
    requires Consistent(g, color, done, path) && id in g && id !in color
    ensures Consistent(g, color[id := Gray], done, path + [id])
  {
  }

  lemma PaintBlack(g: Graph, color: map<string, Color>, done: seq<string>, path: seq<string>, id: string)
    requires Consistent(g, color, done, path + [id]) && id !in path && id in g
    requires forall d :: d in g[id] ==> d in done
    ensures Consistent(g, color[id := Black], done + [id], path)
  {
    assert id in path + [id];
    assert id !in done;
    var more := done + [id];
    forall i | 0 <= i < |more|
      ensures more[i] in g && forall d :: d in g[more[i]] ==> d in more[..i]
    {
      if i < |done| {
        assert more[..i] == done[..i];
      } else {
        assert more[..i] == done;
      }
    }
    forall x
      ensures x in color[id := Gray] && color[id := Gray][x] == Gray && x != id <==> x in path
    {
      assert x in path + [id] <==> x in path || x == id;
    }
  }

  lemma PrefixKeeps(a: seq<string>, b: seq<string>)
    requires a <= b
    ensures forall x :: x in a ==> x in b
  {
  }

  /** The recursive closure of findCycle with the colour map it shares between calls. */
  class CycleSearch {
    const deps: Graph
    var color: map<string, Color>
    ghost var done: seq<string>   // black tasks in the order they were finished

    constructor (deps: Graph)
      ensures this.deps == deps && color == map[] && done == []
    {
      this.deps, color, done := deps, map[], [];
    }

    ghost predicate Valid(path: seq<string>)
      reads this
    {
      Consistent(deps, color, done, path)
    }

    /** Depth-first visit; the answer "" means nothing reachable from id closes a cycle. */
    method Visit(id: string, ghost path: seq<string>) returns (hit: string)
      requires Closed(deps) && "" !in deps && id in deps
      requires Valid(path) && IsWalk(deps, path) && (path != [] ==> Edge(deps, path[|path| - 1], id))
      modifies this
      ensures hit != "" ==> OnCycle(deps, hit)
      ensures hit == "" ==> Valid(path) && id in done
      ensures old(done) <= done
      ensures old(color.Keys) <= color.Keys
      decreases deps.Keys - color.Keys
    {
      var c := if id in color then color[id] else White;
      if c == Gray {
        GrayIsCycle(deps, color, done, path, id);
        return id;
      }
      if c == Black {
        return "";
      }
      PaintGray(deps, color, done, path, id);
      WalkExtends(deps, path, id);
      color := color[id := Gray];
      ghost var here := path + [id];
      for i := 0 to |deps[id]|
        invariant Valid(here)
        invariant old(done) <= done
        invariant old(color.Keys) + {id} <= color.Keys
        invariant forall j :: 0 <= j < i ==> deps[id][j] in done
      {
        assert id in deps.Keys - old(color.Keys) && id !in deps.Keys - color.Keys;
        assert here[|here| - 1] == id && deps[id][i] in deps;
        ghost var before := done;
        hit := Visit(deps[id][i], here);
        if hit != "" {
          return;
        }
        PrefixKeeps(before, done);
      }
      PaintBlack(deps, color, done, path, id);
      color := color[id := Black];
      done := done + [id];
      return "";
    }
  }

  method BuildGraph(nodes: seq<Node>) returns (deps: Graph)
    ensures deps == GraphOf(nodes)
  {
    deps := map[];
    for i := 0 to |nodes|
      invariant deps == GraphOf(nodes[..i])
    {
      deps := deps[nodes[i].id := nodes[i].dependsOn];
      assert nodes[..i + 1][..i] == nodes[..i];
    }
    assert nodes[..|nodes|] == nodes;
  }

  lemma CycleMeansCyclic(g: Graph, x: string)
    requires OnCycle(g, x)
    ensures !Acyclic(g)
  {
  }

  lemma AllDoneIsAcyclic(nodes: seq<Node>, color: map<string, Color>, done: seq<string>)
    requires Consistent(GraphOf(nodes), color, done, [])
    requires forall i :: 0 <= i < |nodes| ==> nodes[i].id in done
    ensures Acyclic(GraphOf(nodes))
  {
    GraphOfKeys(nodes);
    forall x | x in done
      ensures x in GraphOf(nodes)
    {
      assert x in color;
    }
    TopologicalIsAcyclic(GraphOf(nodes), done);
  }

  /** Returns "" exactly when the dependency relation has no cycle; any other answer lies on one. */
  method FindCycle(nodes: seq<Node>) returns (hit: string)
    requires WellFormed(nodes)
    ensures hit == "" <==> Acyclic(GraphOf(nodes))
    ensures hit != "" ==> OnCycle(GraphOf(nodes), hit)
  {
    var deps := BuildGraph(nodes);
    GraphOfIsClosed(nodes);
    var search := new CycleSearch(deps);
    for i := 0 to |nodes|
      invariant search.Valid([])
      invariant forall j :: 0 <= j < i ==> nodes[j].id in search.done
    {
      GraphOfAt(nodes, i);
      ghost var before := search.done;
      hit := search.Visit(nodes[i].id, []);
      if hit != "" {
        CycleMeansCyclic(deps, hit);
        return;
      }
      PrefixKeeps(before, search.done);
    }
    AllDoneIsAcyclic(nodes, search.color, search.done);
    return "";
  }
}
