/**
 Dependency graphs: an edge goes from a task to a task it depends on. A graph without
 cycles can be listed with dependencies first, and a graph in which everything left
 over waits for something left over has a cycle.
 */
module Graph {

  type Graph = map<string, seq<string>>

  ghost predicate Closed(g: Graph) {
    forall u, d :: u in g && d in g[u] ==> d in g
  }

  ghost predicate Edge(g: Graph, u: string, v: string) {
    u in g && v in g[u]
  }

  ghost predicate IsWalk(g: Graph, p: seq<string>) {
    forall i :: 0 <= i < |p| - 1 ==> Edge(g, p[i], p[i + 1])
  }

  ghost predicate IsCycle(g: Graph, p: seq<string>) {
    |p| >= 2 && p[0] == p[|p| - 1] && IsWalk(g, p)
  }

  ghost predicate OnCycle(g: Graph, x: string) {
    exists p :: IsCycle(g, p) && p[0] == x
  }

  ghost predicate Acyclic(g: Graph) {
    forall p :: !IsCycle(g, p)
  }

  /** Every listed task follows all the tasks it depends on. */
  ghost predicate DependenciesFirst(g: Graph, order: seq<string>) {
    forall i :: 0 <= i < |order| ==> order[i] in g && forall d :: d in g[order[i]] ==> d in order[..i]
  }

  ghost predicate NoRepeats(order: seq<string>) {
    forall i, j :: 0 <= i < j < |order| ==> order[i] != order[j]
  }

  /** A listing of all tasks with dependencies first. */
  ghost predicate IsTopological(g: Graph, order: seq<string>) {
    NoRepeats(order) && (forall x :: x in g <==> x in order) && DependenciesFirst(g, order)
  }

  /** Along a walk the position in a dependencies-first listing only falls. */
  lemma {:induction false} WalkDescends(g: Graph, order: seq<string>, p: seq<string>, i: nat, j: nat)
    requires NoRepeats(order) && DependenciesFirst(g, order) && IsWalk(g, p)
    requires i < |order| && 0 < |p| && p[0] == order[i]
    requires j < |p|
    ensures exists k :: 0 <= k <= i && p[j] == order[k] && (j > 0 ==> k < i)
    decreases j
  {
    if j > 0 {
      WalkDescends(g, order, p, i, j - 1);
      var k :| 0 <= k <= i && p[j - 1] == order[k];
      assert Edge(g, p[j - 1], p[j - 1 + 1]);
      assert p[j] in order[..k];
    }
  }

  /** A graph that can be listed with dependencies first has no cycle. */
  lemma TopologicalIsAcyclic(g: Graph, order: seq<string>)
    requires IsTopological(g, order)
    ensures Acyclic(g)
  {
    forall p | IsCycle(g, p)
      ensures false
    {
      assert Edge(g, p[0], p[0 + 1]);
      var i :| 0 <= i < |order| && order[i] == p[0];
      WalkDescends(g, order, p, i, |p| - 1);
    }
  }

  /** The part of a walk between two visits of the same task is a cycle. */
  lemma LoopIsCycle(g: Graph, path: seq<string>, k: nat, next: string)
    requires IsWalk(g, path) && k < |path| && path[k] == next && Edge(g, path[|path| - 1], next)
    ensures IsCycle(g, path[k..] + [next]) && OnCycle(g, next)
  {
    var p := path[k..] + [next];
    forall i | 0 <= i < |p| - 1
      ensures Edge(g, p[i], p[i + 1])
    {
      if i < |p| - 2 {
        assert Edge(g, path[k + i], path[k + i + 1]);
      }
    }
    assert p[0] == next;
  }

  lemma WalkExtends(g: Graph, path: seq<string>, id: string)
    requires IsWalk(g, path) && (path != [] ==> Edge(g, path[|path| - 1], id))
    ensures IsWalk(g, path + [id])
  {
    var p := path + [id];
    forall i | 0 <= i < |p| - 1
      ensures Edge(g, p[i], p[i + 1])
    {
      if i < |path| - 1 {
        assert Edge(g, path[i], path[i + 1]);
      }
    }
  }

  ghost predicate DependsInto(g: Graph, stuck: set<string>, u: string) {
    exists v :: v in stuck && Edge(g, u, v)
  }

  /** If every task of a set depends on a task of the set, a walk inside it must loop. */
  lemma {:induction false} NoSinkMeansCycle(g: Graph, stuck: set<string>, path: seq<string>, unseen: set<string>)
    requires forall u {:trigger DependsInto(g, stuck, u)} :: u in stuck ==> DependsInto(g, stuck, u)
    requires |path| > 0 && IsWalk(g, path) && path[|path| - 1] in stuck
    requires forall x :: x in stuck ==> x in path || x in unseen
    ensures !Acyclic(g)
    decreases unseen
  {
    var last := path[|path| - 1];
    assert DependsInto(g, stuck, last);
    var v :| v in stuck && Edge(g, last, v);
    if v in path {
      var k :| 0 <= k < |path| && path[k] == v;
      LoopIsCycle(g, path, k, v);
    } else {
      WalkExtends(g, path, v);
      NoSinkMeansCycle(g, stuck, path + [v], unseen - {v});
    }
  }
}
