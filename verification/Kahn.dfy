/**
 Kahn's algorithm stated on sets: a task becomes ready when its last dependency is
 output, and ready tasks leave in first-in first-out order. TopoSort.dfy proves that
 the counters of the source compute this, so what holds here of every frontier holds
 of the sort.
 */
module Kahn {
  import opened Common
  import opened Graph
  import opened Plan

  datatype Frontier = Frontier(ready: seq<string>, out: seq<string>)

  predicate AllIn(deps: seq<string>, out: seq<string>) {
    forall d :: d in deps ==> d in out
  }

  /** Outputting id completes this task's dependencies. */
  predicate Released(n: Node, out: seq<string>, id: string) {
    id in n.dependsOn && AllIn(n.dependsOn, out + [id])
  }

  /** The ids of the tasks that satisfy p, in input order. */
  function Pick(nodes: seq<Node>, p: Node -> bool): seq<string>
    decreases |nodes|
  {
    if nodes == [] then []
    else
      var last := nodes[|nodes| - 1];
      Pick(nodes[..|nodes| - 1], p) + if p(last) then [last.id] else []
  }

  function Fresh(nodes: seq<Node>, out: seq<string>, id: string): seq<string> {
    Pick(nodes, (n: Node) => Released(n, out, id))
  }

  function Seeds(nodes: seq<Node>): seq<string> {
    Pick(nodes, (n: Node) => n.dependsOn == [])
  }

  function Step(nodes: seq<Node>, f: Frontier): Frontier {
    if f.ready == [] then f
    else Frontier(f.ready[1..] + Fresh(nodes, f.out, f.ready[0]), f.out + [f.ready[0]])
  }

  function Run(nodes: seq<Node>, n: nat): Frontier
    decreases n
  {
    if n == 0 then Frontier(Seeds(nodes), []) else Step(nodes, Run(nodes, n - 1))
  }

  /** The order, or None when some task never becomes ready. */
  function Order(nodes: seq<Node>): Option<seq<string>> {
    var out := Run(nodes, |nodes|).out;
    if |out| == |nodes| then Some(out) else None
  }

  lemma {:induction false} PickMembers(nodes: seq<Node>, p: Node -> bool)
    ensures forall x :: x in Pick(nodes, p) <==> exists i :: 0 <= i < |nodes| && nodes[i].id == x && p(nodes[i])
    decreases |nodes|
  {
    if nodes != [] {
      PickMembers(nodes[..|nodes| - 1], p);
      assert nodes == nodes[..|nodes| - 1] + [nodes[|nodes| - 1]];
    }
  }

  /** Where a task stands in the input. */
  ghost function InputIndex(nodes: seq<Node>, id: string): nat
    requires HasId(nodes, id)
    ensures InputIndex(nodes, id) < |nodes| && nodes[InputIndex(nodes, id)].id == id
  {
    var i :| 0 <= i < |nodes| && nodes[i].id == id;
    i
  }

  lemma InputIndexIs(nodes: seq<Node>, i: nat)
    requires DistinctIds(nodes) && i < |nodes|
    ensures HasId(nodes, nodes[i].id) && InputIndex(nodes, nodes[i].id) == i
  {
  }

  /** The picked ids stand in input order. */
  lemma {:induction false} PickIncreasing(nodes: seq<Node>, p: Node -> bool)
    requires DistinctIds(nodes)
    ensures forall x :: x in Pick(nodes, p) ==> HasId(nodes, x)
    ensures forall a, b :: 0 <= a < b < |Pick(nodes, p)| ==>
      InputIndex(nodes, Pick(nodes, p)[a]) < InputIndex(nodes, Pick(nodes, p)[b])
    decreases |nodes|
  {
    PickMembers(nodes, p);
    if nodes != [] {
      var init := nodes[..|nodes| - 1];
      PickIncreasing(init, p);
      InputIndexIs(nodes, |nodes| - 1);
      forall x | HasId(init, x)
        ensures HasId(nodes, x) && InputIndex(nodes, x) == InputIndex(init, x)
      {
        InputIndexIs(nodes, InputIndex(init, x));
      }
    }
  }

  /** One more than the position of the last dependency in the output; 0 for a root. */
  function LastDependency(deps: seq<string>, out: seq<string>): nat
    decreases |deps|
  {
    if deps == [] then 0
    else Max(After(deps[0], out), LastDependency(deps[1..], out))
  }

  function Max(a: nat, b: nat): nat { if a < b then b else a }

  function After(d: string, out: seq<string>): nat
    decreases |out|
  {
    if out == [] then 0
    else if out[|out| - 1] == d then |out|
    else After(d, out[..|out| - 1])
  }

  lemma {:induction false} AfterMeaning(d: string, out: seq<string>)
    ensures After(d, out) <= |out| && (After(d, out) > 0 <==> d in out)
    ensures d in out ==> out[After(d, out) - 1] == d
    decreases |out|
  {
    if out != [] {
      AfterMeaning(d, out[..|out| - 1]);
      assert out == out[..|out| - 1] + [out[|out| - 1]];
    }
  }

  lemma {:induction false} LastDependencyGrows(deps: seq<string>, out: seq<string>, id: string)
    requires id !in out
    ensures id !in deps ==> LastDependency(deps, out + [id]) == LastDependency(deps, out)
    ensures id in deps ==> LastDependency(deps, out + [id]) == |out| + 1
    ensures LastDependency(deps, out) <= |out|
    decreases |deps|
  {
    if deps != [] {
      LastDependencyGrows(deps[1..], out, id);
      AfterMeaning(deps[0], out);
      assert (out + [id])[..|out|] == out;
      assert deps == [deps[0]] + deps[1..];
    }
  }

  ghost function DepsOf(nodes: seq<Node>, id: string): seq<string>
    requires HasId(nodes, id)
  {
    nodes[InputIndex(nodes, id)].dependsOn
  }

  /** Picking by a property of the node is picking by a property of its id. */
  lemma PickedExactly(nodes: seq<Node>, p: Node -> bool, x: string)
    requires DistinctIds(nodes) && HasId(nodes, x)
    ensures x in Pick(nodes, p) <==> p(nodes[InputIndex(nodes, x)])
  {
    PickMembers(nodes, p);
    if x in Pick(nodes, p) {
      var i :| 0 <= i < |nodes| && nodes[i].id == x && p(nodes[i]);
      InputIndexIs(nodes, i);
    }
  }

  /** The order in which the queue emits tasks: by last dependency, then by input position. */
  ghost predicate Earlier(nodes: seq<Node>, out: seq<string>, x: string, y: string)
    requires HasId(nodes, x) && HasId(nodes, y)
  {
    var a, b := LastDependency(DepsOf(nodes, x), out), LastDependency(DepsOf(nodes, y), out);
    a < b || (a == b && InputIndex(nodes, x) < InputIndex(nodes, y))
  }

  ghost predicate Known(nodes: seq<Node>, s: seq<string>) {
    forall x :: x in s ==> HasId(nodes, x)
  }

  /** A sequence of tasks strictly in emission order. */
  ghost predicate Emitted(nodes: seq<Node>, out: seq<string>, s: seq<string>)
    requires Known(nodes, s)
  {
    forall i, j :: 0 <= i < j < |s| ==> Earlier(nodes, out, s[i], s[j])
  }

  /** Exactly the tasks whose dependencies are all output have been queued. */
  ghost predicate QueuedExactly(nodes: seq<Node>, out: seq<string>, s: seq<string>) {
    forall x :: HasId(nodes, x) ==> (x in s <==> AllIn(DepsOf(nodes, x), out))
  }

  ghost predicate Ordered(nodes: seq<Node>, out: seq<string>)
    requires Known(nodes, out)
  {
    forall i :: 0 <= i < |out| ==> AllIn(DepsOf(nodes, out[i]), out[..i])
  }

  /** What holds of every frontier of the algorithm. */
  ghost predicate Sound(nodes: seq<Node>, f: Frontier) {
    var s := f.out + f.ready;
    && Known(nodes, f.out) && Known(nodes, s)
    && Emitted(nodes, f.out, s)
    && QueuedExactly(nodes, f.out, s)
    && Ordered(nodes, f.out)
  }

  lemma EmittedIsDistinct(nodes: seq<Node>, out: seq<string>, s: seq<string>)
    requires Known(nodes, s) && Emitted(nodes, out, s)
    ensures NoRepeats(s)
  {
    forall i, j | 0 <= i < j < |s|
      ensures s[i] != s[j]
    {
      assert Earlier(nodes, out, s[i], s[j]);
    }
  }

  lemma SeedsExactly(nodes: seq<Node>, x: string)
    requires DistinctIds(nodes) && HasId(nodes, x)
    ensures x in Seeds(nodes) <==> DepsOf(nodes, x) == []
    ensures x in Seeds(nodes) <==> AllIn(DepsOf(nodes, x), [])
  {
    PickedExactly(nodes, (n: Node) => n.dependsOn == [], x);
    var deps := DepsOf(nodes, x);
    if deps != [] {
      assert deps[0] in deps;
    }
  }

  lemma StartIsSound(nodes: seq<Node>)
    requires DistinctIds(nodes)
    ensures Sound(nodes, Frontier(Seeds(nodes), []))
  {
    var s := Seeds(nodes);
    PickIncreasing(nodes, (n: Node) => n.dependsOn == []);
    assert [] + s == s;
    forall x | HasId(nodes, x)
      ensures x in s <==> AllIn(DepsOf(nodes, x), [])
    {
      SeedsExactly(nodes, x);
    }
    forall i, j | 0 <= i < j < |s|
      ensures Earlier(nodes, [], s[i], s[j])
    {
      assert s[i] in s && s[j] in s;
      SeedsExactly(nodes, s[i]);
      SeedsExactly(nodes, s[j]);
    }
  }

  /** The tasks released by one output come after everything queued so far, in input order. */
  lemma FreshComesLast(nodes: seq<Node>, f: Frontier, id: string)
    requires DistinctIds(nodes) && Sound(nodes, f) && f.ready != [] && id == f.ready[0]
    ensures id !in f.out
    ensures var news := Fresh(nodes, f.out, id);
      && Known(nodes, news)
      && (forall x :: x in news ==> LastDependency(DepsOf(nodes, x), f.out + [id]) == |f.out| + 1)
      && (forall x :: x in f.out + f.ready ==>
            LastDependency(DepsOf(nodes, x), f.out + [id]) == LastDependency(DepsOf(nodes, x), f.out) <= |f.out|)
  {
    var s := f.out + f.ready;
    EmittedIsDistinct(nodes, f.out, s);
    assert s[|f.out|] == id;
    forall k | 0 <= k < |f.out|
      ensures f.out[k] != id
    {
      assert s[k] == f.out[k];
    }
    var p := (n: Node) => Released(n, f.out, id);
    PickIncreasing(nodes, p);
    forall x | x in Fresh(nodes, f.out, id)
      ensures LastDependency(DepsOf(nodes, x), f.out + [id]) == |f.out| + 1
    {
      PickedExactly(nodes, p, x);
      LastDependencyGrows(DepsOf(nodes, x), f.out, id);
    }
    forall x | x in s
      ensures LastDependency(DepsOf(nodes, x), f.out + [id]) == LastDependency(DepsOf(nodes, x), f.out) <= |f.out|
    {
      assert HasId(nodes, x) && AllIn(DepsOf(nodes, x), f.out);
      LastDependencyGrows(DepsOf(nodes, x), f.out, id);
    }
  }

  lemma StepEmits(nodes: seq<Node>, f: Frontier)
    requires DistinctIds(nodes) && Sound(nodes, f) && f.ready != []
    ensures var t := Step(nodes, f); var s := t.out + t.ready;
      && s == (f.out + f.ready) + Fresh(nodes, f.out, f.ready[0])
      && Known(nodes, s) && Emitted(nodes, t.out, s)
  {
    var t, id := Step(nodes, f), f.ready[0];
    var s, news := f.out + f.ready, Fresh(nodes, f.out, id);
    assert t.out + t.ready == s + news;
    FreshComesLast(nodes, f, id);
    PickIncreasing(nodes, (n: Node) => Released(n, f.out, id));
    var u := s + news;
    forall i, j | 0 <= i < j < |u|
      ensures Earlier(nodes, t.out, u[i], u[j])
    {
      if j < |s| {
        assert Earlier(nodes, f.out, s[i], s[j]);
        assert s[i] in s && s[j] in s;
      } else if i < |s| {
        assert s[i] in s && u[j] == news[j - |s|] && news[j - |s|] in news;
      } else {
        assert u[i] == news[i - |s|] && u[j] == news[j - |s|];
      }
    }
  }

  lemma StepQueues(nodes: seq<Node>, f: Frontier)
    requires DistinctIds(nodes) && Sound(nodes, f) && f.ready != []
    ensures var t := Step(nodes, f);
      QueuedExactly(nodes, t.out, (f.out + f.ready) + Fresh(nodes, f.out, f.ready[0]))
  {
    var id := f.ready[0];
    var s, news := f.out + f.ready, Fresh(nodes, f.out, id);
    var out := f.out + [id];
    forall x | HasId(nodes, x)
      ensures x in s + news <==> AllIn(DepsOf(nodes, x), out)
    {
      var deps := DepsOf(nodes, x);
      PickedExactly(nodes, (n: Node) => Released(n, f.out, id), x);
      assert x in news <==> id in deps && AllIn(deps, out);
      if id !in deps {
        assert AllIn(deps, out) <==> AllIn(deps, f.out);
      }
      assert AllIn(deps, f.out) ==> AllIn(deps, out);
    }
  }

  lemma StepIsSound(nodes: seq<Node>, f: Frontier)
    requires DistinctIds(nodes) && Sound(nodes, f)
    ensures Sound(nodes, Step(nodes, f))
  {
    if f.ready != [] {
      StepEmits(nodes, f);
      StepQueues(nodes, f);
      var t, id := Step(nodes, f), f.ready[0];
      assert id in f.out + f.ready;
      forall i | 0 <= i < |t.out|
        ensures HasId(nodes, t.out[i]) && AllIn(DepsOf(nodes, t.out[i]), t.out[..i])
      {
        if i < |f.out| {
          assert t.out[..i] == f.out[..i];
        } else {
          assert t.out[..i] == f.out;
        }
      }
    }
  }

  lemma {:induction false} RunIsSound(nodes: seq<Node>, n: nat)
    requires DistinctIds(nodes)
    ensures Sound(nodes, Run(nodes, n))
    decreases n
  {
    if n == 0 {
      StartIsSound(nodes);
    } else {
      RunIsSound(nodes, n - 1);
      StepIsSound(nodes, Run(nodes, n - 1));
    }
  }

  /** Each step outputs one task until nothing is ready. */
  lemma {:induction false} RunProgress(nodes: seq<Node>, n: nat)
    ensures var f := Run(nodes, n); |f.out| <= n && (f.ready != [] ==> |f.out| == n)
    ensures n > 0 && |Run(nodes, n).out| < n ==> Run(nodes, n) == Run(nodes, n - 1)
    decreases n
  {
    if n > 0 {
      RunProgress(nodes, n - 1);
    }
  }

  /** Distinct task ids are no more numerous than the nodes. */
  lemma {:induction false} DistinctFit(nodes: seq<Node>, s: seq<string>)
    requires Known(nodes, s) && NoRepeats(s)
    ensures |s| <= |nodes|
    ensures |s| == |nodes| ==> forall x :: HasId(nodes, x) ==> x in s
  {
    var ids := set i | 0 <= i < |nodes| :: nodes[i].id;
    IdsBounded(nodes, ids);
    var members := set x | x in s;
    SeqSetSize(s);
    assert members <= ids by {
      forall x | x in members ensures x in ids {
        var i := InputIndex(nodes, x);
        assert nodes[i].id == x;
      }
    }
    SubsetSize(members, ids);
    if |s| == |nodes| {
      forall x | HasId(nodes, x) ensures x in s {
        assert nodes[InputIndex(nodes, x)].id == x;
        assert x in ids;
      }
    }
  }

  lemma {:induction false} SubsetSize(a: set<string>, b: set<string>)
    requires a <= b
    ensures |a| <= |b| && (|a| == |b| ==> a == b)
    decreases a
  {
    if a != {} {
      var x :| x in a;
      SubsetSize(a - {x}, b - {x});
    }
  }

  lemma {:induction false} SeqSetSize(s: seq<string>)
    requires NoRepeats(s)
    ensures |set x | x in s| == |s|
    decreases |s|
  {
    if s != [] {
      var init, last := s[..|s| - 1], s[|s| - 1];
      SeqSetSize(init);
      assert (set x | x in s) == (set x | x in init) + {last};
    }
  }

  lemma {:induction false} IdsBounded(nodes: seq<Node>, ids: set<string>)
    requires ids == set i | 0 <= i < |nodes| :: nodes[i].id
    ensures |ids| <= |nodes|
    decreases |nodes|
  {
    if nodes != [] {
      var init := nodes[..|nodes| - 1];
      var rest := set i | 0 <= i < |init| :: init[i].id;
      IdsBounded(init, rest);
      assert ids == rest + {nodes[|nodes| - 1].id} by {
        forall x | x in ids ensures x in rest + {nodes[|nodes| - 1].id} {
          var i :| 0 <= i < |nodes| && nodes[i].id == x;
          if i < |init| { assert init[i].id == x; }
        }
        forall x | x in rest + {nodes[|nodes| - 1].id} ensures x in ids {
          if x in rest {
            var i :| 0 <= i < |init| && init[i].id == x;
            assert nodes[i].id == x;
          }
        }
      }
    }
  }
}
