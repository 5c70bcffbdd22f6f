/** When TopoSort is stable on input order within each level, as its documentation promises. */
module Levels {
  import opened Common
  import opened Plan
  import opened Kahn
  import opened TopoSort

  /** The level of a task: the length of its longest chain of dependencies. */
  ghost predicate IsLevel(nodes: seq<Node>, level: string -> nat) {
    forall x :: HasId(nodes, x) ==> LevelAt(nodes, level, x)
  }

  ghost predicate LevelAt(nodes: seq<Node>, level: string -> nat, x: string)
    requires HasId(nodes, x)
  {
    && (DepsOf(nodes, x) == [] ==> level(x) == 0)
    && (forall d :: d in DepsOf(nodes, x) ==> level(d) < level(x))
    && (DepsOf(nodes, x) != [] ==> exists d :: d in DepsOf(nodes, x) && level(d) + 1 == level(x))
  }

  /** Tasks of one level leave in input order. */
  ghost predicate StableUpTo(nodes: seq<Node>, level: string -> nat, out: seq<string>, n: int)
    requires Known(nodes, out)
  {
    forall i, j {:trigger StablePair(nodes, level, out, i, j)} :: 0 <= i < j < n ==> StablePair(nodes, level, out, i, j)
  }

  ghost predicate StablePair(nodes: seq<Node>, level: string -> nat, out: seq<string>, i: int, j: int)
    requires Known(nodes, out)
  {
    0 <= i < |out| && 0 <= j < |out| && level(out[i]) == level(out[j]) ==>
      InputIndex(nodes, out[i]) < InputIndex(nodes, out[j])
  }

  /** The last of x's dependencies on the level below stands no later in the input than the last of y's. */
  ghost predicate Covered(nodes: seq<Node>, level: string -> nat, x: string, y: string)
    requires HasId(nodes, x) && HasId(nodes, y)
  {
    forall d :: d in DepsOf(nodes, x) && level(d) + 1 == level(x) && HasId(nodes, d) ==>
      exists e :: e in DepsOf(nodes, y) && level(e) + 1 == level(y) && HasId(nodes, e)
               && InputIndex(nodes, d) <= InputIndex(nodes, e)
  }

  /** A condition on the input alone: dependencies on the level below are not crossed. */
  ghost predicate Uncrossed(nodes: seq<Node>, level: string -> nat) {
    forall x, y :: Peers(nodes, level, x, y) ==> Covered(nodes, level, x, y)
  }

  /** Two tasks of one level, x earlier in the input. */
  ghost predicate Peers(nodes: seq<Node>, level: string -> nat, x: string, y: string) {
    && HasId(nodes, x) && HasId(nodes, y) && level(x) == level(y)
    && InputIndex(nodes, x) < InputIndex(nodes, y)
  }

  /** A finished sort: everything the proofs below use. */
  ghost predicate Sorted(nodes: seq<Node>, out: seq<string>) {
    && DistinctIds(nodes) && Known(nodes, out) && Ordered(nodes, out)
    && (forall x :: HasId(nodes, x) ==> x in out)
    && (forall i, j {:trigger EmittedPair(nodes, out, i, j)} :: 0 <= i < j < |out| ==> EmittedPair(nodes, out, i, j))
  }

  ghost predicate EmittedPair(nodes: seq<Node>, out: seq<string>, i: int, j: int)
    requires Known(nodes, out)
  {
    0 <= i < |out| && 0 <= j < |out| && Earlier(nodes, out, out[i], out[j])
  }

  lemma OnePlace(nodes: seq<Node>, out: seq<string>, i: nat, j: nat)
    requires Sorted(nodes, out) && i < |out| && j < |out| && out[i] == out[j]
    ensures i == j
  {
    assert i < j ==> EmittedPair(nodes, out, i, j);
    assert j < i ==> EmittedPair(nodes, out, j, i);
  }

  lemma SortIsSorted(nodes: seq<Node>)
    requires DistinctIds(nodes) && Order(nodes).Some?
    ensures Sorted(nodes, Order(nodes).value)
  {
    EmissionOrder(nodes);
    FrontierFits(nodes, |nodes|);
    var out := Order(nodes).value;
    DistinctFit(nodes, out);
    forall i, j | 0 <= i < j < |out| ensures EmittedPair(nodes, out, i, j) {
      assert Earlier(nodes, out, out[i], out[j]);
    }
  }

  lemma {:induction false} LastIsLargest(deps: seq<string>, out: seq<string>)
    ensures forall d :: d in deps ==> After(d, out) <= LastDependency(deps, out)
    ensures deps != [] ==> exists d :: d in deps && After(d, out) == LastDependency(deps, out)
    decreases |deps|
  {
    if deps != [] {
      LastIsLargest(deps[1..], out);
      assert deps == [deps[0]] + deps[1..];
      if |deps| > 1 && LastDependency(deps, out) == LastDependency(deps[1..], out) {
        var d :| d in deps[1..] && After(d, out) == LastDependency(deps[1..], out);
        assert d in deps;
      } else {
        assert deps[0] in deps;
      }
    }
  }

  /** Where the last dependency of task i stands in the output, as a position. */
  ghost function Last(nodes: seq<Node>, out: seq<string>, i: nat): int
    requires Known(nodes, out) && i < |out|
  {
    LastDependency(DepsOf(nodes, out[i]), out) - 1
  }

  lemma LastFacts(nodes: seq<Node>, out: seq<string>, i: nat)
    requires Sorted(nodes, out) && i < |out|
    ensures var k, deps := Last(nodes, out, i), DepsOf(nodes, out[i]);
      && (deps == [] ==> k == -1)
      && (deps != [] ==> 0 <= k < i && out[k] in deps)
      && forall p :: 0 <= p < |out| && out[p] in deps ==> p <= k
  {
    var deps := DepsOf(nodes, out[i]);
    LastIsLargest(deps, out);
    if deps != [] {
      var d :| d in deps && After(d, out) == LastDependency(deps, out);
      assert d in out[..i];
      var p :| 0 <= p < i && out[p] == d;
      AfterIsPlace(nodes, out, p);
    }
    forall p | 0 <= p < |out| && out[p] in deps ensures p <= Last(nodes, out, i) {
      AfterIsPlace(nodes, out, p);
    }
  }

  lemma AfterIsPlace(nodes: seq<Node>, out: seq<string>, p: nat)
    requires Sorted(nodes, out) && p < |out|
    ensures After(out[p], out) == p + 1
  {
    AfterMeaning(out[p], out);
    OnePlace(nodes, out, p, After(out[p], out) - 1);
  }

  /** Emission order, by position. */
  lemma EmittedByLast(nodes: seq<Node>, out: seq<string>, i: nat, j: nat)
    requires Sorted(nodes, out) && i < j < |out|
    ensures Last(nodes, out, i) <= Last(nodes, out, j)
    ensures Last(nodes, out, i) == Last(nodes, out, j) ==> InputIndex(nodes, out[i]) < InputIndex(nodes, out[j])
  {
    assert EmittedPair(nodes, out, i, j);
  }

  ghost predicate Rising(level: string -> nat, out: seq<string>, n: int) {
    forall i, j :: 0 <= i <= j < n && j < |out| ==> level(out[i]) <= level(out[j])
  }

  /** A task is one level above its last dependency. */
  lemma AboveLast(nodes: seq<Node>, level: string -> nat, out: seq<string>, i: nat)
    requires Sorted(nodes, out) && IsLevel(nodes, level) && i < |out| && Rising(level, out, i)
    ensures Last(nodes, out, i) < i
    ensures level(out[i]) == if Last(nodes, out, i) < 0 then 0 else level(out[Last(nodes, out, i)]) + 1
  {
    var x, k := out[i], Last(nodes, out, i);
    LastFacts(nodes, out, i);
    assert LevelAt(nodes, level, x);
    if DepsOf(nodes, x) != [] {
      var d :| d in DepsOf(nodes, x) && level(d) + 1 == level(x);
      assert d in out[..i];
      var p :| 0 <= p < i && out[p] == d;
      assert level(out[p]) <= level(out[k]);
    }
  }

  /** The sort emits level by level. */
  lemma {:induction false} LevelByLevel(nodes: seq<Node>, level: string -> nat, out: seq<string>, n: nat)
    requires Sorted(nodes, out) && IsLevel(nodes, level) && n <= |out|
    ensures Rising(level, out, n)
    decreases n
  {
    if n > 0 {
      var j := n - 1;
      LevelByLevel(nodes, level, out, j);
      AboveLast(nodes, level, out, j);
      forall i | 0 <= i < j ensures level(out[i]) <= level(out[j]) {
        assert Rising(level, out, i);
        AboveLast(nodes, level, out, i);
        EmittedByLast(nodes, out, i, j);
        LastFacts(nodes, out, i);
        LastFacts(nodes, out, j);
      }
    }
  }

  /** The last dependency of a task that is not a root is on the level below. */
  lemma LastIsBelow(nodes: seq<Node>, level: string -> nat, out: seq<string>, i: nat)
    requires Sorted(nodes, out) && IsLevel(nodes, level) && i < |out|
    ensures var k := Last(nodes, out, i);
      if level(out[i]) == 0 then k == -1
      else 0 <= k < i && out[k] in DepsOf(nodes, out[i]) && level(out[k]) + 1 == level(out[i])
  {
    LevelByLevel(nodes, level, out, i);
    AboveLast(nodes, level, out, i);
    LastFacts(nodes, out, i);
  }

  lemma {:induction false} UncrossedIsStable(nodes: seq<Node>, level: string -> nat, out: seq<string>, n: nat)
    requires Sorted(nodes, out) && IsLevel(nodes, level) && Uncrossed(nodes, level) && n <= |out|
    ensures StableUpTo(nodes, level, out, n)
    decreases n
  {
    if n > 0 {
      var j := n - 1;
      UncrossedIsStable(nodes, level, out, j);
      forall i, k | 0 <= i < k < n ensures StablePair(nodes, level, out, i, k) {
        if k == j && level(out[i]) == level(out[j]) {
          StepIsStable(nodes, level, out, i, j);
        }
      }
    }
  }

  lemma StepIsStable(nodes: seq<Node>, level: string -> nat, out: seq<string>, i: nat, j: nat)
    requires Sorted(nodes, out) && IsLevel(nodes, level) && Uncrossed(nodes, level)
    requires i < j < |out| && level(out[i]) == level(out[j]) && StableUpTo(nodes, level, out, j)
    ensures InputIndex(nodes, out[i]) < InputIndex(nodes, out[j])
  {
    var x, y := out[i], out[j];
    EmittedByLast(nodes, out, i, j);
    LastIsBelow(nodes, level, out, i);
    LastIsBelow(nodes, level, out, j);
    var k, m := Last(nodes, out, i), Last(nodes, out, j);
    LastFacts(nodes, out, i);
    if k < m {
      forall e | e in DepsOf(nodes, x) && level(e) + 1 == level(x) && HasId(nodes, e)
        ensures InputIndex(nodes, e) < InputIndex(nodes, out[m])
      {
        var p :| 0 <= p < |out| && out[p] == e;
        assert p <= k && StablePair(nodes, level, out, p, m);
      }
      assert !Covered(nodes, level, y, x);
      assert !Peers(nodes, level, y, x);
    }
  }

  lemma StableIsUncrossed(nodes: seq<Node>, level: string -> nat, out: seq<string>)
    requires Sorted(nodes, out) && IsLevel(nodes, level) && StableUpTo(nodes, level, out, |out|)
    ensures Uncrossed(nodes, level)
  {
    forall x, y | Peers(nodes, level, x, y) ensures Covered(nodes, level, x, y) {
      var i :| 0 <= i < |out| && out[i] == x;
      var j :| 0 <= j < |out| && out[j] == y;
      assert j < i ==> StablePair(nodes, level, out, j, i);
      StableCovers(nodes, level, out, i, j);
    }
  }

  lemma StableCovers(nodes: seq<Node>, level: string -> nat, out: seq<string>, i: nat, j: nat)
    requires Sorted(nodes, out) && IsLevel(nodes, level) && StableUpTo(nodes, level, out, |out|)
    requires i < j < |out| && level(out[i]) == level(out[j])
    ensures Covered(nodes, level, out[i], out[j])
  {
    var x, y, m := out[i], out[j], Last(nodes, out, j);
    LastIsBelow(nodes, level, out, j);
    LastFacts(nodes, out, i);
    EmittedByLast(nodes, out, i, j);
    forall d | d in DepsOf(nodes, x) && level(d) + 1 == level(x) && HasId(nodes, d)
      ensures exists e :: e in DepsOf(nodes, y) && level(e) + 1 == level(y) && HasId(nodes, e)
                       && InputIndex(nodes, d) <= InputIndex(nodes, e)
    {
      var p :| 0 <= p < |out| && out[p] == d;
      assert p <= m;
      assert p < m ==> StablePair(nodes, level, out, p, m);
      assert HasId(nodes, out[m]) && out[m] in DepsOf(nodes, y);
    }
  }

  /**
   The sort is stable on input order within each level if and only if the plan's
   dependencies on the level below are not crossed.
   */
  lemma StableExactly(nodes: seq<Node>, level: string -> nat)
    requires DistinctIds(nodes) && Order(nodes).Some? && IsLevel(nodes, level)
    ensures var out := Order(nodes).value;
      Known(nodes, out) && (StableUpTo(nodes, level, out, |out|) <==> Uncrossed(nodes, level))
  {
    var out := Order(nodes).value;
    SortIsSorted(nodes);
    if Uncrossed(nodes, level) {
      UncrossedIsStable(nodes, level, out, |out|);
    }
    if StableUpTo(nodes, level, out, |out|) {
      StableIsUncrossed(nodes, level, out);
    }
  }

  // ----- every sortable plan has levels

  ghost function Depth(nodes: seq<Node>, out: seq<string>, i: nat): nat
    requires Sorted(nodes, out) && i < |out|
    decreases i
  {
    LastFacts(nodes, out, i);
    if Last(nodes, out, i) < 0 then 0 else Depth(nodes, out, Last(nodes, out, i)) + 1
  }

  lemma {:induction false} DepthRises(nodes: seq<Node>, out: seq<string>, i: nat, j: nat)
    requires Sorted(nodes, out) && i <= j < |out|
    ensures Depth(nodes, out, i) <= Depth(nodes, out, j)
    decreases j
  {
    if i < j {
      LastFacts(nodes, out, i);
      LastFacts(nodes, out, j);
      EmittedByLast(nodes, out, i, j);
      if Last(nodes, out, i) >= 0 {
        DepthRises(nodes, out, Last(nodes, out, i), Last(nodes, out, j));
      }
    }
  }

  ghost function LevelIn(nodes: seq<Node>, out: seq<string>, x: string): nat
    requires Sorted(nodes, out)
  {
    if x in out then var i :| 0 <= i < |out| && out[i] == x; Depth(nodes, out, i) else 0
  }

  lemma LevelsExist(nodes: seq<Node>)
    requires DistinctIds(nodes) && Order(nodes).Some?
    ensures exists level: string -> nat :: IsLevel(nodes, level)
  {
    SortIsSorted(nodes);
    var out := Order(nodes).value;
    var level: string -> nat := x => LevelIn(nodes, out, x);
    forall x | HasId(nodes, x) ensures LevelAt(nodes, level, x) {
      var i :| 0 <= i < |out| && out[i] == x;
      DepthIsLevel(nodes, out, i);
    }
    assert IsLevel(nodes, level);
  }

  lemma DepthIsLevel(nodes: seq<Node>, out: seq<string>, i: nat)
    requires Sorted(nodes, out) && i < |out|
    ensures var x := out[i];
      && (DepsOf(nodes, x) == [] ==> LevelIn(nodes, out, x) == 0)
      && (forall d :: d in DepsOf(nodes, x) ==> LevelIn(nodes, out, d) < LevelIn(nodes, out, x))
      && (DepsOf(nodes, x) != [] ==>
           exists d :: d in DepsOf(nodes, x) && LevelIn(nodes, out, d) + 1 == LevelIn(nodes, out, x))
  {
    var x, k := out[i], Last(nodes, out, i);
    LastFacts(nodes, out, i);
    LevelAtPlace(nodes, out, i);
    forall d | d in DepsOf(nodes, x) ensures LevelIn(nodes, out, d) < LevelIn(nodes, out, x) {
      assert d in out[..i];
      var p :| 0 <= p < i && out[p] == d;
      DepthRises(nodes, out, p, k);
      LevelAtPlace(nodes, out, p);
    }
    if k >= 0 {
      LevelAtPlace(nodes, out, k);
    }
  }

  lemma LevelAtPlace(nodes: seq<Node>, out: seq<string>, i: nat)
    requires Sorted(nodes, out) && i < |out|
    ensures LevelIn(nodes, out, out[i]) == Depth(nodes, out, i)
  {
    assert forall j :: 0 <= j < |out| && out[j] == out[i] ==> j == i by {
      forall j | 0 <= j < |out| && out[j] == out[i] ensures j == i {
        OnePlace(nodes, out, i, j);
      }
    }
  }
}
