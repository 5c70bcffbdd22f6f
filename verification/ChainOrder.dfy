/** The order of the tasks within a chain: depth first, and siblings as in the plan. */
module ChainOrder {
  import opened Common
  import opened Plan
  import opened Graph
  import opened Kahn
  import opened TopoSort
  import opened Chains

  lemma {:induction false} AboveIsTransitive(nodes: seq<Node>, order: seq<string>, a: string, b: string, x: string)
    requires Forest(nodes, order) && b in order && x in order && Above(nodes, order, a, b) && Above(nodes, order, b, x)
    ensures Above(nodes, order, a, x)
    decreases IndexIn(order, x)
  {
    if b != x {
      DependencyIsEarlier(nodes, order, x);
      AboveIsTransitive(nodes, order, a, b, DepsOf(nodes, x)[0]);
    }
  }

  /** Every task of a chain is in the plan and lies below the chain's root. */
  lemma InSubtree(nodes: seq<Node>, order: seq<string>, id: string, j: nat)
    requires Forest(nodes, order) && id in order && j < |Subtree(nodes, order, id)|
    ensures var x := Subtree(nodes, order, id)[j]; x in order && HasId(nodes, x) && Above(nodes, order, id, x)
  {
    SubtreeFollows(nodes, order, id, j);
    ChainMembers(nodes, order, id, Subtree(nodes, order, id)[j]);
  }

  /** Every task in the visits of the first k children lies below one of them. */
  lemma InBelow(nodes: seq<Node>, order: seq<string>, id: string, k: nat, j: nat)
    requires Forest(nodes, order) && id in order && k <= |Children(nodes, id)| && j < |Below(nodes, order, id, k)|
    ensures var x := Below(nodes, order, id, k)[j];
      x in order && HasId(nodes, x) && AboveSome(nodes, order, Children(nodes, id)[..k], x)
  {
    var b := Below(nodes, order, id, k);
    BelowFollows(nodes, order, id, k, j);
    assert ([id] + b)[j + 1] == b[j];
    BelowCount(nodes, order, id, k, b[j]);
    CountZero(b, b[j]);
  }

  /** Position j of the first k visits is in the earlier ones or at this place of the last one. */
  lemma BelowParts(nodes: seq<Node>, order: seq<string>, id: string, k: nat, j: nat)
    requires Forest(nodes, order) && id in order && 0 < k <= |Children(nodes, id)| && j < |Below(nodes, order, id, k)|
    ensures var c, n := Children(nodes, id)[k - 1], |Below(nodes, order, id, k - 1)|;
      && c in order && IndexIn(order, id) < IndexIn(order, c)
      && (if j < n then Below(nodes, order, id, k)[j] == Below(nodes, order, id, k - 1)[j]
          else j - n < |Subtree(nodes, order, c)| && Below(nodes, order, id, k)[j] == Subtree(nodes, order, c)[j - n])
  {
    ChildFacts(nodes, order, id, Children(nodes, id)[k - 1]);
  }

  /** A later child is not below an earlier one, nor is anything below both. */
  lemma ChildrenAreApart(nodes: seq<Node>, order: seq<string>, id: string, k: nat, c: string, x: string)
    requires Forest(nodes, order) && id in order && k < |Children(nodes, id)| && c in Children(nodes, id)[..k]
    requires x in order
    ensures c in order && Children(nodes, id)[k] in order
    ensures !(Above(nodes, order, c, x) && Above(nodes, order, Children(nodes, id)[k], x))
    ensures !Above(nodes, order, c, id)
  {
    var d := Children(nodes, id)[k];
    ChildFacts(nodes, order, id, c);
    ChildFacts(nodes, order, id, d);
    PickHasNoRepeats(nodes, (n: Node) => n.dependsOn == [id], k);
    if Above(nodes, order, c, x) && Above(nodes, order, d, x) {
      SiblingsAreDisjoint(nodes, order, c, d, x);
    }
    if Above(nodes, order, c, id) {
      AboveIsEarlier(nodes, order, c, id);
    }
  }

  // ----- depth first

  /** If a task of the chain lies above a later one, it lies above everything between the two. */
  lemma {:induction false} SubtreeIsDepthFirst(nodes: seq<Node>, order: seq<string>, id: string, i: nat, j: nat, k: nat)
    requires Forest(nodes, order) && id in order && i <= j <= k < |Subtree(nodes, order, id)|
    ensures var s := Subtree(nodes, order, id);
      && s[j] in order && s[k] in order
      && (Above(nodes, order, s[i], s[k]) ==> Above(nodes, order, s[i], s[j]))
    decreases |order| - IndexIn(order, id), |Children(nodes, id)| + 1
  {
    InSubtree(nodes, order, id, j);
    InSubtree(nodes, order, id, k);
    if i > 0 {
      BelowIsDepthFirst(nodes, order, id, |Children(nodes, id)|, i - 1, j - 1, k - 1);
    }
  }

  lemma {:induction false} BelowIsDepthFirst(nodes: seq<Node>, order: seq<string>, id: string, n: nat,
                                             i: nat, j: nat, k: nat)
    requires Forest(nodes, order) && id in order && n <= |Children(nodes, id)|
    requires i <= j <= k < |Below(nodes, order, id, n)|
    ensures var s := Below(nodes, order, id, n);
      && s[j] in order && s[k] in order
      && (Above(nodes, order, s[i], s[k]) ==> Above(nodes, order, s[i], s[j]))
    decreases |order| - IndexIn(order, id), n
  {
    var front := |Below(nodes, order, id, n - 1)|;
    var c := Children(nodes, id)[n - 1];
    BelowParts(nodes, order, id, n, i);
    BelowParts(nodes, order, id, n, j);
    BelowParts(nodes, order, id, n, k);
    if k < front {
      BelowIsDepthFirst(nodes, order, id, n - 1, i, j, k);
    } else if i >= front {
      SubtreeIsDepthFirst(nodes, order, c, i - front, j - front, k - front);
    } else {
      var s := Below(nodes, order, id, n);
      InBelow(nodes, order, id, n, j);
      InSubtree(nodes, order, c, k - front);
      InBelow(nodes, order, id, n - 1, i);
      LeftOf(nodes, order, id, n - 1, s[i], s[k]);
    }
  }

  /** Nothing below an earlier child lies above anything below a later one. */
  lemma LeftOf(nodes: seq<Node>, order: seq<string>, id: string, k: nat, x: string, y: string)
    requires Forest(nodes, order) && id in order && k < |Children(nodes, id)|
    requires x in order && AboveSome(nodes, order, Children(nodes, id)[..k], x)
    requires y in order && Above(nodes, order, Children(nodes, id)[k], y)
    ensures !Above(nodes, order, x, y)
  {
    var c :| c in Children(nodes, id)[..k] && Above(nodes, order, c, x);
    ChildrenAreApart(nodes, order, id, k, c, y);
    if Above(nodes, order, x, y) {
      AboveIsTransitive(nodes, order, c, x, y);
    }
  }

  // ----- siblings

  /** Tasks below different children that have the same dependency are those children. */
  lemma CrossSiblings(nodes: seq<Node>, order: seq<string>, id: string, k: nat, c: string, x: string, y: string)
    requires Forest(nodes, order) && id in order && k < |Children(nodes, id)| && c in Children(nodes, id)[..k]
    requires x in order && y in order && DepsOf(nodes, x) == DepsOf(nodes, y)
    requires Above(nodes, order, c, x) && Above(nodes, order, Children(nodes, id)[k], y)
    ensures x == c && y == Children(nodes, id)[k]
  {
    var e := Children(nodes, id)[k];
    ChildFacts(nodes, order, id, c);
    ChildFacts(nodes, order, id, e);
    ChildrenAreApart(nodes, order, id, k, c, id);
    assert !Above(nodes, order, e, id) by {
      if Above(nodes, order, e, id) {
        AboveIsEarlier(nodes, order, e, id);
      }
    }
    if x != c || y != e {
      var d := DepsOf(nodes, x)[0];
      DependencyIsEarlier(nodes, order, x);
      ChildrenAreApart(nodes, order, id, k, c, d);
    }
  }

  /** Tasks of a chain with the same dependency come in the order of the plan. */
  lemma {:induction false} SubtreeKeepsOrder(nodes: seq<Node>, order: seq<string>, id: string, i: nat, j: nat)
    requires Forest(nodes, order) && id in order && i < j < |Subtree(nodes, order, id)|
    ensures InPlanOrder(nodes, Subtree(nodes, order, id)[i], Subtree(nodes, order, id)[j])
    decreases |order| - IndexIn(order, id), |Children(nodes, id)| + 1
  {
    if i > 0 {
      BelowKeepsOrder(nodes, order, id, |Children(nodes, id)|, i - 1, j - 1);
    } else {
      RootHasNoSibling(nodes, order, id, j);
    }
  }

  ghost predicate InPlanOrder(nodes: seq<Node>, x: string, y: string) {
    HasId(nodes, x) && HasId(nodes, y) &&
      (DepsOf(nodes, x) == DepsOf(nodes, y) ==> InputIndex(nodes, x) < InputIndex(nodes, y))
  }

  lemma RootHasNoSibling(nodes: seq<Node>, order: seq<string>, id: string, j: nat)
    requires Forest(nodes, order) && id in order && 0 < j < |Subtree(nodes, order, id)|
    ensures InPlanOrder(nodes, id, Subtree(nodes, order, id)[j])
  {
    var s := Subtree(nodes, order, id);
    SubtreeFollows(nodes, order, id, j);
    var i :| 0 <= i < j && DepsOf(nodes, s[j]) == [s[i]];
    InSubtree(nodes, order, id, i);
    AboveIsEarlier(nodes, order, id, s[i]);
    if DepsOf(nodes, id) != [] {
      DependencyIsEarlier(nodes, order, id);
    }
  }

  lemma {:induction false} BelowKeepsOrder(nodes: seq<Node>, order: seq<string>, id: string, n: nat, i: nat, j: nat)
    requires Forest(nodes, order) && id in order && n <= |Children(nodes, id)| && i < j < |Below(nodes, order, id, n)|
    ensures InPlanOrder(nodes, Below(nodes, order, id, n)[i], Below(nodes, order, id, n)[j])
    decreases |order| - IndexIn(order, id), n
  {
    var front := |Below(nodes, order, id, n - 1)|;
    var c := Children(nodes, id)[n - 1];
    BelowParts(nodes, order, id, n, i);
    BelowParts(nodes, order, id, n, j);
    if j < front {
      BelowKeepsOrder(nodes, order, id, n - 1, i, j);
    } else if i >= front {
      SubtreeKeepsOrder(nodes, order, c, i - front, j - front);
    } else {
      InBelow(nodes, order, id, n - 1, i);
      InSubtree(nodes, order, c, j - front);
      AcrossChildren(nodes, order, id, n - 1, Below(nodes, order, id, n)[i], Below(nodes, order, id, n)[j]);
    }
  }

  lemma AcrossChildren(nodes: seq<Node>, order: seq<string>, id: string, k: nat, x: string, y: string)
    requires Forest(nodes, order) && id in order && k < |Children(nodes, id)|
    requires x in order && AboveSome(nodes, order, Children(nodes, id)[..k], x)
    requires y in order && Above(nodes, order, Children(nodes, id)[k], y)
    ensures InPlanOrder(nodes, x, y)
  {
    var c :| c in Children(nodes, id)[..k] && Above(nodes, order, c, x);
    if DepsOf(nodes, x) == DepsOf(nodes, y) {
      CrossSiblings(nodes, order, id, k, c, x, y);
      PickIncreasing(nodes, (n: Node) => n.dependsOn == [id]);
    }
  }

  /**
   The order of a chain is fixed by the plan: it starts at its root, a task is followed by
   everything below it before anything else, and tasks with the same dependency come in
   the order of the plan, as do the chains themselves.
   */
  lemma ChainIsPreorder(plan: seq<Node>, order: seq<string>, agents: seq<string>, specs: seq<ChainSpec>, c: nat)
    requires Forest(plan, order) && IsDecomposition(plan, order, agents, specs) && c < |specs|
    ensures var s := NodeIds(specs[c].nodes);
      && (forall i, j :: 0 <= i < j < |s| ==> InPlanOrder(plan, s[i], s[j]))
      && (forall k :: 0 <= k < |s| ==> s[k] in order)
      && (forall i, j, k :: 0 <= i <= j <= k < |s| && Above(plan, order, s[i], s[k]) ==> Above(plan, order, s[i], s[j]))
    ensures forall b :: 0 <= b < c ==> InPlanOrder(plan, specs[b].root, specs[c].root)
  {
    var s, root := NodeIds(specs[c].nodes), Seeds(plan)[c];
    assert s == Subtree(plan, order, root);
    forall i, j | 0 <= i < j < |s| ensures InPlanOrder(plan, s[i], s[j]) {
      SubtreeKeepsOrder(plan, order, root, i, j);
    }
    forall k | 0 <= k < |s| ensures s[k] in order {
      InSubtree(plan, order, root, k);
    }
    forall i, j, k | 0 <= i <= j <= k < |s| && Above(plan, order, s[i], s[k]) ensures Above(plan, order, s[i], s[j]) {
      SubtreeIsDepthFirst(plan, order, root, i, j, k);
    }
    PickIncreasing(plan, (n: Node) => n.dependsOn == []);
  }
}
