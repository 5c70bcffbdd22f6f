/**
 The order of the admission queue, and a binary heap in that order on plain
 sequences. A heap under repair has one hole: an element that may be wrong towards
 its parent, or towards its children. Each exchange of a sift moves the hole one
 level up or down until it is gone.
 */
module HeapOrder {

  /** Run ids are fresh opaque tokens; only their identity matters. */
  type RunID = nat

  datatype Key = Key(runID: RunID, priority: int, submitSeq: nat)

  /** Higher priority first, then earlier submission. */
  predicate Before(a: Key, b: Key) {
    if a.priority != b.priority then a.priority > b.priority else a.submitSeq < b.submitSeq
  }

  predicate Leq(a: Key, b: Key) {
    !Before(b, a)
  }

  function Parent(c: int): int
    requires c > 0
  {
    (c - 1) / 2
  }

  /** The edge from c to its parent respects the order. */
  predicate EdgeOk(ks: seq<Key>, c: int)
    requires 0 < c < |ks|
  {
    Leq(ks[Parent(c)], ks[c])
  }

  predicate IsHeap(ks: seq<Key>, n: int)
    requires n <= |ks|
  {
    forall c :: 0 < c < n ==> EdgeOk(ks, c)
  }

  /** Only the edge above j may be wrong; j's children are already right with j's parent. */
  predicate HoleAbove(ks: seq<Key>, n: int, j: int)
    requires 0 <= j < n <= |ks|
  {
    && (forall c :: 0 < c < n && c != j ==> EdgeOk(ks, c))
    && (forall c :: 0 < c < n && Parent(c) == j && j > 0 ==> Leq(ks[Parent(j)], ks[c]))
  }

  /** Only the edges around i may be wrong; i's children are already right with i's parent. */
  predicate HoleAt(ks: seq<Key>, n: int, i: int)
    requires 0 <= i < n <= |ks|
  {
    && (forall c :: 0 < c < n && c != i && Parent(c) != i ==> EdgeOk(ks, c))
    && (forall c :: 0 < c < n && Parent(c) == i && i > 0 ==> Leq(ks[Parent(i)], ks[c]))
  }

  function Swapped(ks: seq<Key>, i: int, j: int): seq<Key>
    requires 0 <= i < |ks| && 0 <= j < |ks|
  {
    ks[i := ks[j]][j := ks[i]]
  }

  /** Moving j above its parent moves the hole up. */
  lemma SwapUp(ks: seq<Key>, n: int, j: int)
    requires 0 < j < n <= |ks| && HoleAbove(ks, n, j) && Before(ks[j], ks[Parent(j)])
    ensures HoleAbove(Swapped(ks, Parent(j), j), n, Parent(j))
  {
    var i, t := Parent(j), Swapped(ks, Parent(j), j);
    forall c | 0 < c < n && c != i
      ensures EdgeOk(t, c)
    {
      if c != j {
        assert EdgeOk(ks, c);
        if Parent(c) == i { assert t[c] == ks[c] && t[i] == ks[j]; }
      }
    }
    forall c | 0 < c < n && Parent(c) == i && i > 0
      ensures Leq(t[Parent(i)], t[c])
    {
      assert EdgeOk(ks, i);
      if c != j { assert EdgeOk(ks, c); }
    }
  }

  /** A hole whose element respects its parent is closed. */
  lemma UpDone(ks: seq<Key>, n: int, j: int)
    requires 0 <= j < n <= |ks| && HoleAbove(ks, n, j) && (j > 0 ==> EdgeOk(ks, j))
    ensures IsHeap(ks, n)
  {
  }

  /** j is a first child of i in the queue order. */
  predicate BestChild(ks: seq<Key>, n: int, i: int, j: int)
    requires 0 <= i < n <= |ks|
  {
    0 < j < n && Parent(j) == i && forall c :: 0 < c < n && Parent(c) == i ==> Leq(ks[j], ks[c])
  }

  /** Moving i below its first child moves the hole down and repairs the edge above it. */
  lemma SwapDown(ks: seq<Key>, n: int, i: int, j: int)
    requires 0 <= i < n <= |ks| && HoleAt(ks, n, i) && BestChild(ks, n, i, j) && Before(ks[j], ks[i])
    ensures var t := Swapped(ks, i, j); HoleAt(t, n, j) && EdgeOk(t, j) && (i > 0 ==> EdgeOk(t, i))
  {
    var t := Swapped(ks, i, j);
    forall c | 0 < c < n && c != j && Parent(c) != j
      ensures EdgeOk(t, c)
    {
      if c != i && Parent(c) != i { assert EdgeOk(ks, c); }
    }
    forall c | 0 < c < n && Parent(c) == j
      ensures Leq(t[Parent(j)], t[c])
    {
      assert EdgeOk(ks, c);
    }
  }

  /** An element no later than any of its children: only the edge above it can be wrong. */
  lemma DownDone(ks: seq<Key>, n: int, i: int)
    requires 0 <= i < n <= |ks| && HoleAt(ks, n, i)
    requires forall c :: 0 < c < n && Parent(c) == i ==> Leq(ks[i], ks[c])
    ensures HoleAbove(ks, n, i)
  {
    forall c | 0 < c < n && c != i
      ensures EdgeOk(ks, c)
    {
      if Parent(c) == i { assert Leq(ks[i], ks[c]); }
    }
  }

  /** The children of i are 2i+1 and 2i+2. */
  lemma ChildIndex(i: int, c: int)
    requires i >= 0 && c > 0
    ensures Parent(c) == i <==> c == 2 * i + 1 || c == 2 * i + 2
  {
  }

  /** The root of a heap comes before everything in it. */
  lemma {:induction false} RootIsFirst(ks: seq<Key>, n: int, c: int)
    requires 0 <= c < n <= |ks| && IsHeap(ks, n)
    ensures Leq(ks[0], ks[c])
    decreases c
  {
    if c > 0 {
      assert EdgeOk(ks, c);
      RootIsFirst(ks, n, Parent(c));
    }
  }

  /** The child a downward sift compares with: the left one unless the right one comes before it. */
  function Preferred(ks: seq<Key>, n: int, i: int): int
    requires 0 <= i && 2 * i + 1 < n <= |ks|
  {
    if 2 * i + 2 < n && Before(ks[2 * i + 2], ks[2 * i + 1]) then 2 * i + 2 else 2 * i + 1
  }

  lemma PreferredIsBest(ks: seq<Key>, n: int, i: int)
    requires 0 <= i && 2 * i + 1 < n <= |ks|
    ensures BestChild(ks, n, i, Preferred(ks, n, i))
  {
    forall c | c > 0 { ChildIndex(i, c); }
  }

  /** A downward sift may stop: there is no child, or the preferred one is not earlier. */
  lemma StopDown(ks: seq<Key>, n: int, i: int)
    requires 0 <= i < n <= |ks| && HoleAt(ks, n, i)
    requires 2 * i + 1 < n ==> !Before(ks[Preferred(ks, n, i)], ks[i])
    ensures HoleAbove(ks, n, i)
  {
    forall c | 0 < c < n && Parent(c) == i
      ensures Leq(ks[i], ks[c])
    {
      ChildIndex(i, c);
      PreferredIsBest(ks, n, i);
    }
    DownDone(ks, n, i);
  }

  /** Where the downward sift has stopped: if it moved the heap is whole, and otherwise only the edge above is open. */
  lemma DownEnds(ks: seq<Key>, n: int, start: int, i: int)
    requires 0 <= start <= i < n <= |ks| && HoleAt(ks, n, i) && (i > start ==> EdgeOk(ks, i))
    requires 2 * i + 1 < n ==> !Before(ks[Preferred(ks, n, i)], ks[i])
    ensures if i > start then IsHeap(ks, n) else HoleAbove(ks, n, start)
  {
    StopDown(ks, n, i);
    if i > start {
      UpDone(ks, n, i);
    }
  }

  /** Changing the element at i of a heap leaves a hole there. */
  lemma ReplaceMakesHole(ks: seq<Key>, n: int, i: int, k: Key)
    requires 0 <= i < n <= |ks| && IsHeap(ks, n)
    ensures HoleAt(ks[i := k], n, i)
  {
    var t := ks[i := k];
    forall c | 0 < c < n && c != i && Parent(c) != i
      ensures EdgeOk(t, c)
    {
      assert EdgeOk(ks, c);
    }
    forall c | 0 < c < n && Parent(c) == i && i > 0
      ensures Leq(t[Parent(i)], t[c])
    {
      assert EdgeOk(ks, c) && EdgeOk(ks, i);
    }
  }

  /** Taking position i out by swapping it with the last element leaves a hole at i. */
  lemma RemovalMakesHole(ks: seq<Key>, i: int)
    requires 0 <= i < |ks| - 1 && IsHeap(ks, |ks|)
    ensures HoleAt(Swapped(ks, i, |ks| - 1), |ks| - 1, i)
  {
    var n := |ks| - 1;
    assert forall c :: 0 < c < n ==> EdgeOk(ks, c);
    ReplaceMakesHole(ks, n, i, ks[n]);
    var t, u := ks[i := ks[n]], Swapped(ks, i, n);
    assert forall c :: 0 <= c < n ==> t[c] == u[c];
    forall c | 0 < c < n && c != i && Parent(c) != i
      ensures EdgeOk(u, c)
    {
      assert EdgeOk(t, c);
    }
  }

  /** A new last element can only be wrong with its parent. */
  lemma AppendMakesHole(ks: seq<Key>, k: Key)
    requires IsHeap(ks, |ks|)
    ensures HoleAbove(ks + [k], |ks| + 1, |ks|)
  {
    var t := ks + [k];
    forall c | 0 < c < |t| && c != |ks|
      ensures EdgeOk(t, c)
    {
      assert EdgeOk(ks, c);
    }
  }

  /** A prefix of a heap is a heap, whatever follows it. */
  lemma PrefixIsHeap(ks: seq<Key>, n: int)
    requires 0 <= n <= |ks| && IsHeap(ks, n)
    ensures IsHeap(ks[..n], n)
  {
    forall c | 0 < c < n
      ensures EdgeOk(ks[..n], c)
    {
      assert EdgeOk(ks, c);
    }
  }

  /** The queued keys that leave before k if nothing else happens. */
  function Ahead(ks: set<Key>, k: Key): set<Key> {
    set x | x in ks && (x.priority > k.priority || (x.priority == k.priority && x.submitSeq < k.submitSeq))
  }

  /** A new key has the keys of no lower priority ahead of it. */
  lemma AheadOfNew(ks: set<Key>, k: Key)
    requires forall x :: x in ks ==> x.submitSeq < k.submitSeq
    ensures Ahead(ks + {k}, k) == set x | x in ks && x.priority >= k.priority
  {
  }

  /** The keys are split into those already popped and those left, popped ones coming first. */
  ghost predicate Drained(all: set<Key>, popped: set<Key>, left: set<Key>) {
    && all == popped + left && popped !! left
    && forall p, k :: p in popped && k in left ==> Before(p, k)
  }

  lemma DrainStep(all: set<Key>, popped: set<Key>, left: set<Key>, k: Key)
    requires Drained(all, popped, left) && k in left
    requires forall j :: j in left && j != k ==> Before(k, j)
    ensures Drained(all, popped + {k}, left - {k})
    ensures Ahead(all, k) == popped
  {
    forall x | x in all
      ensures x in Ahead(all, k) <==> x in popped
    {
      if x in left && x != k { assert Before(k, x); }
    }
  }
}
