/**
 The priority queue of internal/scheduler/queue.go: a binary heap of entries that
 know their own position. The sift operations are those of Go's container/heap.
 */
module Queue {
  import opened HeapOrder

  class Entry {
    const runID: RunID
    const priority: int
    const submitSeq: nat
    const enqueued: int
    var running: bool
    var index: int

    constructor (runID: RunID, priority: int, submitSeq: nat, enqueued: int)
      ensures this.runID == runID && this.priority == priority && this.submitSeq == submitSeq
      ensures this.enqueued == enqueued && !running && index == 0
    {
      this.runID, this.priority, this.submitSeq, this.enqueued := runID, priority, submitSeq, enqueued;
      running, index := false, 0;
    }

    function Key(): Key {
      HeapOrder.Key(runID, priority, submitSeq)
    }
  }

  function KeysOf(es: seq<Entry>): (ks: seq<Key>)
    ensures |ks| == |es| && forall i :: 0 <= i < |es| ==> ks[i] == es[i].Key()
  {
    seq(|es|, i requires 0 <= i < |es| => es[i].Key())
  }

  ghost function KeySet(es: set<Entry>): set<Key> {
    set e | e in es :: e.Key()
  }

  ghost predicate DistinctSeqs(es: seq<Entry>) {
    forall i, j :: 0 <= i < j < |es| ==> es[i].submitSeq != es[j].submitSeq
  }

  ghost predicate SameEntries(a: seq<Entry>, b: seq<Entry>) {
    |a| == |b| && (forall x :: x in a ==> x in b) && (forall x :: x in b ==> x in a)
  }

  function SwapItems(es: seq<Entry>, i: int, j: int): seq<Entry>
    requires 0 <= i < |es| && 0 <= j < |es|
  {
    es[i := es[j]][j := es[i]]
  }

  lemma SwapFacts(es: seq<Entry>, i: int, j: int)
    requires 0 <= i < |es| && 0 <= j < |es|
    ensures SameEntries(es, SwapItems(es, i, j))
    ensures KeysOf(SwapItems(es, i, j)) == Swapped(KeysOf(es), i, j)
    ensures DistinctSeqs(es) ==> DistinctSeqs(SwapItems(es, i, j))
  {
    var t := SwapItems(es, i, j);
    forall x | x in es ensures x in t {
      var k :| 0 <= k < |es| && es[k] == x;
      assert t[if k == i then j else if k == j then i else k] == x;
    }
    assert KeysOf(t) == Swapped(KeysOf(es), i, j);
  }

  /** What the sifts keep while they work on the first n positions. */
  ghost predicate Rearranged(was: seq<Entry>, es: seq<Entry>, n: int)
    requires 0 <= n <= |was|
  {
    SameEntries(was, es) && es[n..] == was[n..] && DistinctSeqs(es)
  }

  lemma SwapRearranges(was: seq<Entry>, es: seq<Entry>, n: int, i: int, j: int)
    requires 0 <= n <= |was| && Rearranged(was, es, n) && 0 <= i < n && 0 <= j < n
    ensures Rearranged(was, SwapItems(es, i, j), n)
    ensures KeysOf(SwapItems(es, i, j)) == Swapped(KeysOf(es), i, j)
  {
    SwapFacts(es, i, j);
    assert SwapItems(es, i, j)[n..] == es[n..];
  }

  class PQ {
    var items: seq<Entry>
    ghost var entries: set<Entry>   // the queued entries, without their positions

    constructor ()
      ensures Valid() && items == [] && entries == {}
    {
      items, entries := [], {};
    }

    ghost predicate Indexed()
      reads this, items
    {
      forall i :: 0 <= i < |items| ==> items[i].index == i
    }

    ghost predicate Valid()
      reads this, items
    {
      Indexed() && IsHeap(KeysOf(items), |items|) && DistinctSeqs(items) && Covers()
    }

    ghost predicate Covers()
      reads this
    {
      (forall e :: e in items ==> e in entries) && (forall e :: e in entries ==> e in items)
    }

    /** The queued keys. */
    ghost function Contents(): set<Key>
      reads this
    {
      KeySet(entries)
    }

    predicate Less(i: int, j: int)
      requires 0 <= i < |items| && 0 <= j < |items|
      reads this
    {
      Before(items[i].Key(), items[j].Key())
    }

    method Swap(i: int, j: int)
      requires Indexed() && 0 <= i < |items| && 0 <= j < |items|
      modifies `items, (set e | e in items)`index
      ensures Indexed() && items == SwapItems(old(items), i, j)
    {
      items := items[i := items[j]][j := items[i]];
      items[i].index := i;
      items[j].index := j;
    }

    /** One exchange of a sift: the entries stay, the keys are exchanged. */
    method Exchange(ghost was: seq<Entry>, ghost n: int, i: int, j: int)
      requires Indexed() && 0 <= n <= |was| && Rearranged(was, items, n) && 0 <= i < n && 0 <= j < n
      modifies `items, (set e | e in items)`index
      ensures Indexed() && Rearranged(was, items, n) && |items| == |old(items)|
      ensures KeysOf(items) == Swapped(KeysOf(old(items)), i, j)
      ensures forall e :: e in items <==> e in old(items)
    {
      SwapRearranges(was, items, n, i, j);
      SwapFacts(items, i, j);
      Swap(i, j);
    }

    method Up(j0: int, ghost n: int)
      requires Indexed() && DistinctSeqs(items) && 0 <= j0 < n <= |items| && HoleAbove(KeysOf(items), n, j0)
      modifies `items, (set e | e in items)`index
      ensures Rearranged(old(items), items, n) && Indexed() && IsHeap(KeysOf(items), n)
    {
      var j := j0;
      while true
        invariant Rearranged(old(items), items, n) && Indexed()
        invariant 0 <= j < n <= |items|
        invariant HoleAbove(KeysOf(items), n, j)
        decreases j
      {
        var i := if j == 0 then 0 else (j - 1) / 2;
        if i == j || !Less(j, i) {
          break;
        }
        SwapUp(KeysOf(items), n, j);
        Exchange(old(items), n, i, j);
        j := i;
      }
      UpDone(KeysOf(items), n, j);
    }

    /** The child of i that comes first in the queue order. */
    method FirstChild(i: int, n: int) returns (j: int)
      requires 0 <= i && 2 * i + 1 < n <= |items|
      ensures j == Preferred(KeysOf(items), n, i)
    {
      j := 2 * i + 1;
      if j + 1 < n && Less(j + 1, j) {
        j := j + 1;
      }
    }

    /** One step of the downward sift: the hole moves from i to its first child j. */
    method Sink(ghost was: seq<Entry>, n: int, i: int, j: int)
      requires Indexed() && 0 <= n <= |was| && Rearranged(was, items, n)
      requires 0 <= i && 2 * i + 1 < n && HoleAt(KeysOf(items), n, i)
      requires j == Preferred(KeysOf(items), n, i) && Before(KeysOf(items)[j], KeysOf(items)[i])
      modifies `items, (set e | e in items)`index
      ensures Indexed() && Rearranged(was, items, n) && |items| == |old(items)|
      ensures HoleAt(KeysOf(items), n, j) && EdgeOk(KeysOf(items), j)
      ensures forall e :: e in items <==> e in old(items)
    {
      PreferredIsBest(KeysOf(items), n, i);
      SwapDown(KeysOf(items), n, i, j);
      Exchange(was, n, i, j);
    }

    method Down(i0: int, n: int) returns (moved: bool)
      requires Indexed() && DistinctSeqs(items) && 0 <= i0 < n <= |items| && HoleAt(KeysOf(items), n, i0)
      modifies `items, (set e | e in items)`index
      ensures Rearranged(old(items), items, n) && Indexed()
      ensures if moved then IsHeap(KeysOf(items), n) else HoleAbove(KeysOf(items), n, i0)
    {
      var i := i0;
      while 2 * i + 1 < n
        invariant Rearranged(old(items), items, n) && Indexed()
        invariant forall e :: e in items <==> e in old(items)
        invariant i0 <= i < n <= |items| == |old(items)|
        invariant HoleAt(KeysOf(items), n, i) && (i > i0 ==> EdgeOk(KeysOf(items), i))
        decreases n - i
      {
        var j := FirstChild(i, n);
        if !Less(j, i) {
          break;
        }
        Sink(old(items), n, i, j);
        i := j;
      }
      DownEnds(KeysOf(items), n, i0, i);
      return i > i0;
    }

    /** Drops the last position: the heap.Interface Pop. */
    method DropLast() returns (e: Entry)
      requires Indexed() && DistinctSeqs(items) && items != [] && IsHeap(KeysOf(items), |items| - 1)
      modifies this, entries`index
      requires Covers()
      ensures Valid() && e == old(items)[|old(items)| - 1] && |items| == |old(items)| - 1
      ensures e in old(entries) && entries == old(entries) - {e} && e.index == -1
    {
      var n := |items| - 1;
      e := items[n];
      assert forall i :: 0 <= i < n ==> items[i] != e;
      PrefixIsHeap(KeysOf(items), n);
      assert KeysOf(items[..n]) == KeysOf(items)[..n];
      e.index := -1;
      items := items[..n];
      entries := entries - {e};
    }

    /** heap.Push: the entry must be new to the queue and carry a new sequence number. */
    method Push(e: Entry)
      requires Valid() && e !in entries
      requires forall x :: x in entries ==> x.submitSeq != e.submitSeq
      modifies this, (entries + {e})`index
      ensures Valid() && entries == old(entries) + {e} && |items| == |old(items)| + 1
    {
      var n := |items|;
      AppendMakesHole(KeysOf(items), e.Key());
      assert KeysOf(items + [e]) == KeysOf(items) + [e.Key()];
      assert e in items + [e];
      e.index := n;
      items := items + [e];
      entries := entries + {e};
      Up(n, n + 1);
    }

    /** Down, and up when down did not move: closes a hole of either direction. */
    method Repair(i: int, n: int)
      requires Indexed() && DistinctSeqs(items) && 0 <= i < n <= |items| && HoleAt(KeysOf(items), n, i)
      modifies `items, (set e | e in items)`index
      ensures Rearranged(old(items), items, n) && Indexed() && IsHeap(KeysOf(items), n)
    {
      var moved := Down(i, n);
      if !moved {
        ghost var now := items;
        Up(i, n);
        assert forall x :: x in items ==> x in now;
      }
    }

    /** heap.Remove: takes the entry at position i out. */
    method RemoveAt(i: int) returns (e: Entry)
      requires Valid() && 0 <= i < |items|
      modifies this, entries`index
      ensures Valid() && e == old(items)[i] && |items| == |old(items)| - 1
      ensures e in old(entries) && entries == old(entries) - {e} && e.index == -1
    {
      var n := |items| - 1;
      ghost var was, target := items, items[i];
      if n != i {
        RemovalMakesHole(KeysOf(items), i);
        SwapFacts(items, i, n);
        Swap(i, n);
        ghost var swapped := items;
        Repair(i, n);
        assert items[n..] == swapped[n..];
        assert items[n] == items[n..][0] == swapped[n..][0] == target;
        assert SameEntries(was, items);
      }
      e := DropLast();
    }

    /** heap.Pop: the first entry in the queue order. */
    method Pop() returns (e: Entry)
      requires Valid() && items != []
      modifies this, entries`index
      ensures Valid() && |items| == |old(items)| - 1
      ensures e in old(entries) && entries == old(entries) - {e} && e.index == -1
      ensures forall x :: x in entries ==>
        x.priority < e.priority || (x.priority == e.priority && x.submitSeq > e.submitSeq)
    {
      FirstIsLeast(items);
      e := RemoveAt(0);
    }

    /** Takes out the entry with this run id; false when there is none. */
    method Remove(runID: RunID) returns (ok: bool)
      requires Valid()
      modifies this, entries`index
      ensures Valid()
      ensures !ok ==> entries == old(entries) && forall x :: x in entries ==> x.runID != runID
      ensures ok ==> exists e :: e in old(entries) && e.runID == runID && entries == old(entries) - {e}
    {
      for i := 0 to |items|
        invariant Valid() && items == old(items) && entries == old(entries)
        invariant forall k :: 0 <= k < i ==> items[k].runID != runID
      {
        if items[i].runID == runID {
          var e := RemoveAt(i);
          return true;
        }
      }
      return false;
    }

    /** A throwaway copy of the queue, entry by entry. */
    method Clone() returns (clone: PQ)
      requires Valid()
      ensures fresh(clone) && fresh(clone.entries)
      ensures clone.Valid() && clone.Contents() == Contents()
    {
      clone := new PQ();
      var copies: seq<Entry> := [];
      for i := 0 to |items|
        invariant |copies| == i && clone.items == []
        invariant fresh(set e | e in copies)
        invariant forall k :: 0 <= k < i ==> copies[k].Key() == items[k].Key() && copies[k].index == k
      {
        var e := items[i];
        var cp := new Entry(e.runID, e.priority, e.submitSeq, e.enqueued);
        cp.running, cp.index := e.running, e.index;
        copies := copies + [cp];
      }
      clone.items := copies;
      clone.entries := set e | e in copies;
      assert KeysOf(copies) == KeysOf(items);
      KeysAreContents(copies, clone.entries);
      KeysAreContents(items, entries);
    }

    /** Pops until the run comes up; consumes the queue. */
    method DrainTo(runID: RunID) returns (pos: int)
      requires Valid()
      modifies this, entries`index
      ensures pos == -1 <==> forall k :: k in old(Contents()) ==> k.runID != runID
      ensures pos != -1 ==> exists k :: IsPosition(old(Contents()), runID, k, pos)
    {
      var n := 0;
      ghost var all, popped: set<Key> := Contents(), {};
      while |items| > 0
        invariant Valid() && entries <= old(entries)
        invariant Drained(all, popped, Contents()) && |popped| == n
        invariant forall p :: p in popped ==> p.runID != runID
        decreases |items|
      {
        ghost var left := entries;
        var e := Pop();
        KeySetWithout(left, e);
        DrainStep(all, popped, KeySet(left), e.Key());
        if e.runID == runID {
          assert IsPosition(all, runID, e.Key(), n);
          return n;
        }
        popped := popped + {e.Key()};
        n := n + 1;
      }
      assert entries == {};
      return -1;
    }

    /**
     The position of a run: how many queued entries leave before it. The live queue and
     its entries are not touched (there is no modifies clause).
     */
    method PositionOf(runID: RunID) returns (pos: int)
      requires Valid()
      ensures pos == -1 <==> forall k :: k in Contents() ==> k.runID != runID
      ensures pos != -1 ==> exists k :: IsPosition(Contents(), runID, k, pos)
    {
      var clone := Clone();
      pos := clone.DrainTo(runID);
    }
  }

  /** k is the first queued entry of this run, and pos entries leave before it. */
  ghost predicate IsPosition(ks: set<Key>, runID: RunID, k: Key, pos: int) {
    && k in ks && k.runID == runID && pos == |Ahead(ks, k)|
    && forall j :: j in ks && j.runID == runID ==> j == k || Before(k, j)
  }

  lemma FirstIsLeast(es: seq<Entry>)
    requires es != [] && IsHeap(KeysOf(es), |es|) && DistinctSeqs(es)
    ensures forall x :: x in es && x != es[0] ==> Before(es[0].Key(), x.Key())
  {
    forall x | x in es && x != es[0]
      ensures Before(es[0].Key(), x.Key())
    {
      var k :| 0 <= k < |es| && es[k] == x;
      RootIsFirst(KeysOf(es), |es|, k);
    }
  }

  lemma KeySetWithout(es: set<Entry>, e: Entry)
    requires e in es
    requires forall x :: x in es && x != e ==>
      x.priority < e.priority || (x.priority == e.priority && x.submitSeq > e.submitSeq)
    ensures e.Key() in KeySet(es) && KeySet(es - {e}) == KeySet(es) - {e.Key()}
    ensures forall k :: k in KeySet(es) && k != e.Key() ==> Before(e.Key(), k)
  {
  }

  lemma KeysAreContents(es: seq<Entry>, members: set<Entry>)
    requires (forall e :: e in es ==> e in members) && (forall e :: e in members ==> e in es)
    ensures KeySet(members) == set k | k in KeysOf(es)
  {
    forall k | k in KeySet(members) ensures k in KeysOf(es) {
      var e :| e in members && e.Key() == k;
      var i :| 0 <= i < |es| && es[i] == e;
      assert KeysOf(es)[i] == k;
    }
    forall k | k in KeysOf(es) ensures k in KeySet(members) {
      var i :| 0 <= i < |es| && KeysOf(es)[i] == k;
      assert es[i] in es;
    }
  }
}
