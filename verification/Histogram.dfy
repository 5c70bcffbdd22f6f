/** The latency histogram of internal/metrics/metrics.go, with values and bounds as reals. */
module Histogram {
  predicate Increasing(buckets: seq<real>) {
    forall i, j :: 0 <= i < j < |buckets| ==> buckets[i] < buckets[j]
  }

  /** The plain meaning: how many of the observed values are at most b. */
  function AtMost(xs: seq<real>, b: real): nat {
    if xs == [] then 0 else AtMost(xs[..|xs| - 1], b) + if xs[|xs| - 1] <= b then 1 else 0
  }

  function Sum(xs: seq<real>): real {
    if xs == [] then 0.0 else Sum(xs[..|xs| - 1]) + xs[|xs| - 1]
  }

  /** The leftmost bucket whose bound is at least v, or the length. */
  ghost predicate IsSlot(buckets: seq<real>, v: real, i: nat) {
    && i <= |buckets|
    && (forall k :: 0 <= k < i ==> buckets[k] < v)
    && (forall k :: i <= k < |buckets| ==> v <= buckets[k])
  }

  /** The observed values that fall into bucket i alone. */
  function InBucket(buckets: seq<real>, xs: seq<real>, i: nat): nat
    requires i < |buckets|
  {
    if xs == [] then 0
    else
      var v := xs[|xs| - 1];
      InBucket(buckets, xs[..|xs| - 1], i) + if v <= buckets[i] && (i == 0 || buckets[i - 1] < v) then 1 else 0
  }

  /** A bucket holds what its bound admits and the bound before does not. */
  lemma {:induction false} BucketIsDifference(buckets: seq<real>, xs: seq<real>, i: nat)
    requires Increasing(buckets) && i < |buckets|
    ensures AtMost(xs, buckets[i]) == InBucket(buckets, xs, i) + if i == 0 then 0 else AtMost(xs, buckets[i - 1])
  {
    if xs != [] {
      BucketIsDifference(buckets, xs[..|xs| - 1], i);
      assert i > 0 ==> buckets[i - 1] < buckets[i];
    }
  }

  lemma {:induction false} AtMostMonotone(xs: seq<real>, b: real, c: real)
    requires b <= c
    ensures AtMost(xs, b) <= AtMost(xs, c) <= |xs|
  {
    if xs != [] {
      AtMostMonotone(xs[..|xs| - 1], b, c);
    }
  }

  /** Observing a value bumps its slot and no other. */
  lemma ObservedSlot(buckets: seq<real>, xs: seq<real>, v: real, slot: nat, i: nat)
    requires Increasing(buckets) && IsSlot(buckets, v, slot) && i < |buckets|
    ensures InBucket(buckets, xs + [v], i) == InBucket(buckets, xs, i) + if i == slot then 1 else 0
  {
    var ys := xs + [v];
    assert ys[..|ys| - 1] == xs && ys[|ys| - 1] == v;
  }

  /** Binary search, as sort.SearchFloat64s performs it. */
  method Search(buckets: seq<real>, v: real) returns (i: nat)
    requires Increasing(buckets)
    ensures IsSlot(buckets, v, i)
  {
    i := 0;
    var j: nat := |buckets|;
    while i < j
      invariant i <= j <= |buckets|
      invariant forall k :: 0 <= k < i ==> buckets[k] < v
      invariant forall k :: j <= k < |buckets| ==> v <= buckets[k]
    {
      var h := (i + j) / 2;
      if buckets[h] < v {
        i := h + 1;
      } else {
        j := h;
      }
    }
  }

  /** The bounds are rejected exactly when they are not strictly increasing. */
  method CheckBuckets(buckets: seq<real>) returns (ok: bool)
    ensures ok <==> Increasing(buckets)
  {
    var i := 1;
    while i < |buckets|
      invariant 1 <= i && (i <= |buckets| || |buckets| == 0)
      invariant forall j, k :: 0 <= j < k < i && k < |buckets| ==> buckets[j] < buckets[k]
    {
      if buckets[i] <= buckets[i - 1] {
        return false;
      }
      i := i + 1;
    }
    return true;
  }

  class Child {
    const buckets: seq<real>
    const counts: array<nat>
    var sum: real
    var count: nat
    ghost var observed: seq<real>

    ghost predicate Valid()
      reads this, counts
    {
      && Increasing(buckets) && counts.Length == |buckets|
      && (forall i :: 0 <= i < |buckets| ==> counts[i] == InBucket(buckets, observed, i))
      && count == |observed| && sum == Sum(observed)
    }

    constructor (buckets: seq<real>)
      requires Increasing(buckets)
      ensures Valid() && this.buckets == buckets && observed == [] && fresh(counts)
    {
      this.buckets := buckets;
      counts := new nat[|buckets|](_ => 0);
      sum, count, observed := 0.0, 0, [];
    }

    method Observe(v: real)
      requires Valid()
      modifies this, counts
      ensures Valid() && observed == old(observed) + [v]
    {
      sum := sum + v;
      count := count + 1;
      var i := Search(buckets, v);
      forall k | 0 <= k < |buckets|
        ensures InBucket(buckets, observed + [v], k) == InBucket(buckets, observed, k) + if k == i then 1 else 0
      {
        ObservedSlot(buckets, observed, v, i, k);
      }
      if i < counts.Length {
        counts[i] := counts[i] + 1;
      }
      assert (observed + [v])[..|observed|] == observed;
      observed := observed + [v];
    }

    /** Entry i counts the observed values up to bound i; the last entry counts them all. */
    method Snapshot() returns (out: array<nat>, s: real, n: nat)
      requires Valid()
      ensures fresh(out) && out.Length == |buckets| + 1 && s == Sum(observed) && n == |observed|
      ensures forall i :: 0 <= i < |buckets| ==> out[i] == AtMost(observed, buckets[i])
      ensures out[|buckets|] == |observed|
    {
      out := new nat[|buckets| + 1](_ => 0);
      var acc := 0;
      var i := 0;
      while i < |buckets|
        invariant 0 <= i <= |buckets| && Valid()
        invariant acc == if i == 0 then 0 else AtMost(observed, buckets[i - 1])
        invariant forall k :: 0 <= k < i ==> out[k] == AtMost(observed, buckets[k])
      {
        BucketIsDifference(buckets, observed, i);
        acc := acc + counts[i];
        out[i] := acc;
        i := i + 1;
      }
      out[|buckets|] := count;
      return out, sum, count;
    }
  }

  /** So the entries never decrease, and none exceeds the last. */
  lemma SnapshotIsCumulative(buckets: seq<real>, xs: seq<real>, i: nat, j: nat)
    requires Increasing(buckets) && i <= j < |buckets|
    ensures AtMost(xs, buckets[i]) <= AtMost(xs, buckets[j]) <= |xs|
  {
    AtMostMonotone(xs, buckets[i], buckets[j]);
  }
}
