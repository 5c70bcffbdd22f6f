/**
 The shared state that the scheduler's mutex guards, and its critical sections as
 functions on values: internal/scheduler/pool.go. The queue is the set of keys of
 the queued runs; a run is in `runs` from its admission until it is cancelled or
 has finished.
 */
module Admission {
  import opened HeapOrder

  datatype Slot = Slot(key: Key, running: bool)

  datatype Core = Core(queued: set<Key>, runs: map<RunID, Slot>, counter: nat, stopped: bool)

  datatype Answer = Accepted | Stopped | Duplicate | QueueFull

  const EMPTY := Core({}, map[], 0, false)

  function Judge(c: Core, cap: int, id: RunID): Answer {
    if c.stopped then Stopped
    else if id in c.runs then Duplicate
    else if |c.queued| >= cap then QueueFull
    else Accepted
  }

  function NewKey(c: Core, id: RunID, priority: int): Key {
    Key(id, priority, c.counter + 1)
  }

  /** The run gets the next sequence number and joins the queue. */
  function Admitted(c: Core, k: Key): Core {
    c.(queued := c.queued + {k}, runs := c.runs[k.runID := Slot(k, false)], counter := c.counter + 1)
  }

  function Submit(c: Core, cap: int, id: RunID, priority: int): Core {
    if Judge(c, cap, id) == Accepted then Admitted(c, NewKey(c, id, priority)) else c
  }

  predicate Cancellable(c: Core, id: RunID) {
    id in c.runs && !c.runs[id].running
  }

  function Cancel(c: Core, id: RunID): Core {
    if !Cancellable(c, id) then c
    else c.(queued := c.queued - {c.runs[id].key}, runs := c.runs - {id})
  }

  function Ids(ks: set<Key>): set<RunID> {
    set k | k in ks :: k.runID
  }

  /** Everything still queued is cancelled; running work is left alone. */
  function Stop(c: Core): Core {
    if c.stopped then c else Core({}, c.runs - Ids(c.queued), c.counter, true)
  }

  function Drop(c: Core, k: Key): Core {
    c.(queued := c.queued - {k}, runs := c.runs - {k.runID})
  }

  /** Part of the queue has been cancelled one run at a time: `gone` as keys, `ids` in order. */
  ghost predicate Purging(c: Core, now: Core, gone: set<Key>, ids: seq<RunID>) {
    && c.queued == now.queued + gone && now.queued !! gone && |gone| == |ids|
    && now == c.(queued := now.queued, runs := c.runs - Ids(gone))
    && (forall id :: id in ids <==> id in Ids(gone))
  }

  lemma PurgeStart(c: Core)
    ensures Purging(c, c, {}, [])
  {
    assert c.runs - Ids({}) == c.runs;
  }

  lemma PurgeEnd(c: Core, now: Core, gone: set<Key>, ids: seq<RunID>)
    requires Purging(c, now, gone, ids) && now.queued == {}
    ensures now == c.(queued := {}, runs := c.runs - Ids(c.queued))
    ensures |ids| == |c.queued| && forall id :: id in ids <==> id in Ids(c.queued)
  {
    assert gone == c.queued;
  }

  lemma PurgeStep(c: Core, now: Core, gone: set<Key>, ids: seq<RunID>, k: Key)
    requires Purging(c, now, gone, ids) && k in now.queued
    ensures Purging(c, Drop(now, k), gone + {k}, ids + [k.runID])
  {
    assert Ids(gone + {k}) == Ids(gone) + {k.runID};
  }

  predicate IsFirst(ks: set<Key>, k: Key) {
    k in ks && forall j :: j in ks && j != k ==> Before(k, j)
  }

  /** A worker takes k off the queue and marks it running. */
  function Take(c: Core, k: Key): Core {
    c.(queued := c.queued - {k}, runs := c.runs[k.runID := Slot(k, true)])
  }

  function Finish(c: Core, id: RunID): Core {
    c.(runs := c.runs - {id})
  }

  /** A run is queued or running, never both, and sequence numbers are never reused. */
  ghost predicate Valid(c: Core) {
    && (forall k :: k in c.queued ==> k.runID in c.runs && c.runs[k.runID] == Slot(k, false))
    && (forall id :: id in c.runs ==> c.runs[id].key.runID == id && c.runs[id].key.submitSeq <= c.counter)
    && (forall id :: id in c.runs && !c.runs[id].running ==> c.runs[id].key in c.queued)
    && (forall a, b :: a in c.runs && b in c.runs && c.runs[a].key.submitSeq == c.runs[b].key.submitSeq ==> a == b)
    && (c.stopped ==> c.queued == {})
  }

  ghost function RunningIds(c: Core): set<RunID> {
    set id | id in c.runs && c.runs[id].running
  }

  /** The runs are the disjoint union of the queued and the running. */
  lemma RunsSplit(c: Core)
    requires Valid(c)
    ensures c.runs.Keys == Ids(c.queued) + RunningIds(c) && Ids(c.queued) !! RunningIds(c)
  {
    forall id | id in c.runs.Keys
      ensures id in Ids(c.queued) + RunningIds(c)
    {
      if !c.runs[id].running { assert c.runs[id].key in c.queued; }
    }
  }

  lemma AdmittedKeepsValid(c: Core, id: RunID, priority: int)
    requires Valid(c) && id !in c.runs && !c.stopped
    ensures Valid(Admitted(c, NewKey(c, id, priority)))
  {
  }

  lemma SubmitKeepsValid(c: Core, cap: int, id: RunID, priority: int)
    requires Valid(c)
    ensures Valid(Submit(c, cap, id, priority))
    ensures |c.queued| <= cap ==> |Submit(c, cap, id, priority).queued| <= cap
  {
    if Judge(c, cap, id) == Accepted {
      AdmittedKeepsValid(c, id, priority);
    }
  }

  lemma CancelKeepsValid(c: Core, id: RunID)
    requires Valid(c)
    ensures Valid(Cancel(c, id)) && |Cancel(c, id).queued| <= |c.queued|
  {
  }

  lemma StopKeepsValid(c: Core)
    requires Valid(c)
    ensures Valid(Stop(c)) && Stop(c).queued == {}
    ensures RunningIds(Stop(c)) == RunningIds(c)
  {
    RunsSplit(c);
  }

  lemma TakeKeepsValid(c: Core, k: Key)
    requires Valid(c) && k in c.queued
    ensures Valid(Take(c, k)) && |Take(c, k).queued| <= |c.queued|
  {
  }

  lemma FinishKeepsValid(c: Core, id: RunID)
    requires Valid(c) && id in c.runs && c.runs[id].running
    ensures Valid(Finish(c, id))
  {
  }
}
