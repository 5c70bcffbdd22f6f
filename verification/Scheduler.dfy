/**
 The scheduler object of internal/scheduler/pool.go. Each method is the body of one
 critical section and is proved against the corresponding function of Admission.
 */
module Scheduler {
  import opened Common
  import opened HeapOrder
  import opened Queue
  import Admission

  datatype RunStatus = RunStatus(running: bool, priority: int, position: int, enqueued: int)

  predicate Owned(runs: map<RunID, Entry>, e: Entry) {
    e.runID in runs && runs[e.runID] == e
  }

  /** A run's entry carries its key, and is queued unless the run is running. */
  ghost predicate SlotOk(c: Admission.Core, runs: map<RunID, Entry>, queued: set<Entry>, id: RunID) {
    id in runs && id in c.runs && runs[id].runID == id && runs[id].submitSeq <= c.counter
    && c.runs[id] == Admission.Slot(runs[id].Key(), runs[id] !in queued)
  }

  /** The queue holds exactly the entries of the runs that are not running. */
  ghost predicate Links(c: Admission.Core, runs: map<RunID, Entry>, queued: set<Entry>) {
    && runs.Keys == c.runs.Keys
    && c.queued == KeySet(queued)
    && (forall id {:trigger SlotOk(c, runs, queued, id)} :: id in runs ==> SlotOk(c, runs, queued, id))
    && (forall e {:trigger Owned(runs, e)} :: e in queued ==> Owned(runs, e))
  }

  lemma LinksAdmitted(c: Admission.Core, runs: map<RunID, Entry>, queued: set<Entry>, e: Entry)
    requires Links(c, runs, queued)
    requires e.runID !in runs && e.submitSeq == c.counter + 1
    ensures e !in queued && forall x :: x in queued ==> x.submitSeq != e.submitSeq
    ensures Links(Admission.Admitted(c, e.Key()), runs[e.runID := e], queued + {e})
  {
    forall x | x in queued ensures x.submitSeq <= c.counter && x.runID != e.runID {
      assert Owned(runs, x) && SlotOk(c, runs, queued, x.runID);
    }
    var d, runs', queued' := Admission.Admitted(c, e.Key()), runs[e.runID := e], queued + {e};
    forall id | id in runs' ensures SlotOk(d, runs', queued', id) {
      if id != e.runID { assert SlotOk(c, runs, queued, id); }
    }
    forall x | x in queued' ensures Owned(runs', x) {
      if x != e { assert Owned(runs, x); }
    }
  }

  lemma LinksCancelled(c: Admission.Core, runs: map<RunID, Entry>, queued: set<Entry>, id: RunID)
    requires Links(c, runs, queued) && Admission.Cancellable(c, id)
    ensures runs[id] in queued && runs[id].runID == id
    ensures forall x :: x in queued && x.runID == id ==> x == runs[id]
    ensures Links(Admission.Cancel(c, id), runs - {id}, queued - {runs[id]})
  {
    assert SlotOk(c, runs, queued, id);
    var d, runs', queued' := Admission.Cancel(c, id), runs - {id}, queued - {runs[id]};
    forall x | x in queued ensures Owned(runs, x) && (x.runID == id <==> x == runs[id]) {
      assert Owned(runs, x);
    }
    forall j | j in runs' ensures SlotOk(d, runs', queued', j) {
      assert SlotOk(c, runs, queued, j);
    }
    forall x | x in queued' ensures Owned(runs', x) {
      assert Owned(runs, x);
    }
    assert KeySet(queued') == KeySet(queued) - {runs[id].Key()};
  }

  lemma LinksTaken(c: Admission.Core, runs: map<RunID, Entry>, queued: set<Entry>, e: Entry)
    requires Links(c, runs, queued) && e in queued && Owned(runs, e)
    ensures e.Key() in c.queued && forall id :: id in runs && runs[id] == e ==> id == e.runID
    ensures Links(Admission.Take(c, e.Key()), runs, queued - {e})
  {
    var d, queued' := Admission.Take(c, e.Key()), queued - {e};
    forall x | x in queued ensures Owned(runs, x) && (x.runID == e.runID <==> x == e) {
      assert Owned(runs, x);
    }
    forall j | j in runs ensures SlotOk(d, runs, queued', j) {
      assert SlotOk(c, runs, queued, j);
    }
    assert SlotOk(c, runs, queued, e.runID);
    assert KeySet(queued') == KeySet(queued) - {e.Key()};
  }

  /** Refusing new runs and then cancelling the queue is stopping. */
  lemma StopIsPurge(c: Admission.Core)
    ensures var d := c.(stopped := true);
      !c.stopped ==> Admission.Stop(c) == d.(queued := {}, runs := d.runs - Admission.Ids(d.queued))
  {
  }

  lemma LinksStopped(c: Admission.Core, runs: map<RunID, Entry>, queued: set<Entry>)
    requires Links(c, runs, queued)
    ensures Links(c.(stopped := true), runs, queued)
  {
    forall j | j in runs ensures SlotOk(c.(stopped := true), runs, queued, j) {
      assert SlotOk(c, runs, queued, j);
    }
  }

  lemma LinksFinished(c: Admission.Core, runs: map<RunID, Entry>, queued: set<Entry>, id: RunID)
    requires Links(c, runs, queued) && id in c.runs && c.runs[id].running
    ensures Links(Admission.Finish(c, id), runs - {id}, queued)
  {
    var d, runs' := Admission.Finish(c, id), runs - {id};
    assert SlotOk(c, runs, queued, id);
    forall j | j in runs' ensures SlotOk(d, runs', queued, j) {
      assert SlotOk(c, runs, queued, j);
    }
    forall x | x in queued ensures Owned(runs', x) {
      assert Owned(runs, x);
    }
  }

  /** The queued ids are those of the runs that are not running. */
  lemma WaitingIds(c: Admission.Core, runs: map<RunID, Entry>, queued: set<Entry>)
    requires Links(c, runs, queued)
    ensures forall id :: id in Admission.Ids(c.queued) <==> id in c.runs && !c.runs[id].running
  {
    forall e | e in queued ensures e.runID in c.runs && !c.runs[e.runID].running {
      assert Owned(runs, e) && SlotOk(c, runs, queued, e.runID);
    }
    forall id | id in c.runs && !c.runs[id].running ensures id in Admission.Ids(c.queued) {
      assert SlotOk(c, runs, queued, id) && runs[id].Key() in c.queued;
    }
  }

  lemma LinkedFlag(c: Admission.Core, runs: map<RunID, Entry>, queued: set<Entry>, id: RunID)
    requires Links(c, runs, queued) && id in runs
    ensures SlotOk(c, runs, queued, id)
  {
  }

  class Sched {
    const queueCap: int
    const queue: PQ
    var runs: map<RunID, Entry>
    var counter: nat
    var stopped: bool
    ghost var view: Admission.Core   // the guarded state as a value

    /** The running flags are those of the view. */
    ghost predicate Flagged()
      reads this, runs.Values
    {
      forall id :: id in runs && id in view.runs ==> runs[id].running == view.runs[id].running
    }

    ghost predicate Valid()
      reads this, queue, queue.items, runs.Values
    {
      && queue.Valid() && Links(view, runs, queue.entries) && Flagged()
      && counter == view.counter && stopped == view.stopped
    }

    constructor (queueCap: int)
      ensures Valid() && view == Admission.EMPTY && this.queueCap == queueCap && fresh(queue)
    {
      this.queueCap := queueCap;
      queue := new PQ();
      runs, counter, stopped := map[], 0, false;
      view := Admission.EMPTY;
    }

    lemma QueueIsView()
      requires Valid()
      ensures queue.Contents() == view.queued && |queue.items| == |view.queued|
    {
      ContentsSize(queue.items, queue.entries);
    }

    /** Every run still there is recorded as it was before, with the time it was enqueued. */
    twostate predicate KeepsRecords()
      reads this
    {
      forall id :: id in runs ==> id in old(runs) && runs[id] == old(runs)[id]
    }

    /** The accepting part of Submit: number the run, record it, and queue it. */
    method Admit(runID: RunID, priority: int, now: int)
      requires Valid() && runID !in runs
      modifies this, queue, queue.entries`index
      ensures Valid() && view == Admission.Admitted(old(view), Admission.NewKey(old(view), runID, priority))
      ensures runID in runs && runs[runID].enqueued == now && runs == old(runs)[runID := runs[runID]]
      ensures runs[runID].priority == priority && runs[runID].submitSeq == old(counter) + 1 == counter
    {
      var e := Record(runID, priority, now);
      queue.Push(e);
      view := Admission.Admitted(view, e.Key());
    }

    /** The next sequence number and the map entry; the queue comes next. */
    method Record(runID: RunID, priority: int, now: int) returns (e: Entry)
      requires Valid() && runID !in runs
      modifies this`runs, this`counter
      ensures fresh(e) && e.Key() == Admission.NewKey(view, runID, priority) && e.enqueued == now && !e.running
      ensures e.priority == priority && e.submitSeq == counter
      ensures runs == old(runs)[runID := e] && counter == view.counter + 1 && e !in queue.entries
      ensures forall x :: x in queue.entries ==> x.submitSeq != e.submitSeq
      ensures Links(Admission.Admitted(view, e.Key()), runs, queue.entries + {e})
    {
      e := new Entry(runID, priority, counter + 1, now);
      LinksAdmitted(view, runs, queue.entries, e);
      counter := counter + 1;
      runs := runs[runID := e];
    }

    /** The reasons to refuse a run, in order; modifies nothing. */
    method Refusal(runID: RunID) returns (answer: Admission.Answer)
      requires Valid()
      ensures answer == Admission.Judge(view, queueCap, runID)
      ensures answer == (if stopped then Admission.Stopped else if runID in runs then Admission.Duplicate
                         else if |queue.items| >= queueCap then Admission.QueueFull else Admission.Accepted)
    {
      QueueIsView();
      if stopped {
        return Admission.Stopped;
      }
      if runID in runs {
        return Admission.Duplicate;
      }
      if |queue.items| >= queueCap {
        return Admission.QueueFull;
      }
      return Admission.Accepted;
    }

    method Submit(runID: RunID, priority: int, now: int) returns (answer: Admission.Answer, position: int)
      requires Valid() && Admission.Valid(view)
      modifies this, queue, queue.entries`index
      ensures Valid()
      ensures answer == Admission.Judge(old(view), queueCap, runID)
      ensures answer == old(if stopped then Admission.Stopped else if runID in runs then Admission.Duplicate
                            else if |queue.items| >= queueCap then Admission.QueueFull else Admission.Accepted)
      ensures view == Admission.Submit(old(view), queueCap, runID, priority)
      ensures answer == Admission.Accepted ==>
        position == |set x | x in old(queue.Contents()) && x.priority >= priority|
      ensures answer == Admission.Accepted ==>
        && runID in runs && runs[runID].enqueued == now && runs == old(runs)[runID := runs[runID]]
        && runs[runID].priority == priority && runs[runID].submitSeq == old(counter) + 1 == counter
        && queue.Contents() == old(queue.Contents()) + {Key(runID, priority, counter)}
      ensures answer != Admission.Accepted ==>
        runs == old(runs) && counter == old(counter) && queue.Contents() == old(queue.Contents())
    {
      position := 0;
      answer := Refusal(runID);
      if answer != Admission.Accepted {
        return;
      }
      position := Accept(runID, priority, now);
    }

    /** Admit the run and look up its place in the queue. */
    method Accept(runID: RunID, priority: int, now: int) returns (position: int)
      requires Valid() && Admission.Valid(view) && runID !in runs && !view.stopped
      modifies this, queue, queue.entries`index
      ensures Valid() && view == Admission.Admitted(old(view), Admission.NewKey(old(view), runID, priority))
      ensures runID in runs && runs[runID].enqueued == now && runs == old(runs)[runID := runs[runID]]
      ensures runs[runID].priority == priority && runs[runID].submitSeq == old(counter) + 1 == counter
      ensures queue.Contents() == old(queue.Contents()) + {Key(runID, priority, counter)}
      ensures position == |set x | x in old(queue.Contents()) && x.priority >= priority|
    {
      ghost var was := view.queued;
      Admission.AdmittedKeepsValid(view, runID, priority);
      Admit(runID, priority, now);
      AheadOfNew(was, Key(runID, priority, counter));
      position := Position(runID);
    }

    method Position(runID: RunID) returns (position: int)
      requires Valid() && Admission.Valid(view) && Admission.Cancellable(view, runID)
      ensures position == |Ahead(view.queued, view.runs[runID].key)|
    {
      QueueIsView();
      position := queue.PositionOf(runID);
      OnlyKeyOfRun(view, view.runs[runID].key, position);
    }

    method Cancel(runID: RunID) returns (ok: bool)
      requires Valid()
      modifies this, queue, queue.entries`index
      ensures Valid()
      ensures ok <==> Admission.Cancellable(old(view), runID)
      ensures ok <==> runID in old(runs) && !old(runs[runID].running)
      ensures runs == if ok then old(runs) - {runID} else old(runs)
      ensures queue.entries == if ok then old(queue.entries) - {old(runs)[runID]} else old(queue.entries)
      ensures view == Admission.Cancel(old(view), runID) && KeepsRecords()
    {
      if runID !in runs {
        return false;
      }
      LinkedFlag(view, runs, queue.entries, runID);
      if runs[runID].running {
        return false;
      }
      LinksCancelled(view, runs, queue.entries, runID);
      var removed := queue.Remove(runID);
      assert removed;
      runs := runs - {runID};
      view := Admission.Cancel(view, runID);
      return true;
    }

    method Status(runID: RunID) returns (st: Option<RunStatus>)
      requires Valid() && Admission.Valid(view)
      ensures st.Some? <==> runID in runs
      ensures st.Some? ==> var e := runs[runID];
        && st.value.running == e.running && st.value.priority == e.priority && st.value.enqueued == e.enqueued
        && st.value.position == (if e.running then 0 else |Ahead(queue.Contents(), e.Key())|)
    {
      if runID !in runs {
        return None;
      }
      var e := runs[runID];
      LinkedFlag(view, runs, queue.entries, runID);
      if e.running {
        return Some(RunStatus(true, e.priority, 0, e.enqueued));
      }
      var pos := Position(runID);
      return Some(RunStatus(false, e.priority, pos, e.enqueued));
    }

    /** The worker's first critical section, once there is work: pop and mark running. */
    method TakeNext() returns (e: Entry)
      requires Valid() && view.queued != {}
      modifies this, queue, queue.entries
      ensures Valid() && Admission.IsFirst(old(view).queued, e.Key())
      ensures view == Admission.Take(old(view), e.Key())
      ensures e.runID in runs && runs[e.runID] == e && runs == old(runs)
      ensures e in old(queue.entries) && queue.entries == old(queue.entries) - {e} && e.running
      ensures forall x :: x in queue.entries ==>
        x.priority < e.priority || (x.priority == e.priority && x.submitSeq > e.submitSeq)
    {
      QueueIsView();
      ghost var before := queue.entries;
      e := queue.Pop();
      KeySetWithout(before, e);
      assert Owned(runs, e);
      LinksTaken(view, runs, before, e);
      e.running := true;
      view := Admission.Take(view, e.Key());
    }

    /** Stop's critical section: refuse new runs and cancel everything still queued. */
    method StopAll() returns (cancelled: seq<RunID>)
      requires Valid()
      modifies this, queue, queue.entries`index
      ensures Valid() && view == Admission.Stop(old(view))
      ensures forall id :: id in cancelled <==> !old(stopped) && id in Admission.Ids(old(view).queued)
      ensures (!old(stopped) ==> |cancelled| == |old(view).queued|) && KeepsRecords()
      ensures stopped && (!old(stopped) ==> queue.Contents() == {} && |cancelled| == |old(queue.items)|)
      ensures !old(stopped) ==> forall id :: id in old(runs) ==>
        (id in cancelled <==> !old(runs[id].running)) && (id in runs <==> old(runs[id].running))
    {
      cancelled := [];
      if stopped {
        return;
      }
      QueueIsView();
      WaitingIds(view, runs, queue.entries);
      StopIsPurge(view);
      Refuse();
      cancelled := PurgeQueue();
    }

    method Refuse()
      requires Valid()
      modifies this`stopped, this`view
      ensures Valid() && stopped && view == old(view).(stopped := true)
    {
      LinksStopped(view, runs, queue.entries);
      stopped := true;
      view := view.(stopped := true);
    }

    method PurgeQueue() returns (cancelled: seq<RunID>)
      requires Valid()
      modifies this, queue, queue.entries`index
      ensures Valid()
      ensures view == old(view).(queued := {}, runs := old(view).runs - Admission.Ids(old(view).queued))
      ensures |cancelled| == |old(view).queued|
      ensures (forall id :: id in cancelled <==> id in Admission.Ids(old(view).queued)) && KeepsRecords()
    {
      cancelled := [];
      ghost var c, gone: set<Key> := view, {};
      Admission.PurgeStart(c);
      while |queue.items| > 0
        invariant Valid() && queue.entries <= old(queue.entries) && KeepsRecords()
        invariant Admission.Purging(c, view, gone, cancelled)
        decreases |queue.items|
      {
        ghost var before := view;
        var e := CancelFirst();
        Admission.PurgeStep(c, before, gone, cancelled, e.Key());
        gone := gone + {e.Key()};
        cancelled := cancelled + [e.runID];
      }
      QueueIsView();
      Admission.PurgeEnd(c, view, gone, cancelled);
    }

    method CancelFirst() returns (e: Entry)
      requires Valid() && |queue.items| > 0
      modifies this, queue, queue.entries`index
      ensures Valid() && stopped == old(stopped) && |queue.items| == |old(queue.items)| - 1
      ensures e in old(queue.entries) && queue.entries == old(queue.entries) - {e}
      ensures e.Key() in old(view).queued && view == Admission.Drop(old(view), e.Key())
      ensures runs == old(runs) - {e.runID}
    {
      ghost var before := queue.entries;
      e := queue.Pop();
      assert Owned(runs, e);
      LinkedFlag(view, runs, before, e.runID);
      LinksCancelled(view, runs, before, e.runID);
      assert e.Key() in KeySet(before);
      runs := runs - {e.runID};
      view := Admission.Cancel(view, e.runID);
    }

    /** The worker's second critical section: forget the finished run. */
    method Finish(runID: RunID)
      requires Valid() && runID in view.runs && view.runs[runID].running
      modifies this
      ensures Valid() && view == Admission.Finish(old(view), runID) && KeepsRecords()
      ensures runs == old(runs) - {runID} && queue.entries == old(queue.entries)
    {
      LinksFinished(view, runs, queue.entries, runID);
      runs := runs - {runID};
      view := Admission.Finish(view, runID);
    }
  }

  lemma {:induction false} ContentsSize(es: seq<Entry>, members: set<Entry>)
    requires DistinctSeqs(es)
    requires (forall e :: e in es ==> e in members) && (forall e :: e in members ==> e in es)
    ensures |KeySet(members)| == |es|
    decreases |es|
  {
    if es == [] {
      assert members == {};
    } else {
      var init, last := es[..|es| - 1], es[|es| - 1];
      assert es == init + [last];
      forall e | e in init ensures e.submitSeq != last.submitSeq {
        var i :| 0 <= i < |init| && init[i] == e;
        assert es[i] == e;
      }
      ContentsSize(init, members - {last});
      assert KeySet(members) == KeySet(members - {last}) + {last.Key()};
    }
  }

  /** A run has one key in a valid state, so its position is that key's. */
  lemma OnlyKeyOfRun(c: Admission.Core, k: Key, pos: int)
    requires Admission.Valid(c) && k in c.queued
    requires pos == -1 <==> forall j :: j in c.queued ==> j.runID != k.runID
    requires pos != -1 ==> exists j :: IsPosition(c.queued, k.runID, j, pos)
    ensures pos == |Ahead(c.queued, k)|
  {
    var j :| IsPosition(c.queued, k.runID, j, pos);
    assert c.runs[j.runID].key == j && c.runs[k.runID].key == k;
  }
}
