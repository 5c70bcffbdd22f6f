/** The two handlers that touch the staging map, each run on its own: internal/server/runs.go. */
module Handlers {
  import opened Common
  import opened HeapOrder
  import opened Scheduler
  import Admission
  import Staging

  type Request = Staging.Request

  datatype Status = Created | TooMany | Draining | Internal | NoContent | Conflict

  /** What the create handler replies to each answer of the scheduler. */
  function ReplyTo(answer: Admission.Answer): Status {
    match answer
    case Accepted => Created
    case QueueFull => TooMany
    case Stopped => Draining
    case Duplicate => Internal
  }

  function PendingAfter(pending: map<RunID, Request>, runID: RunID, req: Request, status: Status): map<RunID, Request> {
    if status == Created then pending[runID := req] else pending - {runID}
  }

  lemma StagedAndTaken(pending: map<RunID, Request>, runID: RunID, req: Request)
    ensures pending[runID := req] - {runID} == pending - {runID}
  {
  }

  lemma CreateSettles(c: Admission.Core, cap: int, runID: RunID, req: Request, priority: int,
                      pending: map<RunID, Request>)
    ensures var after := PendingAfter(pending, runID, req, ReplyTo(Admission.Judge(c, cap, runID)));
      pending.Keys == Admission.Ids(c.queued) && runID !in pending ==>
        after.Keys == Admission.Ids(Admission.Submit(c, cap, runID, priority).queued)
  {
    Staging.IdsWith(c.queued, Admission.NewKey(c, runID, priority));
  }

  lemma CancelSettles(c: Admission.Core, runID: RunID, pending: map<RunID, Request>)
    requires Admission.Valid(c)
    ensures var after := if Admission.Cancellable(c, runID) then pending - {runID} else pending;
      pending.Keys == Admission.Ids(c.queued) ==> after.Keys == Admission.Ids(Admission.Cancel(c, runID).queued)
  {
    if Admission.Cancellable(c, runID) {
      assert c.runs[runID].key in c.queued;
      Staging.IdsWithout(c, c.runs[runID].key);
    }
  }

  class RunServer {
    const sched: Sched
    var pending: map<RunID, Request>

    ghost predicate Valid()
      reads this, sched, sched.queue, sched.queue.items, sched.runs.Values
    {
      sched.Valid() && Admission.Valid(sched.view)
    }

    /** With no handler and no worker under way, the staged runs are the queued ones. */
    ghost predicate Settled()
      reads this, sched
    {
      pending.Keys == Admission.Ids(sched.view.queued)
    }

    constructor (queueCap: int)
      ensures Valid() && Settled() && pending == map[] && sched.queueCap == queueCap
    {
      sched := new Sched(queueCap);
      pending := map[];
      new;
      assert Admission.Ids({}) == {};
    }

    method PutPending(runID: RunID, req: Request)
      modifies `pending
      ensures pending == old(pending)[runID := req]
    {
      pending := pending[runID := req];
    }

    method TakePending(runID: RunID) returns (req: Option<Request>)
      modifies `pending
      ensures req == if runID in old(pending) then Some(old(pending)[runID]) else None
      ensures pending == old(pending) - {runID}
    {
      if runID !in pending {
        return None;
      }
      req := Some(pending[runID]);
      pending := pending - {runID};
    }

    /** Stage, submit, and un-stage on a refusal. A new id keeps the map settled. */
    method CreateRun(runID: RunID, req: Request, priority: int, now: int) returns (status: Status)
      requires Valid()
      modifies this, sched, sched.queue, sched.queue.entries`index
      ensures Valid() && sched.view == Admission.Submit(old(sched.view), sched.queueCap, runID, priority)
      ensures status == old(if sched.stopped then Draining else if runID in sched.runs then Internal
                            else if |sched.queue.items| >= sched.queueCap then TooMany else Created)
      ensures pending == PendingAfter(old(pending), runID, req, status)
      ensures old(Settled()) && runID !in old(pending) ==> Settled()
    {
      CreateSettles(sched.view, sched.queueCap, runID, req, priority, pending);
      StagedAndTaken(pending, runID, req);
      PutPending(runID, req);
      status := SubmitStaged(runID, priority, now);
      if status != Created {
        var _ := TakePending(runID);
      }
    }

    method SubmitStaged(runID: RunID, priority: int, now: int) returns (status: Status)
      requires Valid()
      modifies sched, sched.queue, sched.queue.entries`index
      ensures Valid() && sched.view == Admission.Submit(old(sched.view), sched.queueCap, runID, priority)
      ensures status == ReplyTo(Admission.Judge(old(sched.view), sched.queueCap, runID))
      ensures status == old(if sched.stopped then Draining else if runID in sched.runs then Internal
                            else if |sched.queue.items| >= sched.queueCap then TooMany else Created)
    {
      Admission.SubmitKeepsValid(sched.view, sched.queueCap, runID, priority);
      var answer, _ := sched.Submit(runID, priority, now);
      status := ReplyTo(answer);
    }

    method CancelRun(runID: RunID) returns (status: Status)
      requires Valid()
      modifies this, sched, sched.queue, sched.queue.entries`index
      ensures Valid() && sched.view == Admission.Cancel(old(sched.view), runID)
      ensures status == if runID in old(sched.runs) && !old(sched.runs[runID].running) then NoContent else Conflict
      ensures pending == if status == NoContent then old(pending) - {runID} else old(pending)
      ensures old(Settled()) ==> Settled()
    {
      CancelSettles(sched.view, runID, pending);
      status := CancelQueued(runID);
      if status == NoContent {
        var _ := TakePending(runID);
      }
    }

    method CancelQueued(runID: RunID) returns (status: Status)
      requires Valid()
      modifies sched, sched.queue, sched.queue.entries`index
      ensures Valid() && sched.view == Admission.Cancel(old(sched.view), runID)
      ensures status == if Admission.Cancellable(old(sched.view), runID) then NoContent else Conflict
      ensures status == if runID in old(sched.runs) && !old(sched.runs[runID].running) then NoContent else Conflict
    {
      Admission.CancelKeepsValid(sched.view, runID);
      var ok := sched.Cancel(runID);
      status := if ok then NoContent else Conflict;
    }
  }
}
