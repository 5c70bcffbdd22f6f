/** The server's staging map around the scheduler, with handlers, workers and shutdown interleaved. */
module Staging {
  import opened HeapOrder
  import opened PoolProtocol
  import Admission

  type Request = nat

  datatype Server = Server(
    pool: Pool,
    requests: map<RunID, Request>,   // every run id ever issued, with the request of its handler
    pending: map<RunID, Request>,    // the guarded map
    staged: set<RunID>,              // handlers between putPending and Submit
    rejected: set<RunID>,            // handlers between a refused Submit and takePending
    cancelled: set<RunID>,           // handlers between a granted Cancel and takePending
    dropped: set<RunID>,             // cancelled by Stop, waiting for the purge
    purged: bool,
    timedOut: bool,
    missed: bool,                    // a worker found no pending request
    launchedWith: map<RunID, Request>)

  datatype Move =
    | Stage(id: RunID, req: Request)
    | SubmitStaged(id: RunID, priority: int)
    | UnstageRejected(id: RunID)
    | CancelRun(id: RunID)
    | UnstageCancelled(id: RunID)
    | PopRun(w: nat, key: Key)
    | TakePending(w: nat)
    | FinishRun(w: nat)
    | ExitWorker(w: nat)
    | StopScheduler
    | Purge(timeout: bool)

  function Boot(size: nat): Server {
    Server(Start(size), map[], map[], {}, {}, {}, {}, false, false, false, map[])
  }

  /** The purge follows Stop; without a timeout it waits until every worker has exited. */
  ghost predicate CanPurge(s: Server, timeout: bool) {
    s.pool.core.stopped && !s.purged &&
    (timeout || AllExited(s.pool.workers))
  }

  ghost predicate Possible(s: Server, m: Move) {
    match m
    case Stage(id, _) => id !in s.requests
    case SubmitStaged(id, _) => id in s.staged
    case UnstageRejected(id) => id in s.rejected
    case CancelRun(_) => true
    case UnstageCancelled(id) => id in s.cancelled
    case PopRun(w, k) => Enabled(s.pool, Pop(w, k))
    case TakePending(w) => Enabled(s.pool, Launch(w))
    case FinishRun(w) => Enabled(s.pool, Finish(w))
    case ExitWorker(w) => Enabled(s.pool, Exit(w))
    case StopScheduler => true
    case Purge(timeout) => CanPurge(s, timeout)
  }

  ghost function Do(cap: int, s: Server, m: Move): Server
    requires Possible(s, m)
  {
    match m
    case Stage(id, req) =>
      s.(requests := s.requests[id := req], pending := s.pending[id := req], staged := s.staged + {id})
    case SubmitStaged(id, priority) =>
      var ok := Admission.Judge(s.pool.core, cap, id) == Admission.Accepted;
      s.(pool := Next(cap, s.pool, Submit(id, priority)), staged := s.staged - {id},
         rejected := if ok then s.rejected else s.rejected + {id})
    case UnstageRejected(id) => s.(pending := s.pending - {id}, rejected := s.rejected - {id})
    case CancelRun(id) =>
      s.(pool := Next(cap, s.pool, Cancel(id)),
         cancelled := if Admission.Cancellable(s.pool.core, id) then s.cancelled + {id} else s.cancelled)
    case UnstageCancelled(id) => s.(pending := s.pending - {id}, cancelled := s.cancelled - {id})
    case PopRun(w, k) => s.(pool := Next(cap, s.pool, Pop(w, k)))
    case TakePending(w) =>
      var id := s.pool.workers[w].key.runID;
      var t := s.(pool := Next(cap, s.pool, Launch(w)), pending := s.pending - {id});
      if id in s.pending then t.(launchedWith := s.launchedWith[id := s.pending[id]]) else t.(missed := true)
    case FinishRun(w) => s.(pool := Next(cap, s.pool, Finish(w)))
    case ExitWorker(w) => s.(pool := Next(cap, s.pool, Exit(w)))
    case StopScheduler =>
      s.(pool := Next(cap, s.pool, Stop),
         dropped := s.dropped + if s.pool.core.stopped then {} else Admission.Ids(s.pool.core.queued))
    case Purge(timeout) => s.(pending := map[], dropped := {}, purged := true, timedOut := timeout)
  }

  function PoppedIds(ws: seq<Worker>): set<RunID> {
    set w | 0 <= w < |ws| && ws[w].Popped? :: ws[w].key.runID
  }

  /** Where run ids can be; `runs` are the scheduler's, of which some are queued and some popped. */
  datatype Zones = Zones(
    staged: set<RunID>, rejected: set<RunID>, cancelled: set<RunID>, dropped: set<RunID>,
    queued: set<RunID>, popped: set<RunID>, runs: set<RunID>)
  {
    /** The runs whose request is still needed or still has to be thrown away. */
    function Waiting(): set<RunID> {
      staged + rejected + cancelled + dropped + queued + popped
    }

    /** A run id is in one place only. */
    ghost predicate Neat(issued: set<RunID>) {
      && staged !! rejected !! cancelled !! dropped !! runs
      && queued <= runs && popped <= runs && queued !! popped
      && staged + rejected + cancelled + dropped + runs <= issued
    }
  }

  function ZonesOf(s: Server): Zones {
    Zones(s.staged, s.rejected, s.cancelled, s.dropped,
          Admission.Ids(s.pool.core.queued), PoppedIds(s.pool.workers), s.pool.core.runs.Keys)
  }

  /** Before the purge the map holds exactly the waiting runs; after it, handler leftovers at most. */
  ghost predicate Exact(z: Zones, pending: set<RunID>, purged: bool) {
    && (!purged ==> pending == z.Waiting())
    && (purged ==> z.dropped == {} && pending <= z.staged + z.rejected)
  }

  ghost predicate AllExited(ws: seq<Worker>) {
    forall w :: 0 <= w < |ws| ==> ws[w] == Exited
  }

  /** After the purge nothing new is queued, and without a timeout no worker is left. */
  ghost predicate Shut(s: Server) {
    && (s.purged ==> s.pool.core.stopped)
    && (s.purged && !s.timedOut ==> AllExited(s.pool.workers))
  }

  /** Requests never get mixed up, and only a timed-out drain makes a worker miss one. */
  ghost predicate Honest(s: Server) {
    && (forall id :: id in s.pending ==> id in s.requests && s.pending[id] == s.requests[id])
    && (forall id :: id in s.launchedWith ==> id in s.requests && s.launchedWith[id] == s.requests[id])
    && (s.missed ==> s.timedOut) && (s.timedOut ==> s.purged)
  }

  ghost predicate Inv(cap: int, size: nat, s: Server) {
    Control(cap, size, s.pool) && ZonesOf(s).Neat(s.requests.Keys) && Exact(ZonesOf(s), s.pending.Keys, s.purged) &&
    Shut(s) && Honest(s)
  }

  lemma PoppedChange(ws: seq<Worker>, w: nat, x: Worker)
    requires w < |ws|
    ensures !ws[w].Popped? && x.Popped? ==> PoppedIds(ws[w := x]) == PoppedIds(ws) + {x.key.runID}
    ensures !ws[w].Popped? && !x.Popped? ==> PoppedIds(ws[w := x]) == PoppedIds(ws)
    ensures ws[w].Popped? ==> ws[w].key.runID in PoppedIds(ws)
  {
    var t := ws[w := x];
    assert forall v :: 0 <= v < |ws| && v != w ==> t[v] == ws[v];
    assert t[w] == x;
    forall id | id in PoppedIds(ws) && !ws[w].Popped? ensures id in PoppedIds(t) {
      var v :| 0 <= v < |ws| && ws[v].Popped? && ws[v].key.runID == id;
      assert t[v] == ws[v];
    }
  }

  lemma PoppedTaken(c: Admission.Core, ws: seq<Worker>, w: nat)
    requires w < |ws| && ws[w].Popped? && Crew(c, ws)
    ensures PoppedIds(ws[w := Launched(ws[w].key)]) == PoppedIds(ws) - {ws[w].key.runID}
  {
    var t := ws[w := Launched(ws[w].key)];
    forall v | 0 <= v < |ws| && v != w && ws[v].Popped? ensures ws[v].key.runID != ws[w].key.runID && t[v] == ws[v] {
      assert v < w ==> Apart(ws, v, w);
      assert w < v ==> Apart(ws, w, v);
    }
    forall id | id in PoppedIds(ws) && id != ws[w].key.runID ensures id in PoppedIds(t) {
      var v :| 0 <= v < |ws| && ws[v].Popped? && ws[v].key.runID == id;
      assert t[v] == ws[v];
    }
  }

  lemma IdsWithout(c: Admission.Core, k: Key)
    requires Admission.Valid(c) && k in c.queued
    ensures Admission.Ids(c.queued - {k}) == Admission.Ids(c.queued) - {k.runID} && k.runID in Admission.Ids(c.queued)
  {
    forall id | id in Admission.Ids(c.queued) && id != k.runID ensures id in Admission.Ids(c.queued - {k}) {
      var j :| j in c.queued && j.runID == id;
      assert j in c.queued - {k};
    }
    forall j | j in c.queued && j.runID == k.runID ensures j == k {
      assert c.runs[j.runID].key == j;
    }
  }

  lemma IdsWith(queued: set<Key>, k: Key)
    ensures Admission.Ids(queued + {k}) == Admission.Ids(queued) + {k.runID}
  {
    assert k in queued + {k};
    forall x | x in Admission.Ids(queued) ensures x in Admission.Ids(queued + {k}) {
      var j :| j in queued && j.runID == x;
      assert j in queued + {k};
    }
  }

  /** How each move shifts run ids between the zones. */
  function Shift(z: Zones, m: Move, granted: bool, id: RunID): Zones {
    match m
    case Stage(_, _) => z.(staged := z.staged + {id})
    case SubmitStaged(_, _) =>
      if granted then z.(staged := z.staged - {id}, queued := z.queued + {id}, runs := z.runs + {id})
      else z.(staged := z.staged - {id}, rejected := z.rejected + {id})
    case UnstageRejected(_) => z.(rejected := z.rejected - {id})
    case CancelRun(_) =>
      if granted then z.(queued := z.queued - {id}, runs := z.runs - {id}, cancelled := z.cancelled + {id}) else z
    case UnstageCancelled(_) => z.(cancelled := z.cancelled - {id})
    case PopRun(_, _) => z.(queued := z.queued - {id}, popped := z.popped + {id})
    case TakePending(_) => z.(popped := z.popped - {id})
    case FinishRun(_) => z.(runs := z.runs - {id})
    case ExitWorker(_) => z
    case StopScheduler =>
      if granted then z.(queued := {}, runs := z.runs - z.queued, dropped := z.dropped + z.queued) else z
    case Purge(_) => z.(dropped := {})
  }

  /** The run a move is about. */
  function Subject(s: Server, m: Move): RunID {
    match m
    case Stage(id, _) => id
    case SubmitStaged(id, _) => id
    case UnstageRejected(id) => id
    case CancelRun(id) => id
    case UnstageCancelled(id) => id
    case PopRun(_, k) => k.runID
    case TakePending(w) => if w < |s.pool.workers| && s.pool.workers[w].Busy() then s.pool.workers[w].key.runID else 0
    case FinishRun(w) => if w < |s.pool.workers| && s.pool.workers[w].Busy() then s.pool.workers[w].key.runID else 0
    case _ => 0
  }

  /** Whether the scheduler said yes. */
  predicate Granted(cap: int, c: Admission.Core, m: Move) {
    match m
    case SubmitStaged(id, _) => Admission.Judge(c, cap, id) == Admission.Accepted
    case CancelRun(id) => Admission.Cancellable(c, id)
    case StopScheduler => !c.stopped
    case _ => true
  }

  lemma SubmitShifts(cap: int, size: nat, s: Server, id: RunID, priority: int)
    requires Control(cap, size, s.pool) && id in s.staged
    ensures ZonesOf(Do(cap, s, SubmitStaged(id, priority))) ==
      Shift(ZonesOf(s), SubmitStaged(id, priority), Granted(cap, s.pool.core, SubmitStaged(id, priority)), id)
  {
    IdsWith(s.pool.core.queued, Admission.NewKey(s.pool.core, id, priority));
  }

  lemma CancelShifts(cap: int, size: nat, s: Server, id: RunID)
    requires Control(cap, size, s.pool)
    ensures ZonesOf(Do(cap, s, CancelRun(id))) ==
      Shift(ZonesOf(s), CancelRun(id), Granted(cap, s.pool.core, CancelRun(id)), id)
    ensures Granted(cap, s.pool.core, CancelRun(id)) ==> id in ZonesOf(s).queued
  {
    var c := s.pool.core;
    if Admission.Cancellable(c, id) {
      assert c.runs[id].key in c.queued;
      IdsWithout(c, c.runs[id].key);
    }
  }

  lemma PopShifts(cap: int, size: nat, s: Server, w: nat, k: Key)
    requires Control(cap, size, s.pool) && Possible(s, PopRun(w, k))
    ensures ZonesOf(Do(cap, s, PopRun(w, k))) == Shift(ZonesOf(s), PopRun(w, k), true, k.runID)
    ensures k.runID in ZonesOf(s).queued
  {
    IdsWithout(s.pool.core, k);
    PoppedChange(s.pool.workers, w, Popped(k));
    assert s.pool.core.runs[k.runID := Admission.Slot(k, true)].Keys == s.pool.core.runs.Keys;
  }

  lemma TakeShifts(cap: int, size: nat, s: Server, w: nat)
    requires Control(cap, size, s.pool) && Possible(s, TakePending(w))
    ensures ZonesOf(Do(cap, s, TakePending(w))) == Shift(ZonesOf(s), TakePending(w), true, Subject(s, TakePending(w)))
    ensures Subject(s, TakePending(w)) in ZonesOf(s).popped
  {
    var ws := s.pool.workers;
    PoppedTaken(s.pool.core, ws, w);
    PoppedChange(ws, w, Launched(ws[w].key));
  }

  lemma FinishShifts(cap: int, size: nat, s: Server, w: nat)
    requires Control(cap, size, s.pool) && Possible(s, FinishRun(w))
    ensures ZonesOf(Do(cap, s, FinishRun(w))) == Shift(ZonesOf(s), FinishRun(w), true, Subject(s, FinishRun(w)))
    ensures Subject(s, FinishRun(w)) !in ZonesOf(s).queued && Subject(s, FinishRun(w)) !in ZonesOf(s).popped
  {
    var ws := s.pool.workers;
    var id := ws[w].key.runID;
    PoppedChange(ws, w, Idle);
    assert WorkerOk(s.pool.core, ws, w);
    forall v | 0 <= v < |ws| && ws[v].Popped? ensures ws[v].key.runID != id {
      if v < w {
        assert Apart(ws, v, w);
      } else if w < v {
        assert Apart(ws, w, v);
      }
    }
  }

  lemma ExitShifts(cap: int, s: Server, w: nat)
    requires Possible(s, ExitWorker(w))
    ensures ZonesOf(Do(cap, s, ExitWorker(w))) == ZonesOf(s)
  {
    PoppedChange(s.pool.workers, w, Exited);
  }

  lemma StopShifts(cap: int, s: Server)
    ensures ZonesOf(Do(cap, s, StopScheduler)) ==
      Shift(ZonesOf(s), StopScheduler, Granted(cap, s.pool.core, StopScheduler), 0)
  {
    assert Admission.Ids({}) == {};
  }

  lemma MoveShifts(cap: int, size: nat, s: Server, m: Move)
    requires Control(cap, size, s.pool) && Possible(s, m)
    ensures ZonesOf(Do(cap, s, m)) == Shift(ZonesOf(s), m, Granted(cap, s.pool.core, m), Subject(s, m))
    ensures (m.CancelRun? && Granted(cap, s.pool.core, m)) || m.PopRun? ==> Subject(s, m) in ZonesOf(s).queued
    ensures m.TakePending? ==> Subject(s, m) in ZonesOf(s).popped
    ensures m.FinishRun? ==> Subject(s, m) !in ZonesOf(s).queued && Subject(s, m) !in ZonesOf(s).popped
  {
    match m
    case SubmitStaged(id, priority) => SubmitShifts(cap, size, s, id, priority);
    case CancelRun(id) => CancelShifts(cap, size, s, id);
    case PopRun(w, k) => PopShifts(cap, size, s, w, k);
    case TakePending(w) => TakeShifts(cap, size, s, w);
    case FinishRun(w) => FinishShifts(cap, size, s, w);
    case ExitWorker(w) => ExitShifts(cap, s, w);
    case StopScheduler => StopShifts(cap, s);
    case _ =>
  }

  /** The zones stay neat under every shift whose subject is where the move expects it. */
  lemma ShiftIsNeat(z: Zones, issued: set<RunID>, m: Move, granted: bool, id: RunID)
    requires z.Neat(issued)
    requires m.Stage? ==> id !in issued
    requires m.SubmitStaged? ==> id in z.staged
    requires (m.CancelRun? && granted) || m.PopRun? ==> id in z.queued
    requires m.TakePending? ==> id in z.popped
    requires m.FinishRun? ==> id !in z.queued && id !in z.popped
    ensures Shift(z, m, granted, id).Neat(if m.Stage? then issued + {id} else issued)
  {
  }

  /** The pending map follows the zones. */
  lemma ShiftIsExact(z: Zones, issued: set<RunID>, pending: set<RunID>, purged: bool, m: Move, granted: bool, id: RunID)
    requires z.Neat(issued) && Exact(z, pending, purged) && !m.Purge?
    requires m.Stage? ==> id !in issued
    requires m.SubmitStaged? ==> id in z.staged && (purged ==> !granted)
    requires m.UnstageRejected? ==> id in z.rejected
    requires m.UnstageCancelled? ==> id in z.cancelled
    requires (m.CancelRun? && granted) || m.PopRun? ==> id in z.queued
    requires m.TakePending? ==> id in z.popped
    requires m.FinishRun? ==> id !in z.queued && id !in z.popped
    requires m.StopScheduler? ==> (purged ==> !granted)
    ensures Exact(Shift(z, m, granted, id),
                  if m.Stage? then pending + {id}
                  else if m.UnstageRejected? || m.UnstageCancelled? || m.TakePending? then pending - {id}
                  else pending, purged)
  {
  }

  /** A worker that still holds a popped run after the purge means that the drain timed out. */
  lemma LateTake(s: Server, w: nat)
    requires Shut(s) && Possible(s, TakePending(w))
    ensures s.purged ==> s.timedOut
  {
  }

  lemma HonestTake(cap: int, size: nat, s: Server, w: nat)
    requires Inv(cap, size, s) && Possible(s, TakePending(w))
    ensures Honest(Do(cap, s, TakePending(w)))
  {
    var id := Subject(s, TakePending(w));
    assert id in ZonesOf(s).Waiting() by {
      TakeShifts(cap, size, s, w);
    }
    LateTake(s, w);
    assert id !in s.pending ==> s.timedOut;
  }

  lemma HonestKept(cap: int, size: nat, s: Server, m: Move)
    requires Inv(cap, size, s) && Possible(s, m)
    ensures Honest(Do(cap, s, m))
  {
    if m.TakePending? {
      HonestTake(cap, size, s, m.w);
    } else {
      HonestOther(cap, s, m);
    }
  }

  lemma HonestOther(cap: int, s: Server, m: Move)
    requires Honest(s) && Possible(s, m) && !m.TakePending?
    requires s.pending.Keys <= s.requests.Keys && s.launchedWith.Keys <= s.requests.Keys
    ensures Honest(Do(cap, s, m))
  {
  }

  lemma ShutKept(cap: int, size: nat, s: Server, m: Move)
    requires Control(cap, size, s.pool) && Shut(s) && Possible(s, m)
    ensures Shut(Do(cap, s, m))
  {
  }

  lemma PoolKept(cap: int, size: nat, s: Server, m: Move)
    requires Control(cap, size, s.pool) && Possible(s, m)
    ensures Control(cap, size, Do(cap, s, m).pool)
  {
    match m
    case SubmitStaged(id, priority) => ControlKept(cap, size, s.pool, Submit(id, priority));
    case CancelRun(id) => ControlKept(cap, size, s.pool, Cancel(id));
    case PopRun(w, k) => ControlKept(cap, size, s.pool, Pop(w, k));
    case TakePending(w) => ControlKept(cap, size, s.pool, Launch(w));
    case FinishRun(w) => ControlKept(cap, size, s.pool, Finish(w));
    case ExitWorker(w) => ControlKept(cap, size, s.pool, Exit(w));
    case StopScheduler => ControlKept(cap, size, s.pool, Stop);
    case _ =>
  }

  function PendingAfter(s: Server, m: Move): set<RunID> {
    var id := Subject(s, m);
    if m.Stage? then s.pending.Keys + {id}
    else if m.UnstageRejected? || m.UnstageCancelled? || m.TakePending? then s.pending.Keys - {id}
    else if m.Purge? then {}
    else s.pending.Keys
  }

  lemma KeysFollow(cap: int, s: Server, m: Move)
    requires Possible(s, m)
    ensures Do(cap, s, m).pending.Keys == PendingAfter(s, m)
    ensures Do(cap, s, m).requests.Keys == if m.Stage? then s.requests.Keys + {Subject(s, m)} else s.requests.Keys
  {
  }

  lemma ZonesKept(cap: int, size: nat, s: Server, m: Move)
    requires Inv(cap, size, s) && Possible(s, m)
    ensures var t := Do(cap, s, m); ZonesOf(t).Neat(t.requests.Keys) && Exact(ZonesOf(t), t.pending.Keys, t.purged)
  {
    var z, granted, id := ZonesOf(s), Granted(cap, s.pool.core, m), Subject(s, m);
    MoveShifts(cap, size, s, m);
    KeysFollow(cap, s, m);
    ShiftIsNeat(z, s.requests.Keys, m, granted, id);
    if !m.Purge? {
      ShiftIsExact(z, s.requests.Keys, s.pending.Keys, s.purged, m, granted, id);
    }
  }

  lemma MoveKept(cap: int, size: nat, s: Server, m: Move)
    requires Inv(cap, size, s) && Possible(s, m)
    ensures Inv(cap, size, Do(cap, s, m))
  {
    PoolKept(cap, size, s, m);
    HonestKept(cap, size, s, m);
    ShutKept(cap, size, s, m);
    ZonesKept(cap, size, s, m);
  }

  ghost predicate MoveAt(cap: int, states: seq<Server>, moves: seq<Move>, i: nat) {
    && i < |moves| && i + 1 < |states|
    && Possible(states[i], moves[i]) && states[i + 1] == Do(cap, states[i], moves[i])
  }

  ghost predicate History(cap: int, size: nat, states: seq<Server>, moves: seq<Move>) {
    && |states| == |moves| + 1 && states[0] == Boot(size)
    && forall i {:trigger MoveAt(cap, states, moves, i)} :: 0 <= i < |moves| ==> MoveAt(cap, states, moves, i)
  }

  lemma BootIsFine(cap: nat, size: nat)
    ensures Inv(cap, size, Boot(size))
  {
    StartIsFine(cap, size);
    assert PoppedIds(Start(size).workers) == {};
    assert Admission.Ids({}) == {};
  }

  lemma {:induction false} EveryServerState(cap: nat, size: nat, states: seq<Server>, moves: seq<Move>, i: nat)
    requires History(cap, size, states, moves) && i < |states|
    ensures Inv(cap, size, states[i])
    decreases i
  {
    if i == 0 {
      BootIsFine(cap, size);
    } else {
      EveryServerState(cap, size, states, moves, i - 1);
      assert MoveAt(cap, states, moves, i - 1);
      MoveKept(cap, size, states[i - 1], moves[i - 1]);
    }
  }

  /**
   In every interleaving: until the shutdown purge the staging map holds exactly the
   runs that are staged, refused or cancelled but not yet un-staged, queued, or popped
   but not yet taken; a launched run gets its own request; and a worker finds no pending
   request only if the drain timed out.
   */
  lemma StagingIsExact(cap: nat, size: nat, states: seq<Server>, moves: seq<Move>, i: nat)
    requires History(cap, size, states, moves) && i < |states|
    ensures var s := states[i]; var z := ZonesOf(s);
      && (!s.purged ==> s.pending.Keys == z.Waiting())
      && (s.purged ==> s.pending.Keys <= s.staged + s.rejected)
      && z.Neat(s.requests.Keys)
      && (forall id :: id in s.launchedWith ==> id in s.requests && s.launchedWith[id] == s.requests[id])
      && (s.missed ==> s.timedOut)
  {
    EveryServerState(cap, size, states, moves, i);
  }

  /** A worker finds its request exactly when the purge has not come first. */
  lemma TakeMisses(cap: int, size: nat, s: Server, w: nat)
    requires Inv(cap, size, s) && Possible(s, TakePending(w))
    ensures Subject(s, TakePending(w)) !in s.pending <==> s.purged
    ensures Do(cap, s, TakePending(w)).missed <==> s.missed || s.purged
  {
    var id, z := Subject(s, TakePending(w)), ZonesOf(s);
    assert id in z.popped by {
      TakeShifts(cap, size, s, w);
    }
    assert id in z.Waiting() && id in z.runs;
  }

  /** The worker of this step comes for its request after the purge. */
  ghost predicate TakesLate(states: seq<Server>, moves: seq<Move>, i: nat) {
    i < |states| && i < |moves| && moves[i].TakePending? && states[i].purged
  }

  lemma MoveMisses(cap: int, size: nat, s: Server, m: Move)
    requires Inv(cap, size, s) && Possible(s, m)
    ensures Do(cap, s, m).missed <==> s.missed || (m.TakePending? && s.purged)
    ensures m.TakePending? && s.purged ==> s.timedOut
  {
    if m.TakePending? {
      TakeMisses(cap, size, s, m.w);
      LateTake(s, m.w);
    }
  }

  lemma StepMisses(cap: nat, size: nat, states: seq<Server>, moves: seq<Move>, i: nat)
    requires History(cap, size, states, moves) && i < |moves|
    ensures states[i + 1].missed <==> states[i].missed || TakesLate(states, moves, i)
    ensures TakesLate(states, moves, i) ==> states[i].timedOut
  {
    EveryServerState(cap, size, states, moves, i);
    assert MoveAt(cap, states, moves, i);
    MoveMisses(cap, size, states[i], moves[i]);
  }

  /**
   In every interleaving some worker has missed its request exactly when some worker took
   after the purge, which a drain without a timeout rules out.
   */
  lemma {:induction false} MissedExactly(cap: nat, size: nat, states: seq<Server>, moves: seq<Move>, i: nat)
    requires History(cap, size, states, moves) && i < |states|
    ensures states[i].missed <==> exists j: nat :: j < i && TakesLate(states, moves, j)
    ensures forall j: nat :: j < i && TakesLate(states, moves, j) ==> states[j].timedOut
    decreases i
  {
    if i > 0 {
      MissedExactly(cap, size, states, moves, i - 1);
      StepMisses(cap, size, states, moves, i - 1);
    }
  }

  /** Nothing leaks: with no handler under way, nothing queued, popped or waiting for the purge, the map is empty. */
  lemma NothingLeftStaged(cap: nat, size: nat, states: seq<Server>, moves: seq<Move>, i: nat)
    requires History(cap, size, states, moves) && i < |states|
    requires var z := ZonesOf(states[i]);
      z.staged == {} && z.rejected == {} && z.cancelled == {} && z.dropped == {} && z.queued == {} && z.popped == {}
    ensures states[i].pending == map[]
  {
    EveryServerState(cap, size, states, moves, i);
    assert states[i].pending.Keys == {};
  }

  /** A run of seven states in which the drain times out between a pop and its take. */
  const LATE := Key(7, 1, 1)

  const LATE_MOVES := [Stage(7, 0), SubmitStaged(7, 1), PopRun(0, LATE), StopScheduler, Purge(true), TakePending(0)]

  function LateState(i: nat): Server
    requires i <= 6
  {
    var slots := map[7 := Admission.Slot(LATE, i > 2)];
    var core := if i < 2 then Admission.EMPTY else Admission.Core(if i == 2 then {LATE} else {}, slots, 1, i > 3);
    var workers := [if i < 3 then Idle else if i < 6 then Popped(LATE) else Launched(LATE)];
    Server(
      Pool(core, workers, if i < 2 then {} else {LATE}, if i < 3 then [] else [LATE], if i < 6 then [] else [LATE], {}),
      if i == 0 then map[] else map[7 := 0],
      if i == 0 || i >= 5 then map[] else map[7 := 0],
      if i == 1 then {7} else {}, {}, {}, {}, i >= 5, i >= 5, i == 6, map[])
  }

  lemma LateSubmits()
    ensures Possible(LateState(1), LATE_MOVES[1]) && Do(1, LateState(1), LATE_MOVES[1]) == LateState(2)
  {
    assert {LATE} == {} + {LATE};
  }

  lemma LateBegins(i: nat)
    requires i < 3
    ensures Possible(LateState(i), LATE_MOVES[i]) && Do(1, LateState(i), LATE_MOVES[i]) == LateState(i + 1)
  {
    if i == 1 {
      LateSubmits();
    }
  }

  lemma LateEnds(i: nat)
    requires 3 <= i < 6
    ensures Possible(LateState(i), LATE_MOVES[i]) && Do(1, LateState(i), LATE_MOVES[i]) == LateState(i + 1)
  {
    match i
    case 3 => assert Admission.Ids({}) == {};
    case _ =>
  }

  /** The timeout matters: with one, a worker can really miss its request. */
  lemma TimeoutCanMiss()
    ensures exists states: seq<Server>, moves: seq<Move> :: History(1, 1, states, moves) && states[|states| - 1].missed
  {
    var states := seq(7, i requires 0 <= i <= 6 => LateState(i));
    assert LateState(0) == Boot(1);
    forall i | 0 <= i < 6 ensures MoveAt(1, states, LATE_MOVES, i) {
      if i < 3 {
        LateBegins(i);
      } else {
        LateEnds(i);
      }
    }
    assert History(1, 1, states, LATE_MOVES);
  }
}
