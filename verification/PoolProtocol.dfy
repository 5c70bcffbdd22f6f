/** The scheduler as a concurrent protocol, one critical section at a time. */
module PoolProtocol {
  import opened HeapOrder
  import Admission

  /** Where a pool goroutine is. Popped: it holds a run it has not launched yet. */
  datatype Worker = Idle | Popped(key: Key) | Launched(key: Key) | Exited
  {
    predicate Busy() {
      Popped? || Launched?
    }
  }

  /** The guarded state, the workers, and the history of what happened to every accepted run. */
  datatype Pool = Pool(
    core: Admission.Core,
    workers: seq<Worker>,
    accepted: set<Key>,
    popped: seq<Key>,
    launched: seq<Key>,
    cancelled: set<Key>)

  datatype Action =
    | Submit(id: RunID, priority: int)
    | Cancel(id: RunID)
    | Stop
    | Pop(w: nat, key: Key)
    | Launch(w: nat)
    | Finish(w: nat)
    | Exit(w: nat)

  function Start(size: nat): Pool {
    Pool(Admission.EMPTY, seq(size, _ => Idle), {}, [], [], {})
  }

  /** Calls are always possible; a worker step needs the worker to be there. */
  predicate Enabled(p: Pool, a: Action) {
    match a
    case Submit(_, _) => true
    case Cancel(_) => true
    case Stop => true
    case Pop(w, k) => w < |p.workers| && p.workers[w] == Idle && Admission.IsFirst(p.core.queued, k)
    case Launch(w) => w < |p.workers| && p.workers[w].Popped?
    case Finish(w) => w < |p.workers| && p.workers[w].Launched?
    case Exit(w) => w < |p.workers| && p.workers[w] == Idle && p.core.stopped && p.core.queued == {}
  }

  function Next(cap: int, p: Pool, a: Action): Pool
    requires Enabled(p, a)
  {
    match a
    case Submit(id, priority) =>
      if Admission.Judge(p.core, cap, id) == Admission.Accepted then
        var k := Admission.NewKey(p.core, id, priority);
        p.(core := Admission.Admitted(p.core, k), accepted := p.accepted + {k})
      else p
    case Cancel(id) =>
      if Admission.Cancellable(p.core, id) then
        p.(core := Admission.Cancel(p.core, id), cancelled := p.cancelled + {p.core.runs[id].key})
      else p
    case Stop =>
      p.(core := Admission.Stop(p.core), cancelled := p.cancelled + if p.core.stopped then {} else p.core.queued)
    case Pop(w, k) =>
      p.(core := Admission.Take(p.core, k), workers := p.workers[w := Popped(k)], popped := p.popped + [k])
    case Launch(w) =>
      p.(workers := p.workers[w := Launched(p.workers[w].key)], launched := p.launched + [p.workers[w].key])
    case Finish(w) =>
      p.(core := Admission.Finish(p.core, p.workers[w].key.runID), workers := p.workers[w := Idle])
    case Exit(w) =>
      p.(workers := p.workers[w := Exited])
  }

  /** The run ids held by workers. */
  function Held(ws: seq<Worker>): set<RunID> {
    set w | 0 <= w < |ws| && ws[w].Busy() :: ws[w].key.runID
  }

  ghost predicate WorkerOk(c: Admission.Core, ws: seq<Worker>, w: nat) {
    w < |ws| && (ws[w].Busy() ==>
      ws[w].key.runID in c.runs && c.runs[ws[w].key.runID] == Admission.Slot(ws[w].key, true))
  }

  ghost predicate Apart(ws: seq<Worker>, v: nat, w: nat) {
    v < |ws| && w < |ws| && (ws[v].Busy() && ws[w].Busy() ==> ws[v].key.runID != ws[w].key.runID)
  }

  /** Running runs and busy workers correspond one to one. */
  ghost predicate Crew(c: Admission.Core, ws: seq<Worker>) {
    && (forall w {:trigger WorkerOk(c, ws, w)} :: 0 <= w < |ws| ==> WorkerOk(c, ws, w))
    && (forall v, w {:trigger Apart(ws, v, w)} :: 0 <= v < w < |ws| ==> Apart(ws, v, w))
    && (forall id :: id in c.runs && c.runs[id].running ==> id in Held(ws))
  }

  ghost predicate Control(cap: int, size: nat, p: Pool) {
    Admission.Valid(p.core) && |p.core.queued| <= cap && |p.workers| == size && Crew(p.core, p.workers)
  }

  lemma CrewUpdate(c: Admission.Core, d: Admission.Core, ws: seq<Worker>, w: nat, x: Worker)
    requires w < |ws| && Crew(c, ws)
    requires forall v {:trigger WorkerOk(d, ws, v)} ::
      0 <= v < |ws| && v != w && WorkerOk(c, ws, v) ==> WorkerOk(d, ws, v)
    requires x.Busy() ==> x.key.runID in d.runs && d.runs[x.key.runID] == Admission.Slot(x.key, true)
    requires x.Busy() ==> forall v :: 0 <= v < |ws| && v != w && ws[v].Busy() ==> ws[v].key.runID != x.key.runID
    requires forall id :: id in d.runs && d.runs[id].running ==> id in Held(ws[w := x])
    ensures Crew(d, ws[w := x])
  {
    var t := ws[w := x];
    forall v | 0 <= v < |t| ensures WorkerOk(d, t, v) {
      assert WorkerOk(c, ws, v);
      if v != w { assert WorkerOk(d, ws, v); }
    }
    forall u, v | 0 <= u < v < |t| ensures Apart(t, u, v) {
      assert Apart(ws, u, v);
    }
  }

  lemma HeldUpdate(ws: seq<Worker>, w: nat, x: Worker, id: RunID)
    requires w < |ws|
    ensures id in Held(ws) && !(ws[w].Busy() && ws[w].key.runID == id) ==> id in Held(ws[w := x])
    ensures x.Busy() ==> x.key.runID in Held(ws[w := x])
  {
    var t := ws[w := x];
    assert t[w] == x;
    if id in Held(ws) && !(ws[w].Busy() && ws[w].key.runID == id) {
      var v :| 0 <= v < |ws| && ws[v].Busy() && ws[v].key.runID == id;
      assert t[v] == ws[v];
    }
  }

  /** Changes of the guarded state that leave running runs alone keep the crew. */
  lemma CrewKept(c: Admission.Core, d: Admission.Core, ws: seq<Worker>)
    requires Crew(c, ws)
    requires forall id :: id in c.runs && c.runs[id].running ==> id in d.runs && d.runs[id] == c.runs[id]
    requires forall id :: id in d.runs && d.runs[id].running ==> id in c.runs && c.runs[id].running
    ensures Crew(d, ws)
  {
    forall w | 0 <= w < |ws| ensures WorkerOk(d, ws, w) {
      assert WorkerOk(c, ws, w);
    }
  }

  lemma ControlKept(cap: int, size: nat, p: Pool, a: Action)
    requires Control(cap, size, p) && Enabled(p, a)
    ensures Control(cap, size, Next(cap, p, a))
  {
    match a
    case Submit(id, priority) =>
      Admission.SubmitKeepsValid(p.core, cap, id, priority);
      SubmitCrew(p.core, cap, p.workers, id, priority);
    case Cancel(id) =>
      Admission.CancelKeepsValid(p.core, id);
      CancelCrew(p.core, p.workers, id);
    case Stop =>
      Admission.StopKeepsValid(p.core);
      StopCrew(p.core, p.workers);
    case Pop(w, k) =>
      Admission.TakeKeepsValid(p.core, k);
      PopCrew(p.core, p.workers, w, k);
    case Launch(w) =>
      LaunchCrew(p.core, p.workers, w);
    case Finish(w) =>
      assert WorkerOk(p.core, p.workers, w);
      Admission.FinishKeepsValid(p.core, p.workers[w].key.runID);
      FinishCrew(p.core, p.workers, w);
    case Exit(w) =>
      ExitCrew(p.core, p.workers, w);
  }

  lemma SubmitCrew(c: Admission.Core, cap: int, ws: seq<Worker>, id: RunID, priority: int)
    requires Crew(c, ws)
    ensures Crew(Admission.Submit(c, cap, id, priority), ws)
  {
    CrewKept(c, Admission.Submit(c, cap, id, priority), ws);
  }

  lemma CancelCrew(c: Admission.Core, ws: seq<Worker>, id: RunID)
    requires Crew(c, ws)
    ensures Crew(Admission.Cancel(c, id), ws)
  {
    CrewKept(c, Admission.Cancel(c, id), ws);
  }

  lemma StopCrew(c: Admission.Core, ws: seq<Worker>)
    requires Admission.Valid(c) && Crew(c, ws)
    ensures Crew(Admission.Stop(c), ws)
  {
    Admission.RunsSplit(c);
    CrewKept(c, Admission.Stop(c), ws);
  }

  lemma PopCrew(c: Admission.Core, ws: seq<Worker>, w: nat, k: Key)
    requires Admission.Valid(c) && Crew(c, ws) && w < |ws| && ws[w] == Idle && k in c.queued
    ensures Crew(Admission.Take(c, k), ws[w := Popped(k)])
  {
    var d := Admission.Take(c, k);
    forall v | 0 <= v < |ws| && ws[v].Busy() ensures ws[v].key.runID != k.runID {
      assert WorkerOk(c, ws, v);
    }
    forall id | id in d.runs && d.runs[id].running ensures id in Held(ws[w := Popped(k)]) {
      HeldUpdate(ws, w, Popped(k), id);
    }
    CrewUpdate(c, d, ws, w, Popped(k));
  }

  lemma LaunchCrew(c: Admission.Core, ws: seq<Worker>, w: nat)
    requires Crew(c, ws) && w < |ws| && ws[w].Popped?
    ensures Crew(c, ws[w := Launched(ws[w].key)])
  {
    assert WorkerOk(c, ws, w);
    forall v | 0 <= v < |ws| && v != w && ws[v].Busy() ensures ws[v].key.runID != ws[w].key.runID {
      assert v < w ==> Apart(ws, v, w);
      assert w < v ==> Apart(ws, w, v);
    }
    forall id | id in c.runs && c.runs[id].running ensures id in Held(ws[w := Launched(ws[w].key)]) {
      HeldUpdate(ws, w, Launched(ws[w].key), id);
    }
    CrewUpdate(c, c, ws, w, Launched(ws[w].key));
  }

  lemma FinishCrew(c: Admission.Core, ws: seq<Worker>, w: nat)
    requires Crew(c, ws) && w < |ws| && ws[w].Launched?
    ensures Crew(Admission.Finish(c, ws[w].key.runID), ws[w := Idle])
  {
    var d := Admission.Finish(c, ws[w].key.runID);
    forall v | 0 <= v < |ws| && v != w && WorkerOk(c, ws, v) ensures WorkerOk(d, ws, v) {
      assert v < w ==> Apart(ws, v, w);
      assert w < v ==> Apart(ws, w, v);
    }
    forall id | id in d.runs && d.runs[id].running ensures id in Held(ws[w := Idle]) {
      HeldUpdate(ws, w, Idle, id);
    }
    CrewUpdate(c, d, ws, w, Idle);
  }

  lemma ExitCrew(c: Admission.Core, ws: seq<Worker>, w: nat)
    requires Crew(c, ws) && w < |ws| && ws[w] == Idle
    ensures Crew(c, ws[w := Exited])
  {
    forall id | id in c.runs && c.runs[id].running ensures id in Held(ws[w := Exited]) {
      HeldUpdate(ws, w, Exited, id);
    }
    CrewUpdate(c, c, ws, w, Exited);
  }

  lemma {:induction false} HeldSize(ws: seq<Worker>)
    ensures |Held(ws)| <= |ws|
    decreases |ws|
  {
    if ws == [] {
      assert Held(ws) == {};
    } else {
      var init, last := ws[..|ws| - 1], ws[|ws| - 1];
      HeldSize(init);
      var more := if last.Busy() then {last.key.runID} else {};
      forall id | id in Held(ws) ensures id in Held(init) + more {
        var w :| 0 <= w < |ws| && ws[w].Busy() && ws[w].key.runID == id;
        if w < |init| { assert init[w] == ws[w]; }
      }
      forall id | id in Held(init) + more ensures id in Held(ws) {
        if id in Held(init) {
          var w :| 0 <= w < |init| && init[w].Busy() && init[w].key.runID == id;
          assert ws[w] == init[w];
        }
      }
      assert Held(ws) == Held(init) + more;
    }
  }

  /** The running runs never outnumber the pool. */
  lemma RunningFits(cap: int, size: nat, p: Pool)
    requires Control(cap, size, p)
    ensures |Admission.RunningIds(p.core)| <= size
  {
    var running := Admission.RunningIds(p.core);
    forall id | id in Held(p.workers) ensures id in running {
      var w :| 0 <= w < |p.workers| && p.workers[w].Busy() && p.workers[w].key.runID == id;
      assert WorkerOk(p.core, p.workers, w);
    }
    assert running == Held(p.workers);
    HeldSize(p.workers);
  }

  function ToSet(s: seq<Key>): set<Key> {
    set k | k in s
  }

  ghost predicate NoRepeats(s: seq<Key>) {
    forall i, j :: 0 <= i < j < |s| ==> s[i] != s[j]
  }

  /** Every accepted run is in exactly one place: queued, cancelled, or popped once. */
  ghost predicate Ledger(c: Admission.Core, accepted: set<Key>, popped: seq<Key>, cancelled: set<Key>) {
    && accepted == c.queued + cancelled + ToSet(popped)
    && c.queued !! cancelled && c.queued !! ToSet(popped) && cancelled !! ToSet(popped)
    && NoRepeats(popped)
    && (forall k :: k in accepted ==> k.submitSeq <= c.counter)
  }

  /** Of two runs of one priority, a was submitted first. */
  predicate InTurn(a: Key, b: Key) {
    a.priority == b.priority ==> a.submitSeq < b.submitSeq
  }

  /** Runs leave the queue in submission order within a priority. */
  ghost predicate Fifo(queued: set<Key>, popped: seq<Key>) {
    && (forall i, j :: 0 <= i < j < |popped| ==> InTurn(popped[i], popped[j]))
    && (forall i, q :: 0 <= i < |popped| && q in queued ==> InTurn(popped[i], q))
  }

  ghost predicate PendingOk(ws: seq<Worker>, popped: seq<Key>, launched: seq<Key>, w: nat) {
    w < |ws| && (ws[w].Popped? ==> ws[w].key in popped && ws[w].key !in launched)
  }

  /** Launches happen to popped runs, each at most once; a popped run not launched is still held. */
  ghost predicate Launches(ws: seq<Worker>, popped: seq<Key>, launched: seq<Key>) {
    && NoRepeats(launched)
    && (forall k :: k in launched ==> k in popped)
    && (forall w {:trigger PendingOk(ws, popped, launched, w)} :: 0 <= w < |ws| ==> PendingOk(ws, popped, launched, w))
  }

  ghost predicate History(p: Pool) {
    && Ledger(p.core, p.accepted, p.popped, p.cancelled)
    && Fifo(p.core.queued, p.popped)
    && Launches(p.workers, p.popped, p.launched)
  }

  lemma PopLedger(c: Admission.Core, accepted: set<Key>, popped: seq<Key>, cancelled: set<Key>, k: Key)
    requires Ledger(c, accepted, popped, cancelled) && Fifo(c.queued, popped) && Admission.IsFirst(c.queued, k)
    ensures Ledger(Admission.Take(c, k), accepted, popped + [k], cancelled)
    ensures Fifo(c.queued - {k}, popped + [k])
  {
    var t := popped + [k];
    assert ToSet(t) == ToSet(popped) + {k};
    forall i, j | 0 <= i < j < |t| ensures t[i] != t[j] {
      assert t[i] in ToSet(popped);
    }
    var rest := c.queued - {k};
    forall i, q | 0 <= i < |t| && q in rest
      ensures InTurn(t[i], q)
    {
      if i == |popped| { assert Before(k, q); } else { assert InTurn(popped[i], q); }
    }
    forall i, j | 0 <= i < j < |t|
      ensures InTurn(t[i], t[j])
    {
      if j < |popped| { assert InTurn(popped[i], popped[j]); } else { assert InTurn(popped[i], k); }
    }
  }

  lemma SubmitLedger(c: Admission.Core, accepted: set<Key>, popped: seq<Key>, cancelled: set<Key>, k: Key)
    requires Ledger(c, accepted, popped, cancelled) && Fifo(c.queued, popped) && k.submitSeq == c.counter + 1
    ensures Ledger(Admission.Admitted(c, k), accepted + {k}, popped, cancelled)
    ensures Fifo(c.queued + {k}, popped)
  {
    assert k !in accepted;
    forall i | 0 <= i < |popped| ensures popped[i].submitSeq <= c.counter {
      assert popped[i] in ToSet(popped);
    }
  }

  lemma CancelLedger(c: Admission.Core, d: Admission.Core, accepted: set<Key>, popped: seq<Key>,
                     cancelled: set<Key>, gone: set<Key>)
    requires Ledger(c, accepted, popped, cancelled) && Fifo(c.queued, popped)
    requires gone <= c.queued && d.queued == c.queued - gone && d.counter == c.counter
    ensures Ledger(d, accepted, popped, cancelled + gone) && Fifo(d.queued, popped)
  {
  }

  lemma WorkersUpdate(ws: seq<Worker>, popped: seq<Key>, launched: seq<Key>, w: nat, x: Worker)
    requires w < |ws| && Launches(ws, popped, launched)
    requires x.Popped? ==> x.key in popped && x.key !in launched
    ensures Launches(ws[w := x], popped, launched)
  {
    var t := ws[w := x];
    forall v | 0 <= v < |t| ensures PendingOk(t, popped, launched, v) {
      assert PendingOk(ws, popped, launched, v);
    }
  }

  lemma PopLaunches(ws: seq<Worker>, popped: seq<Key>, launched: seq<Key>, w: nat, k: Key)
    requires w < |ws| && Launches(ws, popped, launched) && k !in popped
    ensures Launches(ws[w := Popped(k)], popped + [k], launched)
  {
    var more := popped + [k];
    forall v | 0 <= v < |ws| ensures PendingOk(ws, more, launched, v) {
      assert PendingOk(ws, popped, launched, v);
    }
    assert k !in launched;
    WorkersUpdate(ws, more, launched, w, Popped(k));
  }

  lemma LaunchLaunches(c: Admission.Core, ws: seq<Worker>, popped: seq<Key>, launched: seq<Key>, w: nat)
    requires w < |ws| && Launches(ws, popped, launched) && ws[w].Popped? && Crew(c, ws)
    ensures Launches(ws[w := Launched(ws[w].key)], popped, launched + [ws[w].key])
  {
    var k := ws[w].key;
    var t, l := ws[w := Launched(k)], launched + [k];
    assert PendingOk(ws, popped, launched, w);
    forall i, j | 0 <= i < j < |l| ensures l[i] != l[j] {
      if j == |launched| { assert launched[i] in launched; }
    }
    forall v | 0 <= v < |t| ensures PendingOk(t, popped, l, v) {
      assert PendingOk(ws, popped, launched, v);
      assert v < w ==> Apart(ws, v, w);
      assert w < v ==> Apart(ws, w, v);
    }
  }

  lemma HistoryKept(cap: int, size: nat, p: Pool, a: Action)
    requires Control(cap, size, p) && History(p) && Enabled(p, a)
    ensures History(Next(cap, p, a))
  {
    match a
    case Submit(id, priority) =>
      SubmitLedger(p.core, p.accepted, p.popped, p.cancelled, Admission.NewKey(p.core, id, priority));
    case Cancel(id) =>
      if Admission.Cancellable(p.core, id) {
        CancelLedger(p.core, Admission.Cancel(p.core, id), p.accepted, p.popped, p.cancelled, {p.core.runs[id].key});
      }
    case Stop =>
      if !p.core.stopped {
        CancelLedger(p.core, Admission.Stop(p.core), p.accepted, p.popped, p.cancelled, p.core.queued);
      } else {
        assert p.cancelled + {} == p.cancelled;
      }
    case Pop(w, k) =>
      assert k !in ToSet(p.popped);
      PopLedger(p.core, p.accepted, p.popped, p.cancelled, k);
      PopLaunches(p.workers, p.popped, p.launched, w, k);
    case Launch(w) =>
      LaunchLaunches(p.core, p.workers, p.popped, p.launched, w);
    case Finish(w) =>
      WorkersUpdate(p.workers, p.popped, p.launched, w, Idle);
    case Exit(w) =>
      WorkersUpdate(p.workers, p.popped, p.launched, w, Exited);
  }

  ghost predicate StepAt(cap: int, states: seq<Pool>, actions: seq<Action>, i: nat) {
    && i < |actions| && i + 1 < |states|
    && Enabled(states[i], actions[i]) && states[i + 1] == Next(cap, states[i], actions[i])
  }

  /** A finite execution: consecutive states are one enabled action apart. */
  ghost predicate Execution(cap: int, size: nat, states: seq<Pool>, actions: seq<Action>) {
    && |states| == |actions| + 1 && states[0] == Start(size)
    && forall i {:trigger StepAt(cap, states, actions, i)} :: 0 <= i < |actions| ==> StepAt(cap, states, actions, i)
  }

  lemma StartIsFine(cap: nat, size: nat)
    ensures Control(cap, size, Start(size)) && History(Start(size))
  {
    var ws := Start(size).workers;
    forall w | 0 <= w < |ws| ensures WorkerOk(Admission.EMPTY, ws, w) && PendingOk(ws, [], [], w) {
    }
  }

  lemma {:induction false} EveryStateIsFine(cap: nat, size: nat, states: seq<Pool>, actions: seq<Action>, i: nat)
    requires Execution(cap, size, states, actions) && i < |states|
    ensures Control(cap, size, states[i]) && History(states[i])
    decreases i
  {
    if i == 0 {
      StartIsFine(cap, size);
    } else {
      EveryStateIsFine(cap, size, states, actions, i - 1);
      assert StepAt(cap, states, actions, i - 1);
      ControlKept(cap, size, states[i - 1], actions[i - 1]);
      HistoryKept(cap, size, states[i - 1], actions[i - 1]);
    }
  }

  /** k leaves the queue before any other run in it. */
  ghost predicate Foremost(queued: set<Key>, k: Key) {
    k in queued && forall q :: q in queued && q != k ==>
      q.priority < k.priority || (q.priority == k.priority && q.submitSeq > k.submitSeq)
  }

  /** Every pop takes a queued run, and no run of higher priority, or of the same one and older, is queued then. */
  lemma PopsInOrder(cap: nat, size: nat, states: seq<Pool>, actions: seq<Action>, j: nat)
    requires Execution(cap, size, states, actions) && j < |actions| && actions[j].Pop?
    ensures var k, p, q := actions[j].key, states[j], states[j + 1];
      && Foremost(p.core.queued, k)
      && q.core.queued == p.core.queued - {k} && q.popped == p.popped + [k]
      && k.runID in q.core.runs && q.core.runs[k.runID].running
  {
    assert StepAt(cap, states, actions, j);
  }

  /** Nothing but a pop adds to the popped runs. */
  lemma {:induction false} PoppedInTurn(cap: nat, size: nat, states: seq<Pool>, actions: seq<Action>, i: nat)
    requires Execution(cap, size, states, actions) && i < |states|
    ensures forall k :: k in states[i].popped ==>
      exists j: nat :: j < i && PoppedBy(states, actions, j, k)
    decreases i
  {
    if i > 0 {
      var last: nat := i - 1;
      PoppedInTurn(cap, size, states, actions, last);
      assert StepAt(cap, states, actions, last);
      if actions[last].Pop? {
        PopsInOrder(cap, size, states, actions, last);
        assert PoppedBy(states, actions, last, actions[last].key);
      }
    }
  }

  /** Step j popped k, which was the first of the queue. */
  ghost predicate PoppedBy(states: seq<Pool>, actions: seq<Action>, j: nat, k: Key) {
    j < |actions| && j < |states| && actions[j].Pop? && actions[j].key == k && Foremost(states[j].core.queued, k)
  }

  /**
   Submitting queues the run with the submitted priority and a sequence number above all
   earlier ones, unless the scheduler has stopped, knows the run, or is full; then nothing changes.
   */
  lemma SubmitQueues(cap: nat, size: nat, states: seq<Pool>, actions: seq<Action>, j: nat)
    requires Execution(cap, size, states, actions) && j < |actions| && actions[j].Submit?
    ensures var p, q, a := states[j], states[j + 1], actions[j];
      if p.core.stopped || a.id in p.core.runs || |p.core.queued| >= cap then q == p
      else
        var k := Key(a.id, a.priority, q.core.counter);
        && q.core.queued == p.core.queued + {k} && q.accepted == p.accepted + {k}
        && (forall x :: x in p.accepted ==> x.submitSeq < k.submitSeq)
  {
    EveryStateIsFine(cap, size, states, actions, j);
    assert StepAt(cap, states, actions, j);
  }

  /**
   Safety in every interleaving: the runs are the disjoint union of queued and running,
   both within bounds; an accepted run is launched at most once and never both launched
   and cancelled; within a priority runs are popped in submission order, and no run is
   popped while one of higher priority is queued.
   */
  lemma PoolSafety(cap: nat, size: nat, states: seq<Pool>, actions: seq<Action>, i: nat)
    requires Execution(cap, size, states, actions) && i < |states|
    ensures var p := states[i];
      && p.core.runs.Keys == Admission.Ids(p.core.queued) + Admission.RunningIds(p.core)
      && Admission.Ids(p.core.queued) !! Admission.RunningIds(p.core)
      && |p.core.queued| <= cap && |Admission.RunningIds(p.core)| <= size
      && NoRepeats(p.launched) && ToSet(p.launched) <= p.accepted && ToSet(p.launched) !! p.cancelled
      && Fifo(p.core.queued, p.popped)
      && (forall k :: k in p.popped ==> exists j: nat :: j < i && PoppedBy(states, actions, j, k))
  {
    PoppedInTurn(cap, size, states, actions, i);
    EveryStateIsFine(cap, size, states, actions, i);
    Admission.RunsSplit(states[i].core);
    RunningFits(cap, size, states[i]);
    forall k | k in ToSet(states[i].launched) ensures k in ToSet(states[i].popped) {
    }
  }

  lemma StoppedStep(cap: int, size: nat, p: Pool, a: Action)
    requires Control(cap, size, p) && Enabled(p, a) && p.core.stopped
    ensures Next(cap, p, a).core.stopped && Next(cap, p, a).popped == p.popped
  {
  }

  lemma FrozenStep(cap: nat, size: nat, states: seq<Pool>, actions: seq<Action>, j: nat)
    requires Execution(cap, size, states, actions) && j < |actions| && states[j].core.stopped
    ensures states[j + 1].core.stopped && states[j + 1].popped == states[j].popped
  {
    EveryStateIsFine(cap, size, states, actions, j);
    assert StepAt(cap, states, actions, j);
    StoppedStep(cap, size, states[j], actions[j]);
  }

  lemma {:induction false} PoppedFrozen(cap: nat, size: nat, states: seq<Pool>, actions: seq<Action>, i: nat, j: nat)
    requires Execution(cap, size, states, actions) && i <= j < |states| && states[i].core.stopped
    ensures states[j].core.stopped && states[j].popped == states[i].popped
    decreases j - i
  {
    if i < j {
      PoppedFrozen(cap, size, states, actions, i, j - 1);
      FrozenStep(cap, size, states, actions, j - 1);
    }
  }

  /** After Stop's critical section nothing is popped any more, so only runs popped before it are ever launched. */
  lemma NothingPoppedAfterStop(cap: nat, size: nat, states: seq<Pool>, actions: seq<Action>, i: nat, j: nat)
    requires Execution(cap, size, states, actions) && i <= j < |states| && states[i].core.stopped
    ensures states[j].popped == states[i].popped
    ensures forall k :: k in states[j].launched ==> k in states[i].popped
  {
    EveryStateIsFine(cap, size, states, actions, j);
    PoppedFrozen(cap, size, states, actions, i, j);
  }
}
