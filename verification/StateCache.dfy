/** The bounded per-run projection of internal/server/state_cache.go. */
module StateCache {
  import opened Common
  import opened Events
  import opened Runtime
  import RuntimeLaws

  /** The cached states, and the run ids in insertion order. */
  datatype Cache = Cache(states: map<string, State>, order: seq<string>)

  const EMPTY := Cache(map[], [])

  function Elements(order: seq<string>): set<string> {
    set i | 0 <= i < |order| :: order[i]
  }

  /** The order lists exactly these ids, each once. */
  ghost predicate Lists(order: seq<string>, ids: set<string>) {
    && (forall i, j {:trigger Differ(order, i, j)} :: 0 <= i < j < |order| ==> Differ(order, i, j))
    && Elements(order) == ids
  }

  predicate Differ(order: seq<string>, i: int, j: int) {
    0 <= i < |order| && 0 <= j < |order| && order[i] != order[j]
  }

  ghost predicate Consistent(c: Cache) {
    Lists(c.order, c.states.Keys)
  }

  predicate TerminalAt(c: Cache, i: int) {
    0 <= i < |c.order| && c.order[i] in c.states && c.states[c.order[i]].phase.IsTerminal()
  }

  /** The position of the oldest terminal run at or after i, or the length. */
  function FirstTerminal(c: Cache, i: nat): (k: nat)
    requires i <= |c.order|
    ensures i <= k <= |c.order| && (k < |c.order| ==> TerminalAt(c, k))
    ensures forall j {:trigger TerminalAt(c, j)} :: i <= j < k ==> !TerminalAt(c, j)
    decreases |c.order| - i
  {
    if i == |c.order| || TerminalAt(c, i) then i else FirstTerminal(c, i + 1)
  }

  /** The oldest terminal run, or the oldest run when none is terminal. */
  function Victim(c: Cache): (i: nat)
    requires c.order != []
    ensures i < |c.order|
  {
    if FirstTerminal(c, 0) < |c.order| then FirstTerminal(c, 0) else 0
  }

  function Drop(c: Cache, i: nat): Cache
    requires i < |c.order|
  {
    Cache(c.states - {c.order[i]}, c.order[..i] + c.order[i + 1..])
  }

  function EvictIfFull(c: Cache, capacity: nat): Cache {
    if |c.order| <= capacity then c else Drop(c, Victim(c))
  }

  function Inserted(c: Cache, id: string, now: int): Cache {
    Cache(c.states[id := NewState(id, now)], c.order + [id])
  }

  /** The state of one run after one event, if the run is cached. */
  function Observed(c: Cache, ev: Event, now: int): Cache {
    if ev.runID !in c.states then c
    else c.(states := c.states[ev.runID := Observe(c.states[ev.runID], ev, now)])
  }

  function Absorb(c: Cache, capacity: nat, ev: Event, now: int): Cache {
    var present := if ev.runID in c.states then c else EvictIfFull(Inserted(c, ev.runID, now), capacity);
    Observed(present, ev, now)
  }

  function Position(order: seq<string>, id: string): (i: nat)
    ensures i <= |order| && (i < |order| ==> order[i] == id) && forall k :: 0 <= k < i ==> order[k] != id
  {
    if order == [] || order[0] == id then 0 else 1 + Position(order[1..], id)
  }

  function Forgotten(c: Cache, id: string): Cache {
    if id !in c.states then c
    else if Position(c.order, id) < |c.order| then Drop(c, Position(c.order, id))
    else c.(states := c.states - {id})
  }

  // ----- consistency

  lemma ListsDrop(order: seq<string>, ids: set<string>, i: nat)
    requires Lists(order, ids) && i < |order|
    ensures Lists(order[..i] + order[i + 1..], ids - {order[i]}) && order[i] in ids
  {
    var rest := order[..i] + order[i + 1..];
    assert forall j :: 0 <= j < |rest| ==> rest[j] == order[if j < i then j else j + 1];
    forall j, k | 0 <= j < k < |rest| ensures Differ(rest, j, k) {
      assert Differ(order, if j < i then j else j + 1, if k < i then k else k + 1);
    }
    forall j | 0 <= j < |order| && j != i ensures order[j] != order[i] {
      assert if j < i then Differ(order, j, i) else Differ(order, i, j);
    }
    forall id | id in ids && id != order[i] ensures id in Elements(rest) {
      var j :| 0 <= j < |order| && order[j] == id;
      assert rest[if j < i then j else j - 1] == id;
    }
  }

  lemma ListsPush(order: seq<string>, ids: set<string>, id: string)
    requires Lists(order, ids) && id !in ids
    ensures Lists(order + [id], ids + {id})
  {
    var more := order + [id];
    assert more[|order|] == id && forall j :: 0 <= j < |order| ==> more[j] == order[j] && order[j] in Elements(order);
    forall j, k | 0 <= j < k < |more| ensures Differ(more, j, k) {
      if k < |order| {
        assert Differ(order, j, k);
      }
    }
  }

  lemma DropConsistent(c: Cache, i: nat)
    requires Consistent(c) && i < |c.order|
    ensures Consistent(Drop(c, i)) && |Drop(c, i).order| == |c.order| - 1
    ensures Drop(c, i).states.Keys == c.states.Keys - {c.order[i]}
  {
    ListsDrop(c.order, c.states.Keys, i);
    assert Drop(c, i).states.Keys == c.states.Keys - {c.order[i]};
  }

  lemma InsertedConsistent(c: Cache, id: string, now: int)
    requires Consistent(c) && id !in c.states
    ensures Consistent(Inserted(c, id, now))
  {
    ListsPush(c.order, c.states.Keys, id);
    assert Inserted(c, id, now).states.Keys == c.states.Keys + {id};
  }

  /** A fresh run is never the victim of its own insertion. */
  lemma NewcomerStays(c: Cache, capacity: nat, id: string, now: int)
    requires Consistent(c) && id !in c.states && 0 < capacity
    ensures id in EvictIfFull(Inserted(c, id, now), capacity).states
  {
    var d := Inserted(c, id, now);
    InsertedConsistent(c, id, now);
    assert d.order[|c.order|] == id && d.states[id].phase == Submitted;
    assert !TerminalAt(d, |c.order|);
    if |d.order| > capacity {
      assert Victim(d) < |c.order|;
    }
  }

  lemma EvictedConsistent(c: Cache, capacity: nat)
    requires Consistent(c) && |c.order| <= capacity + 1
    ensures Consistent(EvictIfFull(c, capacity)) && |EvictIfFull(c, capacity).order| <= capacity
  {
    if |c.order| > capacity {
      DropConsistent(c, Victim(c));
    }
  }

  lemma ObservedKeeps(c: Cache, ev: Event, now: int)
    ensures Observed(c, ev, now).order == c.order && Observed(c, ev, now).states.Keys == c.states.Keys
  {
  }

  lemma ApplyConsistent(c: Cache, capacity: nat, ev: Event, now: int)
    requires Consistent(c) && |c.order| <= capacity && 0 < capacity
    ensures var d := Absorb(c, capacity, ev, now);
      Consistent(d) && |d.order| <= capacity && ev.runID in d.states
  {
    if ev.runID in c.states {
      ObservedKeeps(c, ev, now);
    } else {
      InsertedConsistent(c, ev.runID, now);
      EvictedConsistent(Inserted(c, ev.runID, now), capacity);
      NewcomerStays(c, capacity, ev.runID, now);
      ObservedKeeps(EvictIfFull(Inserted(c, ev.runID, now), capacity), ev, now);
    }
  }

  lemma ForgetConsistent(c: Cache, id: string)
    requires Consistent(c)
    ensures Consistent(Forgotten(c, id)) && Forgotten(c, id).states.Keys == c.states.Keys - {id}
    ensures |Forgotten(c, id).order| <= |c.order|
  {
    if id in c.states {
      assert id in Elements(c.order);
      DropConsistent(c, Position(c.order, id));
    }
  }

  /**
   Applying an event drops at most one run, never the run of the event, and a run still
   in flight only when no cached run is terminal.
   */
  lemma EvictionSparesLiveRuns(c: Cache, capacity: nat, ev: Event, now: int, lost: string)
    requires Consistent(c) && |c.order| <= capacity && 0 < capacity
    requires lost in c.states && lost !in Absorb(c, capacity, ev, now).states
    ensures lost != ev.runID && ev.runID !in c.states && |c.order| == capacity
    ensures c.states[lost].phase.IsTerminal() || forall id :: id in c.states ==> !c.states[id].phase.IsTerminal()
    ensures Absorb(c, capacity, ev, now).states.Keys == c.states.Keys - {lost} + {ev.runID}
  {
    var d := Inserted(c, ev.runID, now);
    InsertedConsistent(c, ev.runID, now);
    NewcomerStays(c, capacity, ev.runID, now);
    DropConsistent(d, Victim(d));
    ObservedKeeps(EvictIfFull(d, capacity), ev, now);
    VictimIsTerminalIfAny(d);
    assert d.states[lost] == c.states[lost];
    forall id | id in c.states ensures d.states[id] == c.states[id] {
    }
  }

  /** A live victim means that no run at all is terminal. */
  lemma VictimIsTerminalIfAny(d: Cache)
    requires Consistent(d) && d.order != []
    ensures d.order[Victim(d)] in Elements(d.order)
    ensures d.states[d.order[Victim(d)]].phase.IsTerminal()
         || forall id :: id in d.states ==> !d.states[id].phase.IsTerminal()
  {
    if FirstTerminal(d, 0) == |d.order| {
      forall id | id in d.states ensures !d.states[id].phase.IsTerminal() {
        assert id in Elements(d.order);
        var i :| 0 <= i < |d.order| && d.order[i] == id;
        assert !TerminalAt(d, i);
      }
    }
  }

  /** It is the oldest: runs inserted before a dropped terminal run are live, and a dropped live run was the first. */
  lemma OldestIsEvicted(c: Cache, capacity: nat, ev: Event, now: int, lost: string)
    requires Consistent(c) && |c.order| <= capacity && 0 < capacity
    requires lost in c.states && lost !in Absorb(c, capacity, ev, now).states
    ensures forall i {:trigger TerminalAt(c, i)} :: 0 <= i < Position(c.order, lost) ==> !TerminalAt(c, i)
    ensures !c.states[lost].phase.IsTerminal() ==> c.order != [] && lost == c.order[0]
  {
    var d := Inserted(c, ev.runID, now);
    assert d.order != [] && Victim(d) < |c.order| && d.order[Victim(d)] == lost by {
      LostIsVictim(c, capacity, ev, now, lost);
    }
    forall i | 0 <= i < Position(c.order, lost) ensures !TerminalAt(c, i) {
      assert i < Victim(d) && d.order[i] == c.order[i] && !TerminalAt(d, i);
    }
    if !c.states[lost].phase.IsTerminal() {
      assert lost != ev.runID && !TerminalAt(d, Victim(d));
    }
  }

  lemma LostIsVictim(c: Cache, capacity: nat, ev: Event, now: int, lost: string)
    requires Consistent(c) && |c.order| <= capacity && 0 < capacity
    requires lost in c.states && lost !in Absorb(c, capacity, ev, now).states
    ensures ev.runID !in c.states
    ensures var d := Inserted(c, ev.runID, now); d.order != [] && Victim(d) < |c.order| && d.order[Victim(d)] == lost
  {
    var d := Inserted(c, ev.runID, now);
    InsertedConsistent(c, ev.runID, now);
    NewcomerStays(c, capacity, ev.runID, now);
    DropConsistent(d, Victim(d));
    ObservedKeeps(EvictIfFull(d, capacity), ev, now);
  }

  // ----- the order

  /** What is left of the order when one run is gone. */
  function Without(order: seq<string>, id: string): (r: seq<string>)
    ensures |r| <= |order| && id !in r
  {
    if order == [] then []
    else (if order[0] == id then [] else [order[0]]) + Without(order[1..], id)
  }

  lemma {:induction false} WithoutAbsent(order: seq<string>, id: string)
    requires id !in order
    ensures Without(order, id) == order
  {
    if order != [] {
      WithoutAbsent(order[1..], id);
    }
  }

  lemma {:induction false} WithoutAt(order: seq<string>, i: nat)
    requires i < |order| && order[i] !in order[..i] && order[i] !in order[i + 1..]
    ensures Without(order, order[i]) == order[..i] + order[i + 1..]
  {
    if i == 0 {
      WithoutAbsent(order[1..], order[0]);
    } else {
      assert order[0] in order[..i];
      assert order[1..][..i - 1] == order[..i][1..] && order[1..][i..] == order[i + 1..];
      WithoutAt(order[1..], i - 1);
    }
  }

  lemma OnlyOnce(order: seq<string>, ids: set<string>, i: nat)
    requires Lists(order, ids) && i < |order|
    ensures order[i] !in order[..i] && order[i] !in order[i + 1..]
  {
    forall j | 0 <= j < |order| && j != i ensures order[j] != order[i] {
      assert if j < i then Differ(order, j, i) else Differ(order, i, j);
    }
  }

  lemma DropKeepsOrder(c: Cache, i: nat)
    requires Consistent(c) && i < |c.order|
    ensures Drop(c, i).order == Without(c.order, c.order[i])
    ensures Drop(c, i).states == c.states - {c.order[i]}
  {
    OnlyOnce(c.order, c.states.Keys, i);
    WithoutAt(c.order, i);
  }

  lemma {:induction false} WithoutPush(order: seq<string>, id: string, lost: string)
    requires id != lost
    ensures Without(order + [id], lost) == Without(order, lost) + [id]
  {
    if order == [] {
      assert [] + [id] == [id];
    } else {
      assert (order + [id])[1..] == order[1..] + [id];
      WithoutPush(order[1..], id, lost);
    }
  }

  /**
   A cached run keeps its place. A new run comes last, and those before it keep their
   order, without the one run that had to go if the cache was full.
   */
  lemma OrderAfterEvent(c: Cache, capacity: nat, ev: Event, now: int)
    requires Consistent(c) && |c.order| <= capacity && 0 < capacity
    ensures var d := Absorb(c, capacity, ev, now);
      if ev.runID in c.states then d.order == c.order
      else if |c.order| < capacity then d.order == c.order + [ev.runID]
      else exists lost :: lost in c.states && lost !in d.states && d.order == Without(c.order, lost) + [ev.runID]
  {
    if ev.runID !in c.states && |c.order| >= capacity {
      var d := Inserted(c, ev.runID, now);
      InsertedConsistent(c, ev.runID, now);
      NewcomerStays(c, capacity, ev.runID, now);
      var lost := d.order[Victim(d)];
      DropKeepsOrder(d, Victim(d));
      WithoutPush(c.order, ev.runID, lost);
      assert lost in Elements(d.order);
    }
  }

  /** Forgetting a run takes it out of the states and out of the order, and nothing else. */
  lemma OrderAfterForget(c: Cache, id: string)
    requires Consistent(c)
    ensures Forgotten(c, id) == Cache(c.states - {id}, Without(c.order, id))
  {
    if id in c.states {
      assert id in Elements(c.order);
      DropKeepsOrder(c, Position(c.order, id));
    } else {
      assert c.states - {id} == c.states;
      NotListed(c, id);
      WithoutAbsent(c.order, id);
    }
  }

  lemma NotListed(c: Cache, id: string)
    requires Consistent(c) && id !in c.states
    ensures id !in c.order
  {
    forall i | 0 <= i < |c.order| ensures c.order[i] in c.states {
      assert c.order[i] in Elements(c.order);
    }
  }

  // ----- what a cached state is

  datatype Op = Deliver(ev: Event, now: int) | Release(id: string)

  /** The bus handler ignores events without a run; Forget is called from outside. */
  function Do(c: Cache, capacity: nat, op: Op): Cache {
    match op
    case Deliver(ev, now) => if ev.runID == "" then c else Absorb(c, capacity, ev, now)
    case Release(id) => Forgotten(c, id)
  }

  function After(capacity: nat, ops: seq<Op>): Cache {
    if ops == [] then EMPTY else Do(After(capacity, ops[..|ops| - 1]), capacity, ops[|ops| - 1])
  }

  /** The events of a cached run since its last insertion. */
  function Since(capacity: nat, ops: seq<Op>, id: string): seq<Stamped> {
    if ops == [] || id !in After(capacity, ops).states then []
    else
      var before, op := ops[..|ops| - 1], ops[|ops| - 1];
      Since(capacity, before, id) +
      if op.Deliver? && op.ev.runID == id && id != "" then [Stamped(op.ev, op.now)] else []
  }

  lemma {:induction false} AlwaysConsistent(capacity: nat, ops: seq<Op>)
    requires 0 < capacity
    ensures Consistent(After(capacity, ops)) && |After(capacity, ops).order| <= capacity
  {
    if ops == [] {
      assert Elements([]) == {};
    } else {
      AlwaysConsistent(capacity, ops[..|ops| - 1]);
      var c, op := After(capacity, ops[..|ops| - 1]), ops[|ops| - 1];
      match op
      case Deliver(ev, now) =>
        if ev.runID != "" {
          ApplyConsistent(c, capacity, ev, now);
        }
      case Release(id) =>
        ForgetConsistent(c, id);
    }
  }

  /** Every cached state is the error-ignoring fold of its run's events since it was last inserted. */
  lemma {:induction false} CachedStateIsFold(capacity: nat, ops: seq<Op>, id: string)
    requires 0 < capacity && id in After(capacity, ops).states
    ensures var evs := Since(capacity, ops, id);
      evs != [] && After(capacity, ops).states[id] == Project(NewState(id, evs[0].now), evs)
  {
    var before, op := ops[..|ops| - 1], ops[|ops| - 1];
    var c := After(capacity, before);
    assert Consistent(c) by {
      AlwaysConsistent(capacity, before);
    }
    if id in c.states {
      CachedStateIsFold(capacity, before, id);
    }
    if op.Deliver? && op.ev.runID != "" {
      FoldStep(c, capacity, op.ev, op.now, id, Since(capacity, before, id));
    } else {
      assert Since(capacity, before, id) + [] == Since(capacity, before, id);
    }
  }

  lemma FoldStep(c: Cache, capacity: nat, ev: Event, now: int, id: string, evs: seq<Stamped>)
    requires Consistent(c) && 0 < capacity && id in Absorb(c, capacity, ev, now).states
    requires id in c.states ==> evs != [] && c.states[id] == Project(NewState(id, evs[0].now), evs)
    requires id !in c.states ==> evs == []
    ensures var all := evs + if ev.runID == id then [Stamped(ev, now)] else [];
      all != [] && Absorb(c, capacity, ev, now).states[id] == Project(NewState(id, all[0].now), all)
  {
    if ev.runID == id {
      var all := evs + [Stamped(ev, now)];
      var start := NewState(id, all[0].now);
      RuntimeLaws.ProjectAppend(start, evs, [Stamped(ev, now)]);
      FoldOne(OBSERVE, Project(start, evs), Stamped(ev, now));
    } else {
      assert evs + [] == evs;
    }
  }

  // ----- the object

  class Projection {
    const capacity: int
    var states: map<string, ExecutionState>
    var order: seq<string>

    /** Each run has an object of its own. */
    ghost predicate Valid()
      reads this
    {
      && capacity > 0 && Lists(order, states.Keys)
      && (forall id :: id in states ==> states[id].runID == id)
    }

    ghost function View(): Cache
      reads this, states.Values
    {
      Cache(States(), order)
    }

    ghost function States(): map<string, State>
      reads this, states.Values
    {
      map id | id in states :: states[id].Value()
    }

    constructor (capacity: int)
      ensures Valid() && View() == EMPTY && states == map[]
      ensures this.capacity == if capacity <= 0 then 1024 else capacity
    {
      this.capacity := if capacity <= 0 then 1024 else capacity;
      states, order := map[], [];
      new;
      assert Elements([]) == {};
    }

    method Get(id: string) returns (st: Option<State>)
      requires Valid()
      ensures st == if id in View().states then Some(View().states[id]) else None
    {
      if id !in states {
        return None;
      }
      var e := states[id];
      return Some(State(e.runID, e.phase, e.attempt, e.maxAttempts, e.eventCount, e.createdAt, e.updatedAt,
                        e.lastEventID, e.lastError, e.duration));
    }

    /** Copies of every cached state, oldest insertion first. */
    method List() returns (out: seq<State>)
      requires Valid()
      ensures |out| == |order|
      ensures forall i :: 0 <= i < |out| ==> order[i] in states && out[i] == states[order[i]].Value()
    {
      out := [];
      var i := 0;
      while i < |order|
        invariant 0 <= i <= |order| && |out| == i
        invariant forall j :: 0 <= j < i ==> order[j] in states && out[j] == states[order[j]].Value()
      {
        assert order[i] in Elements(order);
        var st := Get(order[i]);
        out := out + [st.value];
        i := i + 1;
      }
    }

    method DropAt(i: nat)
      requires Valid() && i < |order|
      modifies `states, `order
      ensures Valid() && View() == Drop(old(View()), i) && states == old(states) - {old(order)[i]}
    {
      ListsDrop(order, states.Keys, i);
      ghost var before := States();
      assert (states - {order[i]}).Keys == states.Keys - {order[i]};
      states := states - {order[i]};
      assert States() == before - {order[i]};
      order := order[..i] + order[i + 1..];
    }

    method EvictOne()
      requires Valid()
      modifies `states, `order
      ensures Valid() && View() == EvictIfFull(old(View()), capacity)
      ensures forall id :: id in states ==> id in old(states) && states[id] == old(states)[id]
    {
      ghost var c := View();
      SizeIsLength(order);
      if |states| <= capacity {
        return;
      }
      var i := 0;
      while i < |order|
        invariant 0 <= i <= |order| && View() == c && states == old(states) && order == old(order) && Valid()
        invariant FirstTerminal(c, 0) == FirstTerminal(c, i)
      {
        assert order[i] in Elements(order);
        if states[order[i]].phase.IsTerminal() {
          DropAt(i);
          return;
        }
        i := i + 1;
      }
      DropAt(0);
    }

    /** Cache a new run at the end of the order, over capacity if need be. */
    method Append(id: string, st: ExecutionState)
      requires Valid() && id !in states && st.runID == id
      modifies `states, `order
      ensures Valid() && states == old(states)[id := st] && order == old(order) + [id]
      ensures States() == old(States())[id := st.Value()]
    {
      ListsPush(order, states.Keys, id);
      order := order + [id];
      ghost var keys := states.Keys;
      states := states[id := st];
      assert states.Keys == keys + {id};
    }

    method Insert(id: string, now: int) returns (st: ExecutionState)
      requires Valid() && id !in states
      modifies `states, `order
      ensures Valid() && fresh(st) && View() == EvictIfFull(Inserted(old(View()), id, now), capacity)
      ensures id in states && states[id] == st && states.Values <= old(states.Values) + {st}
    {
      assert id in EvictIfFull(Inserted(View(), id, now), capacity).states by {
        NewcomerStays(View(), capacity, id, now);
      }
      st := new ExecutionState(id, now);
      Append(id, st);
      EvictOne();
    }

    method Feed(st: ExecutionState, ev: Event, now: int)
      requires Valid() && ev.runID in states && states[ev.runID] == st
      modifies st
      ensures Valid() && View() == Observed(old(View()), ev, now)
    {
      var _ := st.Apply(ev, now);
    }

    method ApplyNew(ev: Event, now: int)
      requires Valid() && ev.runID !in states
      modifies `states, `order
      ensures Valid() && View() == Absorb(old(View()), capacity, ev, now)
      ensures fresh(states.Values - old(states.Values))
    {
      ghost var c := View();
      var st := Insert(ev.runID, now);
      assert View() == EvictIfFull(Inserted(c, ev.runID, now), capacity);
      Feed(st, ev, now);
      assert View() == Observed(EvictIfFull(Inserted(c, ev.runID, now), capacity), ev, now);
    }

    /** Feed one event to its run, creating the run first if it is not cached; a rejection is ignored. */
    method Apply(ev: Event, now: int)
      requires Valid()
      modifies this, states.Values
      ensures Valid() && View() == Absorb(old(View()), capacity, ev, now)
      ensures fresh(states.Values - old(states.Values))
    {
      if ev.runID in states {
        Feed(states[ev.runID], ev, now);
      } else {
        ApplyNew(ev, now);
      }
    }

    /** The bus handler. */
    method OnEvent(ev: Event, now: int)
      requires Valid()
      modifies this, states.Values
      ensures Valid() && View() == Do(old(View()), capacity, Deliver(ev, now))
      ensures fresh(states.Values - old(states.Values))
    {
      if ev.runID != "" {
        Apply(ev, now);
      }
    }

    method Forget(id: string)
      requires Valid()
      modifies `states, `order
      ensures Valid() && View() == Forgotten(old(View()), id)
    {
      if id !in states {
        return;
      }
      assert id in Elements(order);
      ghost var at := Position(order, id);
      var i := 0;
      while order[i] != id
        invariant 0 <= i <= at < |order|
        decreases at - i
      {
        i := i + 1;
      }
      DropAt(i);
    }
  }

  lemma {:induction false} SizeIsLength(order: seq<string>)
    requires forall i, j {:trigger Differ(order, i, j)} :: 0 <= i < j < |order| ==> Differ(order, i, j)
    ensures |Elements(order)| == |order|
  {
    if order == [] {
      assert Elements(order) == {};
    } else {
      var init, last := order[..|order| - 1], order[|order| - 1];
      forall i, j | 0 <= i < j < |init| ensures Differ(init, i, j) {
        assert Differ(order, i, j);
      }
      SizeIsLength(init);
      forall i | 0 <= i < |init| ensures init[i] == order[i] != last {
        assert Differ(order, i, |order| - 1);
      }
      assert Elements(order) == Elements(init) + {last};
    }
  }
}
