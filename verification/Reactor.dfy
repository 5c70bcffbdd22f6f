/** The deterministic reactor of internal/reactor/reactor.go. */
module Reactor {
  import opened Common
  import opened Events

  /** Go's handlers are closures over shared variables; here a handler receives and returns their values. */
  datatype Handled<S> = Produced(state: S, events: seq<Event>) | Aborted(state: S)
  type Handler<!S> = (S, Event) -> Handled<S>
  type Bus<!S> = (S, Event) -> S

  /** The state of one dispatch; `outputs` is everything handlers have produced so far. */
  datatype Board<S> = Board(queue: seq<Event>, log: seq<Event>, state: S, outputs: seq<Event>, aborted: bool)
  {
    predicate Quiet() {
      aborted || queue == []
    }
  }

  function Start<S>(seed: Event, state: S): Board<S> {
    Board([seed], [], state, [], false)
  }

  function Publish<S>(bus: Option<Bus<S>>, state: S, ev: Event): S {
    if bus.Some? then bus.value(state, ev) else state
  }

  /** Process the head of the queue; a quiet board stays as it is. */
  function Turn<S>(hs: map<EventType, Handler<S>>, bus: Option<Bus<S>>, b: Board<S>): Board<S> {
    if b.Quiet() then b
    else
      var ev := b.queue[0];
      var seen := b.(queue := b.queue[1..], log := b.log + [ev], state := Publish(bus, b.state, ev));
      if ev.typ !in hs then seen
      else match hs[ev.typ](seen.state, ev)
        case Aborted(s) => seen.(state := s, aborted := true)
        case Produced(s, evs) => seen.(state := s, queue := seen.queue + evs, outputs := b.outputs + evs)
  }

  function Turns<S>(hs: map<EventType, Handler<S>>, bus: Option<Bus<S>>, b: Board<S>, n: nat): Board<S>
    decreases n
  {
    if n == 0 then b else Turns(hs, bus, Turn(hs, bus, b), n - 1)
  }

  /**
   The dispatch law: in every state of every dispatch, what was processed followed
   by what is queued is the seed followed by everything produced, in order.
   */
  lemma {:induction false} DispatchLaw<S>(hs: map<EventType, Handler<S>>, bus: Option<Bus<S>>, b: Board<S>, seed: Event,
                                          n: nat)
    requires b.log + b.queue == [seed] + b.outputs
    ensures var e := Turns(hs, bus, b, n); e.log + e.queue == [seed] + e.outputs
    decreases n
  {
    if n > 0 {
      var c := Turn(hs, bus, b);
      if !b.Quiet() {
        assert b.log + b.queue == b.log + [b.queue[0]] + b.queue[1..];
        var evs := c.outputs[|b.outputs|..];
        assert c.outputs == b.outputs + evs && c.queue == b.queue[1..] + evs;
        calc {
          c.log + c.queue;
          (b.log + [b.queue[0]]) + (b.queue[1..] + evs);
          (b.log + b.queue) + evs;
          [seed] + c.outputs;
        }
      }
      DispatchLaw(hs, bus, c, seed, n - 1);
    }
  }

  /** The head of the queue has a handler, and this handler returns an error. */
  predicate AbortsNext<S>(hs: map<EventType, Handler<S>>, bus: Option<Bus<S>>, b: Board<S>) {
    && !b.aborted && b.queue != [] && b.queue[0].typ in hs
    && hs[b.queue[0].typ](Publish(bus, b.state, b.queue[0]), b.queue[0]).Aborted?
  }

  ghost predicate FailsAt<S>(hs: map<EventType, Handler<S>>, bus: Option<Bus<S>>, b: Board<S>, k: nat) {
    AbortsNext(hs, bus, Turns(hs, bus, b, k))
  }

  /** Turn k met a handler's error, and the board has been like this since: its event is the last of the log. */
  ghost predicate StoppedAt<S>(hs: map<EventType, Handler<S>>, bus: Option<Bus<S>>, b: Board<S>, k: nat, e: Board<S>) {
    var at := Turns(hs, bus, b, k);
    FailsAt(hs, bus, b, k) && e.log == at.log + [at.queue[0]] && e.queue == at.queue[1..] && e.outputs == at.outputs
  }

  lemma {:induction false} StopStays<S>(hs: map<EventType, Handler<S>>, bus: Option<Bus<S>>, b: Board<S>, n: nat,
                                        k: nat)
    requires k < n && FailsAt(hs, bus, b, k)
    ensures Turns(hs, bus, b, n).aborted && StoppedAt(hs, bus, b, k, Turns(hs, bus, b, n))
    decreases k
  {
    if k == 0 {
      QuietStays(hs, bus, Turn(hs, bus, b), n - 1);
    } else {
      StopStays(hs, bus, Turn(hs, bus, b), n - 1, k - 1);
    }
  }

  lemma {:induction false} StopExists<S>(hs: map<EventType, Handler<S>>, bus: Option<Bus<S>>, b: Board<S>, n: nat)
      returns (k: nat)
    requires !b.aborted && Turns(hs, bus, b, n).aborted
    ensures k < n && FailsAt(hs, bus, b, k)
    decreases n
  {
    if AbortsNext(hs, bus, b) {
      k := 0;
    } else {
      k := StopExists(hs, bus, Turn(hs, bus, b), n - 1);
      k := k + 1;
    }
  }

  /** The dispatch fails exactly when some handler does, and that ends it: nothing queued then is processed. */
  lemma AbortExactly<S>(hs: map<EventType, Handler<S>>, bus: Option<Bus<S>>, b: Board<S>, n: nat)
    requires !b.aborted
    ensures var e := Turns(hs, bus, b, n);
      && (e.aborted <==> exists k: nat :: k < n && FailsAt(hs, bus, b, k))
      && (forall k: nat :: k < n && FailsAt(hs, bus, b, k) ==> StoppedAt(hs, bus, b, k, e))
  {
    forall k: nat | k < n && FailsAt(hs, bus, b, k)
      ensures Turns(hs, bus, b, n).aborted && StoppedAt(hs, bus, b, k, Turns(hs, bus, b, n))
    {
      StopStays(hs, bus, b, n, k);
    }
    if Turns(hs, bus, b, n).aborted {
      var _ := StopExists(hs, bus, b, n);
    }
  }

  class Reactor<!S> {
    const bus: Option<Bus<S>>
    var handlers: map<EventType, Handler<S>>

    constructor (bus: Option<Bus<S>>)
      ensures handlers == map[] && this.bus == bus
    {
      this.bus := bus;
      handlers := map[];
    }

    /** A later registration for the same type replaces the earlier one. */
    method Register(typ: EventType, h: Handler<S>)
      modifies this
      ensures handlers == old(handlers)[typ := h]
    {
      handlers := handlers[typ := h];
    }

    /**
     Drains the queue in order. `limit` bounds the reaction: the source loops until
     quiescence, which a finite reaction reaches.
     */
    method Dispatch(seed: Event, init: S, ghost limit: nat) returns (log: seq<Event>, state: S, ok: bool)
      requires Turns(handlers, bus, Start(seed, init), limit).Quiet()
      ensures var end := Turns(handlers, bus, Start(seed, init), limit);
        log == end.log && state == end.state && ok == !end.aborted
      ensures ok ==> log == [seed] + Turns(handlers, bus, Start(seed, init), limit).outputs
      ensures !ok <==> exists k: nat :: k < limit && FailsAt(handlers, bus, Start(seed, init), k)
      ensures forall k: nat :: k < limit && FailsAt(handlers, bus, Start(seed, init), k) ==>
        var at := Turns(handlers, bus, Start(seed, init), k); log == at.log + [at.queue[0]]
    {
      AbortExactly(handlers, bus, Start(seed, init), limit);
      var queue := [seed];
      log, state, ok := [], init, true;
      ghost var outputs: seq<Event>, left := [], limit;
      DispatchLaw(handlers, bus, Start(seed, init), seed, limit);
      while |queue| > 0
        invariant Turns(handlers, bus, Start(seed, init), limit)
               == Turns(handlers, bus, Board(queue, log, state, outputs, false), left)
        decreases left
      {
        var ev := queue[0];
        queue := queue[1..];
        log := log + [ev];
        if bus.Some? {
          state := bus.value(state, ev);
        }
        left := left - 1;
        if ev.typ !in handlers {
          continue;
        }
        match handlers[ev.typ](state, ev)
        case Aborted(s) =>
          state, ok := s, false;
          QuietStays(handlers, bus, Board(queue, log, s, outputs, true), left);
          return;
        case Produced(s, evs) =>
          state, queue, outputs := s, queue + evs, outputs + evs;
      }
      QuietStays(handlers, bus, Board(queue, log, state, outputs, false), left);
      assert queue == [];
      assert log + queue == log;
    }
  }

  lemma {:induction false} QuietStays<S>(hs: map<EventType, Handler<S>>, bus: Option<Bus<S>>, b: Board<S>, n: nat)
    requires b.Quiet()
    ensures Turns(hs, bus, b, n) == b
    decreases n
  {
    if n > 0 {
      QuietStays(hs, bus, b, n - 1);
    }
  }
}
