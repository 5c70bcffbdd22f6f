/** One event stream among any publishers, step by step; its channel and its output hold positions in the log. */
module SseProtocol {
  import opened Common
  import opened Events
  import opened Sse

  datatype Stage = Idle | Subscribed | Replaying | Live | Closed

  /**
   `start` is the first position the client asked for, `edge` the end of the snapshot,
   `next` one past the last position dealt with, and `lost` what the full channel refused.
   */
  datatype Server = Server(
    log: seq<Event>, stage: Stage, from: Option<string>, start: nat, subAt: nat, edge: nat, next: nat,
    seen: set<string>, buffer: seq<nat>, lost: set<nat>, emitted: seq<nat>)

  /** One Publish persists the event and delivers it, as a single step. */
  datatype Step = Publish(ev: Event) | Subscribe | Snapshot | Replay | GoLive | Receive | Leave

  function Request(log: seq<Event>, from: Option<string>): Server {
    Server(log, Idle, from, 0, 0, 0, 0, {}, [], {}, [])
  }

  predicate Listening(s: Server) {
    s.stage == Subscribed || s.stage == Replaying || s.stage == Live
  }

  /** The bounds on log positions hold in every reachable state. */
  predicate Possible(s: Server, a: Step) {
    match a
    case Publish(ev) => Place(s.log, ev.id) < 0
    case Subscribe => s.stage == Idle
    case Snapshot => s.stage == Subscribed
    case Replay => s.stage == Replaying && s.next < s.edge && s.next < |s.log|
    case GoLive => s.stage == Replaying && s.next == s.edge
    case Receive => s.stage == Live && s.buffer != [] && s.buffer[0] < |s.log|
    case Leave => s.stage != Idle
  }

  /** Persist the event, then offer it to the stream's channel, which may be full. */
  function Published(s: Server, ev: Event): Server {
    var t := s.(log := s.log + [ev]);
    if !Listening(s) then t
    else if |s.buffer| < BUFFER then t.(buffer := s.buffer + [|s.log|])
    else t.(lost := s.lost + {|s.log|})
  }

  function Emitted(s: Server, p: nat): Server
    requires p < |s.log|
  {
    s.(emitted := s.emitted + [p], next := p + 1, stage := if IsTerminal(s.log[p].typ) then Closed else s.stage)
  }

  function Next(s: Server, a: Step): Server
    requires Possible(s, a)
  {
    match a
    case Publish(ev) => Published(s, ev)
    case Subscribe => s.(stage := Subscribed, subAt := |s.log|)
    case Snapshot =>
      if s.from.None? then s.(stage := Live, start := s.subAt, edge := s.subAt, next := s.subAt)
      else
        var start: nat := Place(s.log, s.from.value) + 1;
        s.(stage := Replaying, start := start, next := start, edge := |s.log|)
    case Replay => Emitted(s, s.next).(seen := s.seen + {s.log[s.next].id})
    case GoLive => s.(stage := Live)
    case Receive =>
      var t := s.(buffer := s.buffer[1..]);
      if s.log[s.buffer[0]].id in s.seen then t else Emitted(t, s.buffer[0])
    case Leave => s.(stage := Closed)
  }

  // ----- the invariant

  ghost predicate Ascending(xs: seq<nat>, lo: nat, hi: nat) {
    && (forall i {:trigger xs[i]} :: 0 <= i < |xs| ==> lo <= xs[i] < hi)
    && (forall i, j {:trigger xs[i], xs[j]} :: 0 <= i < j < |xs| ==> xs[i] < xs[j])
  }

  /** The positions lo, lo + 1, and so on. */
  ghost predicate Consecutive(xs: seq<nat>, lo: int) {
    forall i {:trigger xs[i]} :: 0 <= i < |xs| ==> xs[i] == lo + i
  }

  ghost predicate Quiet(log: seq<Event>, xs: seq<nat>, n: int) {
    forall i {:trigger xs[i]} :: 0 <= i < n && i < |xs| && xs[i] < |log| ==> !IsTerminal(log[xs[i]].typ)
  }

  function IdsAt(log: seq<Event>, lo: nat, hi: nat): set<string>
    requires hi <= |log|
  {
    set k | lo <= k < hi :: log[k].id
  }

  /** What waits in the channel. */
  ghost predicate Waiting(s: Server) {
    && s.subAt <= |s.log| && |s.buffer| <= BUFFER && Ascending(s.buffer, s.subAt, |s.log|)
    && (s.lost == {} ==> s.subAt <= |s.log| - |s.buffer| && Consecutive(s.buffer, |s.log| - |s.buffer|))
  }

  /** What has been sent; only its last event can be terminal. */
  ghost predicate Sent(s: Server) {
    && s.start <= s.next <= |s.log| && Ascending(s.emitted, s.start, s.next)
    && Quiet(s.log, s.emitted, if s.stage == Closed then |s.emitted| - 1 else |s.emitted|)
    && (s.lost == {} ==> |s.emitted| == s.next - s.start && Consecutive(s.emitted, s.start))
  }

  ghost predicate InReplay(s: Server) {
    s.start <= s.subAt <= s.edge <= |s.log| && s.next <= s.edge && s.seen == IdsAt(s.log, s.start, s.next)
  }

  ghost predicate InLive(s: Server) {
    && s.start <= s.subAt <= s.edge <= s.next <= |s.log| && s.seen == IdsAt(s.log, s.start, s.edge)
    && (forall i {:trigger s.buffer[i]} :: 0 <= i < |s.buffer| ==> s.buffer[i] < s.edge || s.buffer[i] >= s.next)
    && (s.lost == {} ==> s.next == if s.edge <= |s.log| - |s.buffer| then |s.log| - |s.buffer| else s.edge)
  }

  /** Before the live tail nothing leaves the channel. */
  ghost predicate Untapped(s: Server) {
    s.lost == {} ==> |s.log| == s.subAt + |s.buffer|
  }

  /** A valid request names an event of the log; it keeps its place, before the subscription. */
  ghost predicate Anchored(s: Server) {
    s.from.Some? ==> 0 <= Place(s.log, s.from.value) < if s.stage == Idle then |s.log| else s.subAt
  }

  predicate Started(s: Server) {
    s.stage == Replaying || s.stage == Live || (s.stage == Closed && s.emitted != [])
  }

  /** The stream owes what follows the anchor, or without one what follows the subscription. */
  ghost predicate StartsRight(s: Server) {
    if s.from.Some? then Place(s.log, s.from.value) >= 0 && s.start == Place(s.log, s.from.value) + 1
    else s.start == s.subAt
  }

  ghost predicate Inv(s: Server) {
    && UniqueIds(s.log) && Sent(s) && (Started(s) ==> StartsRight(s))
    && (s.stage == Idle || s.stage == Subscribed ==>
         Anchored(s) && s.emitted == [] && s.seen == {} && s.start == 0 && s.next == 0)
    && (s.stage == Idle ==> s.buffer == [] && s.lost == {})
    && (Listening(s) ==> Waiting(s))
    && (s.stage == Subscribed || s.stage == Replaying ==> Untapped(s))
    && (s.stage == Replaying ==> InReplay(s))
    && (s.stage == Live ==> InLive(s))
  }

  // ----- the steps

  lemma LogGrows(log: seq<Event>, ev: Event)
    requires UniqueIds(log) && Place(log, ev.id) < 0
    ensures UniqueIds(log + [ev])
    ensures forall id :: Place(log, id) >= 0 ==> Place(log + [ev], id) == Place(log, id)
  {
    var now := log + [ev];
    assert now[|log|] == ev && forall i :: 0 <= i < |log| ==> now[i] == log[i];
    forall id | Place(log, id) >= 0 ensures Place(now, id) == Place(log, id) {
      assert now[Place(log, id)].id == id;
    }
  }

  lemma IdsStay(log: seq<Event>, ev: Event, lo: nat, hi: nat)
    requires hi <= |log|
    ensures IdsAt(log + [ev], lo, hi) == IdsAt(log, lo, hi)
  {
    assert forall i :: 0 <= i < |log| ==> (log + [ev])[i] == log[i];
  }

  lemma PublishKept(s: Server, ev: Event)
    requires Inv(s) && Possible(s, Publish(ev))
    ensures Inv(Next(s, Publish(ev)))
  {
    AnchorStays(s, ev);
    SentStays(s, ev);
    if Listening(s) {
      WaitingGrows(s, ev);
    }
    if s.stage == Replaying {
      ReplayStays(s, ev);
    }
    if s.stage == Live {
      LiveStays(s, ev);
    }
  }

  lemma ReplayStays(s: Server, ev: Event)
    requires InReplay(s)
    ensures InReplay(Published(s, ev))
  {
    IdsStay(s.log, ev, s.start, s.next);
  }

  lemma AnchorStays(s: Server, ev: Event)
    requires UniqueIds(s.log) && Place(s.log, ev.id) < 0
    ensures UniqueIds(Published(s, ev).log)
    ensures Anchored(s) && (s.stage != Idle ==> s.subAt <= |s.log|) ==> Anchored(Published(s, ev))
    ensures StartsRight(s) ==> StartsRight(Published(s, ev))
  {
    LogGrows(s.log, ev);
  }

  lemma LiveStays(s: Server, ev: Event)
    requires InLive(s) && s.stage == Live && Waiting(s)
    ensures InLive(Published(s, ev))
  {
    var b := Published(s, ev).buffer;
    assert forall i :: 0 <= i < |s.buffer| ==> b[i] == s.buffer[i];
    IdsStay(s.log, ev, s.start, s.edge);
  }

  lemma SentStays(s: Server, ev: Event)
    requires Sent(s)
    ensures Sent(Published(s, ev))
  {
    assert forall i :: 0 <= i < |s.log| ==> (s.log + [ev])[i] == s.log[i];
  }

  lemma WaitingGrows(s: Server, ev: Event)
    requires Waiting(s) && Listening(s)
    ensures Waiting(Published(s, ev)) && (Untapped(s) ==> Untapped(Published(s, ev)))
  {
    var b := Published(s, ev).buffer;
    assert forall i :: 0 <= i < |s.buffer| ==> b[i] == s.buffer[i];
  }

  lemma SnapshotKept(s: Server)
    requires Inv(s) && Possible(s, Snapshot)
    ensures Inv(Next(s, Snapshot))
  {
  }

  /** Sending the next position, or in the live tail possibly a later one when some were dropped. */
  lemma EmittedIsSent(s: Server, p: nat)
    requires Sent(s) && s.stage != Closed && s.next <= p < |s.log| && (s.lost == {} ==> p == s.next)
    ensures Sent(Emitted(s, p))
  {
    var e := s.emitted + [p];
    assert forall i :: 0 <= i < |s.emitted| ==> e[i] == s.emitted[i];
  }

  lemma IdsGrow(log: seq<Event>, lo: nat, hi: nat)
    requires lo <= hi < |log|
    ensures IdsAt(log, lo, hi + 1) == IdsAt(log, lo, hi) + {log[hi].id}
  {
  }

  lemma ReplayKept(s: Server)
    requires Inv(s) && Possible(s, Replay)
    ensures Inv(Next(s, Replay))
  {
    EmittedIsSent(s, s.next);
    IdsGrow(s.log, s.start, s.next);
  }

  lemma GoLiveKept(s: Server)
    requires Inv(s) && Possible(s, GoLive)
    ensures Inv(Next(s, GoLive))
  {
  }

  lemma SeenIsReplayed(s: Server, p: nat)
    requires UniqueIds(s.log) && InLive(s) && s.subAt <= p < |s.log|
    ensures s.log[p].id in s.seen <==> p < s.edge
  {
  }

  lemma ReceiveKept(s: Server)
    requires Inv(s) && Possible(s, Receive)
    ensures Inv(Next(s, Receive))
  {
    var p := s.buffer[0];
    var t := s.(buffer := s.buffer[1..]);
    SeenIsReplayed(s, p);
    assert forall i :: 0 <= i < |t.buffer| ==> t.buffer[i] == s.buffer[i + 1];
    if p >= s.edge {
      EmittedIsSent(t, p);
    }
  }

  lemma StepKept(s: Server, a: Step)
    requires Inv(s) && Possible(s, a)
    ensures Inv(Next(s, a))
  {
    match a
    case Publish(ev) => PublishKept(s, ev);
    case Snapshot => SnapshotKept(s);
    case Replay => ReplayKept(s);
    case GoLive => GoLiveKept(s);
    case Receive => ReceiveKept(s);
    case _ =>
  }

  // ----- whole runs

  ghost predicate StepAt(states: seq<Server>, steps: seq<Step>, i: nat) {
    && i < |steps| && i + 1 < |states|
    && Possible(states[i], steps[i]) && states[i + 1] == Next(states[i], steps[i])
  }

  ghost predicate Execution(states: seq<Server>, steps: seq<Step>) {
    && |states| == |steps| + 1
    && UniqueIds(states[0].log) && Anchored(states[0]) && states[0] == Request(states[0].log, states[0].from)
    && forall i {:trigger StepAt(states, steps, i)} :: 0 <= i < |steps| ==> StepAt(states, steps, i)
  }

  lemma RequestIsFine(log: seq<Event>, from: Option<string>)
    requires UniqueIds(log) && Anchored(Request(log, from))
    ensures Inv(Request(log, from))
  {
  }

  lemma {:induction false} EveryStreamState(states: seq<Server>, steps: seq<Step>, i: nat)
    requires Execution(states, steps) && i < |states|
    ensures Inv(states[i])
    decreases i
  {
    if i == 0 {
      RequestIsFine(states[0].log, states[0].from);
    } else {
      EveryStreamState(states, steps, i - 1);
      assert StepAt(states, steps, i - 1);
      StepKept(states[i - 1], steps[i - 1]);
    }
  }

  /** The events on the wire. */
  function Wire(s: Server): seq<Event>
    requires forall i :: 0 <= i < |s.emitted| ==> s.emitted[i] < |s.log|
  {
    seq(|s.emitted|, i requires 0 <= i < |s.emitted| => s.log[s.emitted[i]])
  }

  /**
   In every interleaving, even with overflow, a stream sends events of the log that come
   after the client's starting point, in log order and none twice.
   */
  lemma StreamIsInOrder(states: seq<Server>, steps: seq<Step>, i: nat)
    requires Execution(states, steps) && i < |states|
    ensures var s := states[i];
      && Ascending(s.emitted, s.start, |s.log|)
      && (forall j, k :: 0 <= j < k < |s.emitted| ==> Wire(s)[j].id != Wire(s)[k].id)
      && (s.emitted != [] ==> StartsRight(s))
  {
    EveryStreamState(states, steps, i);
  }

  ghost predicate CaughtUp(s: Server) {
    s.stage == Live && s.buffer == []
  }

  ghost predicate Finished(s: Server)
    requires Inv(s)
  {
    s.emitted != [] && IsTerminal(s.log[s.emitted[|s.emitted| - 1]].typ)
  }

  lemma WireIsSlice(s: Server)
    requires Inv(s) && s.lost == {}
    ensures s.start + |s.emitted| <= |s.log| && Wire(s) == s.log[s.start..s.start + |s.emitted|]
  {
  }

  lemma QuietSlice(s: Server, n: nat)
    requires Inv(s) && s.lost == {} && n <= |s.emitted| && Quiet(s.log, s.emitted, n)
    ensures s.start + n <= |s.log| && !Ends(s.log[s.start..s.start + n])
  {
    var xs := s.log[s.start..s.start + n];
    forall i | 0 <= i < n ensures !IsTerminal(xs[i].typ) {
      assert xs[i] == s.log[s.emitted[i]];
    }
  }

  // ----- what the channel refuses

  /** Step j published while the stream was listening. */
  ghost predicate Offer(states: seq<Server>, steps: seq<Step>, j: nat) {
    && j < |steps| && j < |states| && steps[j].Publish?
    && (states[j].stage == Subscribed || states[j].stage == Replaying || states[j].stage == Live)
  }

  /** Step j published position p to a listening stream for which 64 positions were waiting. */
  ghost predicate OfferRefused(states: seq<Server>, steps: seq<Step>, j: nat, p: nat) {
    Offer(states, steps, j) && |states[j].log| == p && |states[j].buffer| == 64
  }

  lemma LossStep(states: seq<Server>, steps: seq<Step>, j: nat, p: nat)
    requires StepAt(states, steps, j) && Inv(states[j])
    ensures p in states[j + 1].lost <==> p in states[j].lost || OfferRefused(states, steps, j, p)
  {
  }

  /**
   In every execution, the positions lost are exactly those published while the stream was
   listening with 64 positions waiting.
   */
  lemma {:induction false} LostExactly(states: seq<Server>, steps: seq<Step>, i: nat, p: nat)
    requires Execution(states, steps) && i < |states|
    ensures p in states[i].lost <==> exists j: nat :: j < i && OfferRefused(states, steps, j, p)
    decreases i
  {
    if i > 0 {
      var last: nat := i - 1;
      LostExactly(states, steps, last, p);
      EveryStreamState(states, steps, last);
      assert StepAt(states, steps, last);
      LossStep(states, steps, last, p);
      assert OfferRefused(states, steps, last, p) ==> exists j: nat :: j < i && OfferRefused(states, steps, j, p);
    }
  }

  /** Whenever an event is published to the listening stream, fewer than 64 positions wait. */
  ghost predicate RoomAtEachOffer(states: seq<Server>, steps: seq<Step>, i: nat) {
    forall j: nat {:trigger Offer(states, steps, j)} ::
      j < i && Offer(states, steps, j) ==> |states[j].buffer| < 64
  }

  lemma NothingLostExactly(states: seq<Server>, steps: seq<Step>, i: nat)
    requires Execution(states, steps) && i < |states|
    ensures states[i].lost == {} <==> RoomAtEachOffer(states, steps, i)
  {
    forall p: nat | p in states[i].lost ensures !RoomAtEachOffer(states, steps, i) {
      LostExactly(states, steps, i, p);
    }
    forall j: nat | j < i && Offer(states, steps, j) && |states[j].buffer| >= 64 ensures states[i].lost != {} {
      EveryStreamState(states, steps, j);
      assert OfferRefused(states, steps, j, |states[j].log|);
      LostExactly(states, steps, i, |states[j].log|);
    }
  }

  /**
   Without overflow nothing is missed across the seam either: what was sent is always the
   log from the starting point without a gap, and once the stream has caught up, or ended
   on a terminal event, it is that whole suffix up to its first terminal event.
   */
  lemma StreamIsExact(states: seq<Server>, steps: seq<Step>, i: nat)
    requires Execution(states, steps) && i < |states| && RoomAtEachOffer(states, steps, i)
    ensures Inv(states[i])
    ensures var s := states[i];
      && s.start + |s.emitted| <= |s.log| && Wire(s) == s.log[s.start..s.start + |s.emitted|]
      && (CaughtUp(s) || Finished(s) ==> Wire(s) == UpToTerminal(s.log[s.start..]))
  {
    EveryStreamState(states, steps, i);
    NothingLostExactly(states, steps, i);
    var s := states[i];
    WireIsSlice(s);
    if Finished(s) {
      FinishedIsExact(s);
    } else if CaughtUp(s) {
      CaughtUpIsExact(s);
    }
  }

  lemma CaughtUpIsExact(s: Server)
    requires Inv(s) && s.lost == {} && CaughtUp(s)
    ensures s.start <= |s.log| && Wire(s) == UpToTerminal(s.log[s.start..])
  {
    var rest := s.log[s.start..s.start + |s.emitted|];
    assert Wire(s) == rest by {
      WireIsSlice(s);
    }
    assert !Ends(rest) by {
      QuietSlice(s, |s.emitted|);
    }
    UpToTerminalWhole(rest);
    assert rest == s.log[s.start..];
  }

  lemma FinishedIsExact(s: Server)
    requires Inv(s) && s.lost == {} && Finished(s)
    ensures s.start <= |s.log| && Wire(s) == UpToTerminal(s.log[s.start..])
  {
    var n := |s.emitted|;
    var last := s.start + n - 1;
    assert last < |s.log| && Wire(s) == s.log[s.start..last + 1] by {
      WireIsSlice(s);
    }
    assert !Ends(s.log[s.start..last]) by {
      QuietSlice(s, n - 1);
    }
    assert s.emitted[n - 1] == last;
    EndsHere(s.log, s.start, last);
  }

  lemma EndsHere(log: seq<Event>, start: nat, last: nat)
    requires start <= last < |log| && !Ends(log[start..last]) && IsTerminal(log[last].typ)
    ensures UpToTerminal(log[start..]) == log[start..last + 1]
  {
    var a, b := log[start..last], log[last + 1..];
    assert log[start..last + 1] == a + [log[last]] && log[start..] == log[start..last + 1] + b;
    OneMore(a, log[last], b);
  }

  // ----- which streams the run closes

  /** A position that can get to the client: in the snapshot, or not refused by the channel. */
  predicate Reached(s: Server, p: nat) {
    p < s.edge || p !in s.lost
  }

  /** What has been dealt with was sent exactly if it could be. */
  ghost predicate Accounts(s: Server) {
    && (forall p {:trigger p in s.lost} :: p in s.lost ==> p < |s.log|)
    && (forall p: nat {:trigger p in s.emitted} :: s.start <= p < s.next ==> p in s.emitted || !Reached(s, p))
    && (forall p {:trigger p in s.emitted} :: p in s.emitted ==> Reached(s, p))
  }

  /** What has not been dealt with is in the channel or was refused by it. */
  ghost predicate Offered(s: Server) {
    && (forall p {:trigger p in s.buffer} :: p in s.buffer ==> p !in s.lost)
    && (forall p: nat {:trigger p in s.buffer} ::
         (if s.stage == Live then s.next else s.subAt) <= p < |s.log| ==> p in s.buffer || p in s.lost)
  }

  ghost predicate Ledger(s: Server) {
    Accounts(s) && (Listening(s) ==> Offered(s))
  }

  lemma PublishLedger(s: Server, ev: Event)
    requires Inv(s) && Ledger(s)
    ensures Ledger(Published(s, ev))
  {
    var t := Published(s, ev);
    if Listening(s) {
      assert forall p :: p in t.buffer <==> p in s.buffer || (p == |s.log| && |s.buffer| < BUFFER);
      assert forall p :: p in s.buffer ==> p < |s.log|;
    }
  }

  lemma EmitAccounts(s: Server, p: nat)
    requires Accounts(s) && s.next <= p < |s.log| && Reached(s, p)
    requires forall q :: s.next <= q < p ==> !Reached(s, q)
    ensures Accounts(Emitted(s, p))
  {
    var t := Emitted(s, p);
    assert forall q :: q in t.emitted <==> q in s.emitted || q == p;
    forall q: nat | t.start <= q < t.next ensures q in t.emitted || !Reached(t, q) {
      assert Reached(t, q) == Reached(s, q);
      assert q < s.next ==> q in s.emitted || !Reached(s, q);
    }
  }

  /** Taking the first position out of the channel, what precedes it has been lost. */
  lemma TakeFirst(s: Server)
    requires InLive(s) && Waiting(s) && Offered(s) && s.stage == Live && s.buffer != []
    ensures var p, rest := s.buffer[0], s.buffer[1..];
      && p !in s.lost && (forall q :: q in s.buffer <==> q == p || q in rest)
      && (forall q :: s.next <= q < p ==> q in s.lost)
  {
    var p, rest := s.buffer[0], s.buffer[1..];
    assert s.buffer == [p] + rest && p in s.buffer;
    forall q | s.next <= q < p ensures q in s.lost {
      assert q !in s.buffer;
    }
  }

  lemma ReceiveLedger(s: Server)
    requires Inv(s) && Ledger(s) && Possible(s, Receive)
    ensures Ledger(Next(s, Receive))
  {
    var p, t := s.buffer[0], s.(buffer := s.buffer[1..]);
    SeenIsReplayed(s, p);
    TakeFirst(s);
    if p >= s.edge {
      EmitAccounts(t, p);
    }
  }

  lemma LedgerKept(s: Server, a: Step)
    requires Inv(s) && Ledger(s) && Possible(s, a)
    ensures Ledger(Next(s, a))
  {
    match a
    case Publish(ev) => PublishLedger(s, ev);
    case Replay => EmitAccounts(s, s.next);
    case Receive => ReceiveLedger(s);
    case _ =>
  }

  lemma {:induction false} EveryLedger(states: seq<Server>, steps: seq<Step>, i: nat)
    requires Execution(states, steps) && i < |states|
    ensures Inv(states[i]) && Ledger(states[i])
    decreases i
  {
    EveryStreamState(states, steps, i);
    if i > 0 {
      EveryLedger(states, steps, i - 1);
      assert StepAt(states, steps, i - 1);
      LedgerKept(states[i - 1], steps[i - 1]);
    }
  }

  /** The stream has nothing left to do: the run closed it, or it waits for more. */
  ghost predicate Settled(s: Server)
    requires Inv(s)
  {
    CaughtUp(s) || Finished(s)
  }

  predicate Own(a: Step) {
    !a.Publish? && !a.Leave?
  }

  /** The steps the stream still has to take if nothing more is published. */
  function Work(s: Server): nat {
    match s.stage
    case Idle => |s.log| + 3
    case Subscribed => |s.log| + |s.buffer| + 2
    case Replaying => (if s.next < s.edge then s.edge - s.next else 0) + |s.buffer| + 1
    case Live => |s.buffer|
    case Closed => 0
  }

  /** A stream that has neither caught up nor been closed can go on, and comes closer to either. */
  lemma NeverStuck(s: Server)
    requires Inv(s) && s.stage != Closed && !CaughtUp(s)
    ensures exists a: Step :: Own(a) && Possible(s, a) && Work(Next(s, a)) < Work(s)
  {
    var a :=
      if s.stage == Idle then Subscribe
      else if s.stage == Subscribed then Snapshot
      else if s.stage == Live then Receive
      else if s.next < s.edge then Replay
      else GoLive;
    assert Own(a) && Possible(s, a);
    assert Work(Next(s, a)) < Work(s);
  }

  /** A closing event at or after the starting point that can get to the client. */
  ghost predicate Closing(s: Server, p: nat) {
    s.start <= p < |s.log| && IsTerminal(s.log[p].typ) && Reached(s, p)
  }

  /** Once the stream waits for more, it has sent whatever could get to the client. */
  lemma CaughtUpSent(s: Server, p: nat)
    requires Inv(s) && Ledger(s) && CaughtUp(s) && s.start <= p < |s.log|
    ensures p in s.emitted <==> Reached(s, p)
  {
    assert p !in s.buffer;
  }

  /**
   In every interleaving, overflow included: a stream that is not left by its client is
   closed by the run exactly when some closing event at or after its starting point was in
   the snapshot or found room in the channel.
   */
  lemma ClosedExactly(states: seq<Server>, steps: seq<Step>, i: nat)
    requires Execution(states, steps) && i < |states|
    ensures Inv(states[i])
    ensures var s := states[i]; Settled(s) ==> StartsRight(s) && (Finished(s) <==> exists p: nat :: Closing(s, p))
  {
    EveryLedger(states, steps, i);
    if Finished(states[i]) {
      FinishedByClosing(states[i]);
    } else if CaughtUp(states[i]) {
      OpenHasNoClosing(states[i]);
    }
  }

  lemma FinishedByClosing(s: Server)
    requires Inv(s) && Ledger(s) && Finished(s)
    ensures exists p: nat :: Closing(s, p)
  {
    var p := s.emitted[|s.emitted| - 1];
    assert p in s.emitted && Closing(s, p);
  }

  lemma OpenHasNoClosing(s: Server)
    requires Inv(s) && Ledger(s) && CaughtUp(s)
    ensures forall p: nat :: !Closing(s, p)
  {
    forall p: nat ensures !Closing(s, p) {
      if s.start <= p < |s.log| && IsTerminal(s.log[p].typ) {
        CaughtUpSent(s, p);
        OpenIsQuiet(s, p);
      }
    }
  }

  lemma OpenIsQuiet(s: Server, p: nat)
    requires Inv(s) && s.stage != Closed && p < |s.log| && IsTerminal(s.log[p].typ)
    ensures p !in s.emitted
  {
  }

  /** Without overflow: closed exactly when the log from the starting point holds a closing event. */
  lemma ClosedWithoutLoss(states: seq<Server>, steps: seq<Step>, i: nat)
    requires Execution(states, steps) && i < |states| && RoomAtEachOffer(states, steps, i)
    ensures Inv(states[i])
    ensures var s := states[i]; Settled(s) ==> (Finished(s) <==> Ends(s.log[s.start..]))
  {
    ClosedExactly(states, steps, i);
    NothingLostExactly(states, steps, i);
    ClosingIsEnd(states[i]);
  }

  lemma ClosingIsEnd(s: Server)
    requires s.lost == {} && s.start <= |s.log|
    ensures (exists p: nat :: Closing(s, p)) <==> Ends(s.log[s.start..])
  {
    var rest := s.log[s.start..];
    if Ends(rest) {
      var k :| 0 <= k < |rest| && IsTerminal(rest[k].typ);
      assert Closing(s, s.start + k);
    }
    if p: nat :| Closing(s, p) {
      assert rest[p - s.start] == s.log[p];
    }
  }

  /** Opened without an anchor, or resumed at the last event, over a log that has ended. */
  function LateStates(log: seq<Event>, from: Option<string>): seq<Server> {
    var s0 := Request(log, from);
    var s1 := s0.(stage := Subscribed, subAt := |log|);
    var s2 := s1.(stage := if from == None then Live else Replaying, start := |log|, edge := |log|, next := |log|);
    if from == None then [s0, s1, s2] else [s0, s1, s2, s2.(stage := Live)]
  }

  /** Such a stream waits for ever for an event that is behind it. */
  lemma OpenedTooLate(log: seq<Event>, from: Option<string>)
    requires UniqueIds(log) && log != [] && IsTerminal(log[|log| - 1].typ)
    requires from == None || from == Some(log[|log| - 1].id)
    ensures exists states: seq<Server>, steps: seq<Step> ::
      && Execution(states, steps) && states[0] == Request(log, from)
      && states[|states| - 1].log == log && CaughtUp(states[|states| - 1])
  {
    var states := LateStates(log, from);
    var steps := if from == None then [Subscribe, Snapshot] else [Subscribe, Snapshot, GoLive];
    LastPlace(log);
    assert StepAt(states, steps, 0) && StepAt(states, steps, 1);
    assert from != None ==> StepAt(states, steps, 2);
    assert Execution(states, steps);
  }

  lemma LastPlace(log: seq<Event>)
    requires UniqueIds(log) && log != []
    ensures Place(log, log[|log| - 1].id) == |log| - 1
  {
  }
}
