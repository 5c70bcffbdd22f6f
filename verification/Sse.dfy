/** Replay, live tail and the seam between them: internal/server/sse.go. The log holds the events of one run. */
module Sse {
  import opened Common
  import opened Events
  import Runtime

  const BUFFER: nat := 64

  predicate IsTerminal(t: EventType) {
    t == RunCompleted || t == RunFailed || t == RunCancelled
  }

  /** The events that close a stream are those that move a run to a terminal phase. */
  lemma TerminalEventsEndRuns(t: EventType)
    ensures IsTerminal(t) <==>
      exists from: Runtime.Phase ::
        Runtime.LookupTransition(from, t).Some? && Runtime.LookupTransition(from, t).value.IsTerminal()
  {
    if IsTerminal(t) {
      assert Runtime.LookupTransition(Runtime.AgentDone, t).Some?;
    }
  }

  ghost predicate UniqueIds(log: seq<Event>) {
    forall i, j :: 0 <= i < j < |log| ==> log[i].id != log[j].id
  }

  /** The position of the first event with this id, or -1. */
  function Place(log: seq<Event>, id: string): (i: int)
    ensures -1 <= i < |log| && (i >= 0 ==> log[i].id == id)
    ensures forall k :: 0 <= k < (if i < 0 then |log| else i) ==> log[k].id != id
  {
    if log == [] then -1
    else if log[0].id == id then 0
    else
      var later := Place(log[1..], id);
      if later < 0 then -1 else later + 1
  }

  method IndexOfEventID(history: seq<Event>, id: string) returns (r: int)
    ensures r == Place(history, id)
  {
    var i := 0;
    while i < |history|
      invariant 0 <= i <= |history|
      invariant forall k :: 0 <= k < i ==> history[k].id != id
    {
      if history[i].id == id {
        return i;
      }
      i := i + 1;
    }
    return -1;
  }

  // ----- the handler on its own

  function UpToTerminal(xs: seq<Event>): seq<Event> {
    if xs == [] then [] else if IsTerminal(xs[0].typ) then [xs[0]] else [xs[0]] + UpToTerminal(xs[1..])
  }

  predicate Ends(xs: seq<Event>) {
    exists i :: 0 <= i < |xs| && IsTerminal(xs[i].typ)
  }

  function Ids(xs: seq<Event>): set<string> {
    set i | 0 <= i < |xs| :: xs[i].id
  }

  function Unseen(xs: seq<Event>, seen: set<string>): seq<Event> {
    if xs == [] then [] else (if xs[0].id in seen then [] else [xs[0]]) + Unseen(xs[1..], seen)
  }

  /** The part of the history to replay: what follows the anchor; nothing without one. */
  function Replayed(history: seq<Event>, from: Option<string>): seq<Event> {
    if from.None? || Place(history, from.value) < 0 then [] else history[Place(history, from.value) + 1..]
  }

  lemma {:induction false} UpToTerminalSnoc(xs: seq<Event>, x: Event)
    ensures UpToTerminal(xs + [x]) == if Ends(xs) then UpToTerminal(xs) else xs + [x]
    ensures !Ends(xs) ==> UpToTerminal(xs) == xs
  {
    if xs == [] {
      assert xs + [x] == [x] && [x][1..] == [];
    } else {
      assert (xs + [x])[1..] == xs[1..] + [x] && (xs + [x])[0] == xs[0];
      UpToTerminalSnoc(xs[1..], x);
      assert Ends(xs) <==> IsTerminal(xs[0].typ) || Ends(xs[1..]) by {
        assert forall i :: 1 <= i < |xs| ==> xs[i] == xs[1..][i - 1];
      }
    }
  }

  lemma UpToTerminalCons(x: Event, ys: seq<Event>)
    ensures UpToTerminal([x] + ys) == if IsTerminal(x.typ) then [x] else [x] + UpToTerminal(ys)
  {
    assert ([x] + ys)[1..] == ys;
  }

  lemma {:induction false} UpToTerminalAppend(a: seq<Event>, b: seq<Event>)
    ensures UpToTerminal(a + b) == if Ends(a) then UpToTerminal(a) else a + UpToTerminal(b)
  {
    if a == [] {
      assert a + b == b;
    } else {
      var x, rest := a[0], a[1..];
      assert a == [x] + rest;
      ConcatAssociative([x], rest, b);
      ConcatAssociative([x], rest, UpToTerminal(b));
      UpToTerminalCons(x, rest);
      UpToTerminalCons(x, rest + b);
      UpToTerminalAppend(rest, b);
      EndsFirst(a);
    }
  }

  lemma EndsAppend(a: seq<Event>, b: seq<Event>)
    ensures Ends(a + b) <==> Ends(a) || Ends(b)
  {
    assert forall i :: 0 <= i < |a| ==> (a + b)[i] == a[i];
    assert forall i :: 0 <= i < |b| ==> (a + b)[|a| + i] == b[i];
  }

  lemma EndsFirst(xs: seq<Event>)
    requires xs != []
    ensures Ends(xs) <==> IsTerminal(xs[0].typ) || Ends(xs[1..])
  {
    assert forall i :: 1 <= i < |xs| ==> xs[i] == xs[1..][i - 1];
  }

  /** The replay loop: emit and remember until the snapshot or the run ends. */
  method ReplayPhase(history: seq<Event>, from: Option<string>)
    returns (emitted: seq<Event>, seen: set<string>, done: bool)
    ensures emitted == UpToTerminal(Replayed(history, from)) && done == Ends(Replayed(history, from))
    ensures !done ==> seen == Ids(Replayed(history, from))
  {
    emitted, seen, done := [], {}, false;
    if from.None? {
      return;
    }
    var idx := IndexOfEventID(history, from.value);
    if idx < 0 {
      return;
    }
    var xs := history[idx + 1..];
    var i := 0;
    while i < |xs|
      invariant 0 <= i <= |xs| && emitted == xs[..i] && !Ends(xs[..i]) && seen == Ids(xs[..i])
    {
      emitted := emitted + [xs[i]];
      seen := seen + {xs[i].id};
      assert xs[..i + 1] == xs[..i] + [xs[i]] && xs == xs[..i + 1] + xs[i + 1..];
      OneMore(xs[..i], xs[i], xs[i + 1..]);
      if IsTerminal(xs[i].typ) {
        return emitted, seen, true;
      }
      i := i + 1;
    }
    assert xs[..|xs|] == xs;
    UpToTerminalWhole(xs);
  }

  lemma OneMore(a: seq<Event>, x: Event, b: seq<Event>)
    requires !Ends(a)
    ensures Ids(a + [x]) == Ids(a) + {x.id} && (Ends(a + [x]) <==> IsTerminal(x.typ))
    ensures IsTerminal(x.typ) ==> UpToTerminal(a + [x] + b) == a + [x] && Ends(a + [x] + b)
  {
    var ys := a + [x];
    assert ys[|a|] == x && forall k :: 0 <= k < |a| ==> ys[k] == a[k];
    if IsTerminal(x.typ) {
      assert (ys + b)[|a|] == x;
      UpToTerminalSnoc(a, x);
      UpToTerminalAppend(ys, b);
    }
  }

  /** The live loop over what the channel delivers, skipping what was replayed. */
  method LivePhase(seen: set<string>, live: seq<Event>) returns (emitted: seq<Event>)
    ensures emitted == UpToTerminal(Unseen(live, seen))
  {
    emitted := [];
    var i := 0;
    while i < |live|
      invariant 0 <= i <= |live|
      invariant UpToTerminal(Unseen(live, seen)) == emitted + UpToTerminal(Unseen(live[i..], seen))
    {
      var ev := live[i];
      assert live[i..][1..] == live[i + 1..];
      LiveStep(emitted, ev, Unseen(live[i + 1..], seen));
      i := i + 1;
      if ev.id in seen {
        continue;
      }
      emitted := emitted + [ev];
      if IsTerminal(ev.typ) {
        return;
      }
    }
  }

  lemma LiveStep(emitted: seq<Event>, ev: Event, later: seq<Event>)
    ensures [] + later == later
    ensures emitted + UpToTerminal([ev] + later) ==
      if IsTerminal(ev.typ) then emitted + [ev] else (emitted + [ev]) + UpToTerminal(later)
  {
    UpToTerminalCons(ev, later);
    ConcatAssociative(emitted, [ev], UpToTerminal(later));
  }

  /** The handler from its snapshot on: `history` is the snapshot, `live` what its subscription delivers. */
  method Stream(history: seq<Event>, from: Option<string>, live: seq<Event>) returns (emitted: seq<Event>)
    ensures emitted ==
      UpToTerminal(Replayed(history, from) + Unseen(live, Ids(Replayed(history, from))))
  {
    var seen, done;
    emitted, seen, done := ReplayPhase(history, from);
    UpToTerminalAppend(Replayed(history, from), Unseen(live, Ids(Replayed(history, from))));
    UpToTerminalWhole(Replayed(history, from));
    if done {
      return;
    }
    var rest := LivePhase(seen, live);
    emitted := emitted + rest;
  }

  lemma UpToTerminalWhole(xs: seq<Event>)
    ensures !Ends(xs) ==> UpToTerminal(xs) == xs
  {
    UpToTerminalAppend(xs, []);
    assert xs + [] == xs;
  }

  lemma {:induction false} UnseenAppend(a: seq<Event>, b: seq<Event>, seen: set<string>)
    ensures Unseen(a + b, seen) == Unseen(a, seen) + Unseen(b, seen)
  {
    if a == [] {
      assert a + b == b;
    } else {
      assert (a + b)[1..] == a[1..] + b && (a + b)[0] == a[0];
      UnseenAppend(a[1..], b, seen);
    }
  }

  lemma {:induction false} UnseenNone(xs: seq<Event>, seen: set<string>)
    requires forall i :: 0 <= i < |xs| ==> xs[i].id in seen
    ensures Unseen(xs, seen) == []
  {
    if xs != [] {
      UnseenNone(xs[1..], seen);
    }
  }

  lemma {:induction false} UnseenAll(xs: seq<Event>, seen: set<string>)
    requires forall i :: 0 <= i < |xs| ==> xs[i].id !in seen
    ensures Unseen(xs, seen) == xs
  {
    if xs != [] {
      UnseenAll(xs[1..], seen);
    }
  }

  /**
   Across the seam nothing is lost and nothing repeated: subscribe at subAt, read the
   snapshot at snapAt or later, and the replay with the deduplicated live tail is the log
   after the anchor.
   */
  lemma SeamIsExact(log: seq<Event>, from: string, subAt: nat, snapAt: nat)
    requires UniqueIds(log) && 0 <= Place(log, from) < subAt <= snapAt <= |log|
    ensures var replay := Replayed(log[..snapAt], Some(from));
      replay + Unseen(log[subAt..], Ids(replay)) == log[Place(log, from) + 1..]
  {
    ReplayedSlice(log, from, snapAt);
    LiveContinues(log, Place(log, from) + 1, subAt, snapAt);
    Cut(log, Place(log, from) + 1, snapAt);
  }

  lemma LiveContinues(log: seq<Event>, start: nat, subAt: nat, snapAt: nat)
    requires UniqueIds(log) && start <= subAt <= snapAt <= |log|
    ensures Unseen(log[subAt..], Ids(log[start..snapAt])) == log[snapAt..]
  {
    var overlap, rest, seen := log[subAt..snapAt], log[snapAt..], Ids(log[start..snapAt]);
    assert log[subAt..] == overlap + rest by {
      Cut(log, subAt, snapAt);
    }
    assert Unseen(overlap + rest, seen) == rest by {
      SeenBefore(log, start, subAt, snapAt);
      NewAfter(log, start, snapAt);
      OverlapDropped(overlap, rest, seen);
    }
  }

  lemma OverlapDropped(overlap: seq<Event>, rest: seq<Event>, seen: set<string>)
    requires forall i :: 0 <= i < |overlap| ==> overlap[i].id in seen
    requires forall i :: 0 <= i < |rest| ==> rest[i].id !in seen
    ensures Unseen(overlap + rest, seen) == rest
  {
    UnseenAppend(overlap, rest, seen);
    UnseenNone(overlap, seen);
    UnseenAll(rest, seen);
  }

  lemma Cut(log: seq<Event>, i: nat, j: nat)
    requires i <= j <= |log|
    ensures log[i..] == log[i..j] + log[j..]
  {
  }

  lemma SeenBefore(log: seq<Event>, start: nat, subAt: nat, snapAt: nat)
    requires start <= subAt <= snapAt <= |log|
    ensures forall i :: 0 <= i < snapAt - subAt ==> log[subAt..snapAt][i].id in Ids(log[start..snapAt])
  {
    forall i | 0 <= i < snapAt - subAt ensures log[subAt..snapAt][i].id in Ids(log[start..snapAt]) {
      assert log[subAt..snapAt][i] == log[start..snapAt][subAt + i - start];
    }
  }

  lemma NewAfter(log: seq<Event>, start: nat, snapAt: nat)
    requires UniqueIds(log) && start <= snapAt <= |log|
    ensures forall i :: 0 <= i < |log| - snapAt ==> log[snapAt..][i].id !in Ids(log[start..snapAt])
  {
    var replay := log[start..snapAt];
    assert forall j :: 0 <= j < |replay| ==> replay[j] == log[start + j];
  }

  lemma ReplayedSlice(log: seq<Event>, from: string, snapAt: nat)
    requires UniqueIds(log) && 0 <= Place(log, from) < snapAt <= |log|
    ensures Replayed(log[..snapAt], Some(from)) == log[Place(log, from) + 1..snapAt]
  {
    PlaceInPrefix(log, snapAt, from);
  }

  lemma PlaceInPrefix(log: seq<Event>, n: nat, id: string)
    requires UniqueIds(log) && 0 <= Place(log, id) < n <= |log|
    ensures Place(log[..n], id) == Place(log, id)
  {
    var p := Place(log, id);
    assert log[..n][p].id == id;
  }
}
