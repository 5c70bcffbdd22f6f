/** Which streams a run closes, and which of them deliver what is published after it, in every interleaving. */
module RunDelivery {
  import opened Common
  import opened Events
  import opened RefineCycle
  import opened ReactiveCycle
  import opened RunStream
  import Protocol = SseProtocol
  import Sse

  /**
   What the store holds of a run when Run has returned: its own events, with the commands of
   its driver and the scheduler's announcements anywhere before the last of them.
   */
  ghost predicate IsLog(o: Options, e: Entry, c: Course, evs: seq<Event>) {
    Own(evs) == Published(o, e, c) && EndsInOwn(evs)
  }

  lemma OwnAppend(a: seq<Event>, b: seq<Event>)
    ensures Own(a + b) == Own(a) + Own(b)
  {
    FilterAppend(a, b, (ev: Event) => !IsAside(ev.typ));
  }

  /** Asides close nothing. */
  lemma {:induction false} OwnStaysOpen(evs: seq<Event>)
    requires !Sse.Ends(Own(evs))
    ensures !Sse.Ends(evs)
    decreases |evs|
  {
    if evs != [] {
      var first, rest := [evs[0]], evs[1..];
      assert evs == first + rest;
      OwnAppend(first, rest);
      Sse.EndsAppend(Own(first), Own(rest));
      Sse.EndsAppend(first, rest);
      OwnStaysOpen(rest);
      assert Own(first) == if IsAside(evs[0].typ) then [] else first;
    }
  }

  lemma LastIsOwn(evs: seq<Event>)
    requires EndsInOwn(evs)
    ensures Own(evs) == Own(evs[..|evs| - 1]) + [evs[|evs| - 1]]
  {
    var init, last := evs[..|evs| - 1], [evs[|evs| - 1]];
    assert evs == init + last;
    OwnAppend(init, last);
    FilterAll(last, (ev: Event) => !IsAside(ev.typ));
  }

  lemma ClosesWithLast(evs: seq<Event>)
    requires evs != []
    ensures ClosesAtEnd(evs) <==> !Sse.Ends(evs[..|evs| - 1]) && Sse.IsTerminal(evs[|evs| - 1].typ)
  {
    assert forall i :: 0 <= i < |evs| - 1 ==> evs[..|evs| - 1][i] == evs[i];
  }

  lemma SameLast<T>(a: seq<T>, x: T, b: seq<T>, y: T)
    requires a + [x] == b + [y]
    ensures a == b && x == y
  {
    assert |a| == |b| && (a + [x])[|a|] == x && (b + [y])[|b|] == y;
    assert a == (a + [x])[..|a|] && b == (b + [y])[..|b|];
  }

  lemma LogClosesAtEnd(run: seq<Event>, evs: seq<Event>)
    requires EndsInOwn(evs) && Own(evs) == run && ClosesAtEnd(run)
    ensures ClosesAtEnd(evs)
  {
    var init, body, end := evs[..|evs| - 1], run[..|run| - 1], run[|run| - 1];
    LastIsOwn(evs);
    ClosesWithLast(run);
    assert run == body + [end];
    SameLast(Own(init), evs[|evs| - 1], body, end);
    OwnStaysOpen(init);
    ClosesWithLast(evs);
  }

  lemma LogEnds(o: Options, e: Entry, c: Course, evs: seq<Event>)
    requires IsLog(o, e, c, evs)
    ensures if EndsInPublic(c) then ClosesAtEnd(evs) else !Sse.Ends(evs)
  {
    RunEndsItsLog(o, e, c);
    if EndsInPublic(c) {
      LogClosesAtEnd(Published(o, e, c), evs);
    } else {
      OwnStaysOpen(evs);
    }
  }

  /** The log of the stream, with whatever ids, holds this run and what was published after it. */
  ghost predicate Holds(log: seq<Event>, run: seq<Event>, later: seq<Event>) {
    && |log| == |run| + |later|
    && (forall i :: 0 <= i < |run| ==> log[i].typ == run[i].typ)
    && (forall i :: 0 <= i < |later| ==> log[|run| + i].typ == later[i].typ)
  }

  /** The closing event is not behind the stream, and was in its snapshot or found room in its channel. */
  predicate Closes(c: Course, run: seq<Event>, s: Protocol.Server) {
    EndsInPublic(c) && s.start < |run| && Protocol.Reached(s, |run| - 1)
  }

  /** A state of some execution in which this run, and `later` after it, is in the log. */
  ghost predicate Delivering(o: Options, e: Entry, c: Course, run: seq<Event>, later: seq<Event>,
                             states: seq<Protocol.Server>, steps: seq<Protocol.Step>, i: nat) {
    && Protocol.Execution(states, steps) && i < |states|
    && IsLog(o, e, c, run) && !Sse.Ends(later) && Holds(states[i].log, run, later)
  }

  /** The only closing event of such a log is the last one of a run that ends in public. */
  lemma OnlyTheEndCloses(o: Options, e: Entry, c: Course, run: seq<Event>, later: seq<Event>,
                         log: seq<Event>, p: nat)
    requires IsLog(o, e, c, run) && !Sse.Ends(later) && Holds(log, run, later) && p < |log|
    ensures Sse.IsTerminal(log[p].typ) <==> EndsInPublic(c) && p == |run| - 1
  {
    LogEnds(o, e, c, run);
    if p >= |run| {
      assert log[p].typ == later[p - |run|].typ;
    }
  }

  /**
   In every interleaving, a stream that its client does not leave is closed by the run
   exactly when the run did not fail on its credentials, the stream did not start after the
   closing event, and that event was in its snapshot or found room in its channel.
   */
  lemma RunClosesStream(o: Options, e: Entry, c: Course, run: seq<Event>, later: seq<Event>,
                        states: seq<Protocol.Server>, steps: seq<Protocol.Step>, i: nat)
    requires Delivering(o, e, c, run, later, states, steps, i)
    ensures Protocol.Inv(states[i])
    ensures var s := states[i]; Protocol.Settled(s) ==>
      Protocol.StartsRight(s) && (Protocol.Finished(s) <==> Closes(c, run, s))
  {
    Protocol.ClosedExactly(states, steps, i);
    ClosingIsTheEnd(o, e, c, run, later, states[i]);
  }

  lemma ClosingIsTheEnd(o: Options, e: Entry, c: Course, run: seq<Event>, later: seq<Event>,
                        s: Protocol.Server)
    requires IsLog(o, e, c, run) && !Sse.Ends(later) && Holds(s.log, run, later)
    ensures (exists p: nat :: Protocol.Closing(s, p)) <==> Closes(c, run, s)
  {
    if p: nat :| Protocol.Closing(s, p) {
      OnlyTheEndCloses(o, e, c, run, later, s.log, p);
    }
    if Closes(c, run, s) {
      OnlyTheEndCloses(o, e, c, run, later, s.log, |run| - 1);
      assert Protocol.Closing(s, |run| - 1);
    }
  }

  /** What is published after the run gets to exactly the streams that the run does not close. */
  lemma LaterEventsReach(o: Options, e: Entry, c: Course, run: seq<Event>, later: seq<Event>,
                         states: seq<Protocol.Server>, steps: seq<Protocol.Step>, i: nat, q: nat)
    requires Delivering(o, e, c, run, later, states, steps, i) && |run| <= q < |states[i].log|
    ensures Protocol.Inv(states[i])
    ensures var s := states[i]; Protocol.Settled(s) ==>
      (q in s.emitted <==> s.start <= q && Protocol.Reached(s, q) && !Closes(c, run, s))
  {
    RunClosesStream(o, e, c, run, later, states, steps, i);
    var s := states[i];
    if Protocol.Finished(s) {
      ClosedDeliversNone(o, e, c, run, later, s, q);
    } else if Protocol.CaughtUp(s) {
      Protocol.EveryLedger(states, steps, i);
      OpenDeliversAll(s, q);
    }
  }

  lemma ClosedDeliversNone(o: Options, e: Entry, c: Course, run: seq<Event>, later: seq<Event>,
                           s: Protocol.Server, q: nat)
    requires Protocol.Inv(s) && Protocol.Finished(s) && q >= |run|
    requires IsLog(o, e, c, run) && !Sse.Ends(later) && Holds(s.log, run, later)
    ensures q !in s.emitted
  {
    OnlyTheEndCloses(o, e, c, run, later, s.log, s.emitted[|s.emitted| - 1]);
    NothingAfterLast(s.emitted, s.start, s.next, q);
  }

  lemma OpenDeliversAll(s: Protocol.Server, q: nat)
    requires Protocol.Inv(s) && Protocol.Ledger(s) && Protocol.CaughtUp(s) && q < |s.log|
    ensures q in s.emitted <==> s.start <= q && Protocol.Reached(s, q)
  {
    if s.start <= q {
      Protocol.CaughtUpSent(s, q);
    }
  }

  lemma NothingAfterLast(xs: seq<nat>, lo: nat, hi: nat, q: nat)
    requires Protocol.Ascending(xs, lo, hi) && xs != [] && xs[|xs| - 1] < q
    ensures q !in xs
  {
  }

  /** The reviews and the report that Coordinate publishes once Run has been awaited. */
  lemma AdviceReaches(o: Options, e: Entry, w: World, run: seq<Event>, a: Advice,
                      states: seq<Protocol.Server>, steps: seq<Protocol.Step>, i: nat)
    requires Protocol.Execution(states, steps) && i < |states|
    requires IsLog(o, e, Runs(w), run) && Holds(states[i].log, run, AdviceEvents(o, a))
    ensures Protocol.Inv(states[i])
    ensures var s := states[i]; Protocol.Settled(s) ==>
      (forall q: nat :: |run| <= q < |s.log| ==>
        (q in s.emitted <==> s.start <= q && Protocol.Reached(s, q) && !Closes(Runs(w), run, s)))
  {
    AdviceIsOpen(o, a);
    RunClosesStream(o, e, Runs(w), run, AdviceEvents(o, a), states, steps, i);
    forall q: nat | |run| <= q < |states[i].log| && Protocol.Settled(states[i])
      ensures q in states[i].emitted <==>
        states[i].start <= q && Protocol.Reached(states[i], q) && !Closes(Runs(w), run, states[i])
    {
      LaterEventsReach(o, e, Runs(w), run, AdviceEvents(o, a), states, steps, i, q);
    }
  }

  lemma StaysOpen(a: seq<Event>, c: bool, ev: Event)
    requires !Sse.Ends(a) && !Sse.IsTerminal(ev.typ)
    ensures !Sse.Ends(a + When(c, ev))
  {
    Sse.EndsAppend(a, When(c, ev));
  }

  lemma AdviceIsOpen(o: Options, a: Advice)
    ensures !Sse.Ends(AdviceEvents(o, a))
  {
    var review := When(a.review, Plain(o, ReviewGenerated));
    var security := review + When(a.security, Plain(o, SecurityReviewed));
    var performance := security + When(a.performance, Plain(o, PerformanceReviewed));
    var refactoring := performance + When(a.refactoring, Plain(o, RefactoringReviewed));
    StaysOpen(review, a.security, Plain(o, SecurityReviewed));
    StaysOpen(security, a.performance, Plain(o, PerformanceReviewed));
    StaysOpen(performance, a.refactoring, Plain(o, RefactoringReviewed));
    StaysOpen(refactoring, a.report, Plain(o, ReportGenerated));
  }
}
